/** Exactly when the buffer shift of uint256.h is a left shift of the 256-bit
    integer. The code moves the bits that leave a byte by `move_n` instead of
    `8 - move_n`, and never writes the low bytes of the destination. */
module ShiftExact {
  import opened Bits
  import opened Bytes
  import opened Uint256

  /** The bits of y that belong in its left neighbour. */
  function Hi(y: byte, m: nat): (r: byte)
    requires m < 8
  {
    Shr(y, 8 - m)
  }

  /** The byte that a true left shift by m < 8 bits would produce. */
  function RightByte(x: byte, y: byte, m: nat): (r: nat)
    requires m < 8
  {
    Lo(x, m) + Hi(y, m)
  }

  /** The bits of x that stay in its byte. */
  function Stay(x: byte, m: nat): (r: nat)
    requires m < 8
    ensures r < Pow2(8 - m)
  {
    SplitAt(x, 8 - m);
    x - Shl(Shr(x, 8 - m), 8 - m)
  }

  /** Shifting left by m separates the bits that stay from those that leave. */
  lemma StayAndLeave(x: byte, m: nat)
    requires m < 8
    ensures Shl(x, m) == Shl(Stay(x, m), m) + Shl(Hi(x, m), 8)
    ensures Shl(Stay(x, m), m) < Pow2(8)
  {
    ShlParts(x, 8, 8 - m, m);
  }

  lemma LoIs(x: byte, m: nat)
    requires m < 8
    ensures Lo(x, m) == Shl(Stay(x, m), m)
    ensures Shl(x, m) == Lo(x, m) + 256 * Hi(x, m)
  {
    StayAndLeave(x, m);
    assert Pow2(8) == 256;
    Shl8(Hi(x, m));
    Truncate(Shl(x, m), Hi(x, m), Shl(Stay(x, m), m));
  }

  lemma Truncate(n: nat, q: nat, r: nat)
    requires n == r + 256 * q && r < 256
    ensures n % 256 == r
  {
  }

  lemma HiFits(x: byte, m: nat)
    requires m < 8
    ensures Hi(x, m) < Pow2(m)
    ensures Hi(x, m) == 0 <==> x < Pow2(8 - m)
  {
    assert Pow2(8) == 256;
    ShrFits(x, 8, 8 - m);
    ShrZeroIff(x, 8 - m);
  }

  /** The mask selects the outgoing bits, which are then moved down by m. */
  lemma CarryIs(y: byte, m: nat)
    requires m < 8
    ensures Carry(y, m) == Shr(Shl(Hi(y, m), 8 - m), m)
  {
    Pow2Values();
    assert Mask(m) == 256 - Pow2(8 - m) by { ShlIsMul(255, 8 - m); }
    AndHighMask(8, y, 8 - m);
  }

  /** The low m bits that the code puts where the incoming bits belong. */
  function LowOf(carry: nat, m: nat): (r: int)
  {
    carry - Shl(Shr(carry, m), m)
  }

  ghost predicate LowOfSpec(hi: nat, carry: nat, m: nat)
  {
    && 0 <= LowOf(carry, m) < Pow2(m)
    && (LowOf(carry, m) == hi <==> m == 0 || m == 4 || hi == 0)
    && (m == 4 || hi == 0 ==> Shr(carry, m) == 0)
  }

  /** Below three bits the incoming bits land above the low m positions. */
  lemma LowOfFar(hi: nat, m: nat)
    requires m < 3 && hi < Pow2(m)
    ensures LowOfSpec(hi, Shl(hi, 8 - 2 * m), m)
  {
    var carry := Shl(hi, 8 - 2 * m);
    ShrShl(hi, 8 - 2 * m, m);
    ShlShl(hi, 8 - 3 * m, m);
    assert LowOf(carry, m) == 0;
    if hi == 0 { ShlZero(8 - 3 * m); }
  }

  lemma LowOfThree(hi: nat)
    requires hi < 8
    ensures LowOfSpec(hi, 4 * hi, 3)
  {
    assert Pow2(3) == 8;
    assert Shr(4 * hi, 3) == Shr(2 * hi, 2) == Shr(hi, 1) == hi / 2;
    assert Shl(hi / 2, 3) == 2 * Shl(hi / 2, 2) == 8 * (hi / 2);
  }

  /** From four bits on they land inside, cut down by 2m - 8 places. */
  lemma LowOfNear(hi: nat, m: nat)
    requires 4 <= m < 8 && hi < Pow2(m)
    ensures LowOfSpec(hi, Shr(hi, 2 * m - 8), m)
  {
    var carry := Shr(hi, 2 * m - 8);
    ShrFits(carry, m, m);
    Pow2Values();
    assert Shr(carry, m) == 0;
    ShlZero(m);
    if m > 4 { assert Shr(hi, 2 * m - 8) == Shr(hi / 2, 2 * m - 9); }
  }

  lemma LowOfCarry(hi: nat, m: nat)
    requires m < 8 && hi < Pow2(m)
    ensures LowOfSpec(hi, Shr(Shl(hi, 8 - m), m), m)
  {
    ShrShl(hi, 8 - m, m);
    if m < 3 {
      LowOfFar(hi, m);
    } else if m == 3 {
      assert Pow2(3) == 8 && Shl(hi, 2) == 2 * Shl(hi, 1) == 4 * hi;
      LowOfThree(hi);
    } else {
      LowOfNear(hi, m);
    }
  }

  /** The code's byte is the right one exactly when half or no bytes are moved, or
      nothing crosses into it. */
  lemma ShiftByteExact(x: byte, y: byte, m: nat)
    requires m < 8
    ensures RightByte(x, y, m) < 256
    ensures ShiftByte(x, y, m) == RightByte(x, y, m) <==> m == 0 || m == 4 || y < Pow2(8 - m)
  {
    var hi, h, carry := Hi(y, m), Stay(x, m), Carry(y, m);
    LoIs(x, m);
    HiFits(y, m);
    CarryIs(y, m);
    LowOfCarry(hi, m);
    assert Pow2(8) == 256;
    OrAligned(8, h, carry, m);
    OrDisjoint(8, h, hi, m);
    OrSplit(h, hi, carry, m);
  }

  lemma OrSplit(h: nat, hi: nat, carry: nat, m: nat)
    requires m < 8 && h < Pow2(8 - m) && hi < Pow2(m) && carry < Pow2(8)
    requires LowOfSpec(hi, carry, m)
    ensures Shl(h, m) < Pow2(8)
    ensures BitOr(8, Shl(h, m), carry) == Shl(h, m) + hi <==> m == 0 || m == 4 || hi == 0
  {
    hide BitOr, Shl, Shr, Pow2;
    OrAligned(8, h, carry, m);
    var w := BitOr(8 - m, h, Shr(carry, m));
    SplitUnique(w, LowOf(carry, m), h, hi, m);
    Pow2Zero();
    if Shr(carry, m) == 0 { OrZero(8 - m, h); }
  }

  /** A true left shift of t by m < 8 bits, with c < 2^m entering at the right and
      what leaves at the left dropped. */
  function TrueShl(t: seq<byte>, m: nat, c: nat): (r: seq<byte>)
    requires m < 8 && c < Pow2(m)
    ensures |r| == |t|
  {
    if t == [] then []
    else
      var n := |t| - 1;
      HiFits(t[n], m);
      EnterFits(t[n], c, m);
      TrueShl(t[..n], m, Hi(t[n], m)) + [Lo(t[n], m) + c]
  }

  lemma EnterFits(x: byte, c: nat, m: nat)
    requires m < 8 && c < Pow2(m)
    ensures Lo(x, m) + c < 256
  {
    assert Pow2(8) == 256;
    LoIs(x, m);
    OrDisjoint(8, Stay(x, m), c, m);
  }

  lemma {:induction false} TrueShlAt(t: seq<byte>, m: nat, c: nat, i: nat)
    requires m < 8 && c < Pow2(m) && i < |t|
    ensures TrueShl(t, m, c)[i] == Lo(t[i], m) + if i + 1 < |t| then Hi(t[i + 1], m) else c
  {
    var n := |t| - 1;
    HiFits(t[n], m);
    if i < n {
      TrueShlAt(t[..n], m, Hi(t[n], m), i);
    }
  }

  lemma {:induction false} ValTrueShl(t: seq<byte>, m: nat, c: nat)
    requires m < 8 && c < Pow2(m) && t != []
    ensures Val(TrueShl(t, m, c)) + Shl(Hi(t[0], m), 8 * |t|) == Shl(Val(t), m) + c
  {
    hide Pow2, Hi, Lo;
    var n := |t| - 1;
    var x := t[n];
    HiFits(x, m);
    LoIs(x, m);
    var w := TrueShlLast(t, m, c);
    if n == 0 {
      Shl8(Hi(x, m));
    } else {
      ValTrueShl(t[..n], m, Hi(x, m));
      var v, h := Val(t[..n]), Hi(t[0], m);
      ShlSnoc(v, x, m);
      ShlByte(h, 8 * n);
      ShiftStep(w, Shl(h, 8 * n), Shl(v, m), Hi(x, m), Lo(x, m), Shl(x, m), Shl(Val(t), m), Shl(h, 8 * |t|));
    }
  }

  lemma TrueShlLast(t: seq<byte>, m: nat, c: nat) returns (w: nat)
    requires m < 8 && c < Pow2(m) && t != []
    ensures var x := t[|t| - 1];
            && Hi(x, m) < Pow2(m)
            && w == Val(TrueShl(t[..|t| - 1], m, Hi(x, m)))
            && Val(TrueShl(t, m, c)) == 256 * w + Lo(x, m) + c
  {
    var n := |t| - 1;
    HiFits(t[n], m);
    w := Val(TrueShl(t[..n], m, Hi(t[n], m)));
    assert TrueShl(t, m, c)[..n] == TrueShl(t[..n], m, Hi(t[n], m));
  }

  lemma ShlSnoc(v: nat, x: nat, m: nat)
    ensures Shl(256 * v + x, m) == 256 * Shl(v, m) + Shl(x, m)
  {
    ShlAdd(256 * v, x, m);
    ShlScale(v, m);
  }

  /** One more byte at the right of a number whose shift s is w with h leaving. */
  lemma ShiftStep(w: nat, h: nat, s: nat, hi: nat, lo: nat, x: nat, s': nat, h': nat)
    requires w + h == s + hi && x == lo + 256 * hi && s' == 256 * s + x && h' == 256 * h
    ensures 256 * w + lo + h' == s'
  {
  }

  lemma ShlScale(v: nat, m: nat)
    ensures Shl(256 * v, m) == 256 * Shl(v, m)
  {
    Shl8(v);
    ShlShl(v, 8, m);
    ShlShl(v, m, 8);
    Shl8(Shl(v, m));
  }

  /** The buffer a correct shift would leave. */
  function FullShl(a: buffer, shift: byte): (r: buffer)
  {
    TrueShl(a[shift / 8..], shift % 8, 0) + Zeros(shift / 8)
  }

  lemma ValFullShl(a: buffer, shift: byte)
    ensures Val(FullShl(a, shift)) == (Val(a) * Pow2(shift)) % TWO_256
  {
    hide Val, Shl, Pow2, TrueShl;
    var b, m := shift / 8, shift % 8;
    var n := 8 * |a[b..]|;
    var top, t, o, h := FullShlParts(a, b, m);
    ShiftedWhole(Val(a), Val(FullShl(a, shift)), top, t, o, h, n, m, 8 * b);
    WrapAt256(FullShl(a, shift), Val(a), shift, Shl(top, m) + h);
  }

  /** The pieces of a shift by b bytes and m bits: a is `top` before its last 32 - b
      bytes `t`, which become o with h leaving. */
  lemma FullShlParts(a: buffer, b: nat, m: nat) returns (top: nat, t: nat, o: nat, h: nat)
    requires b < 32 && m < 8
    ensures Val(a) == Shl(top, 8 * |a[b..]|) + t
    ensures Val(TrueShl(a[b..], m, 0) + Zeros(b)) == Shl(o, 8 * b)
    ensures o + Shl(h, 8 * |a[b..]|) == Shl(t, m)
  {
    var tail, out := a[b..], TrueShl(a[b..], m, 0);
    top, t, o := Val(a[..b]), Val(tail), Val(out);
    h := Leaving(tail, m, out);
    ValAppendZeros(out, b);
    assert a == a[..b] + tail;
    ValConcat(a[..b], tail);
  }

  lemma ValAppendZeros(s: seq<byte>, b: nat)
    ensures Val(s + Zeros(b)) == Shl(Val(s), 8 * b)
  {
    ValConcat(s, Zeros(b));
    ValZeros(b);
  }

  lemma Leaving(t: seq<byte>, m: nat, out: seq<byte>) returns (h: nat)
    requires t != [] && m < 8 && out == TrueShl(t, m, 0)
    ensures Val(out) + Shl(h, 8 * |t|) == Shl(Val(t), m)
  {
    h := Hi(t[0], m);
    ValTrueShl(t, m, 0);
  }

  lemma ShiftedWhole(v: nat, r: nat, top: nat, t: nat, o: nat, h: nat, n: nat, m: nat, z: nat)
    requires v == Shl(top, n) + t && r == Shl(o, z) && n + z == 256
    requires o + Shl(h, n) == Shl(t, m)
    ensures Shl(v, m + z) == Shl(Shl(top, m) + h, 256) + r
  {
    ShiftedParts(top, t, o, h, n, m, z);
  }

  /** Moving the tail by m and then by z, and the top along with it. */
  lemma ShiftedParts(top: nat, v: nat, o: nat, h: nat, p: nat, m: nat, z: nat)
    requires o + Shl(h, p) == Shl(v, m)
    ensures Shl(Shl(top, p) + v, m + z) == Shl(Shl(top, m) + h, p + z) + Shl(o, z)
  {
    assert Shl(Shl(top, p), m + z) == Shl(Shl(top, m), p + z) by {
      ShlShl(top, p, m + z);
      ShlShl(top, m, p + z);
      assert p + (m + z) == m + (p + z);
    }
    assert Shl(v, m + z) == Shl(o, z) + Shl(h, p + z) by {
      ShlShl(v, m, z);
      ShlAdd(o, Shl(h, p), z);
      ShlShl(h, p, z);
    }
    ShlAdd(Shl(top, p), v, m + z);
    ShlAdd(Shl(top, m), h, p + z);
  }

  lemma WrapAt256(r: buffer, v: nat, shift: nat, q: nat)
    requires Shl(v, shift) == Shl(q, 256) + Val(r)
    ensures Val(r) == (v * Pow2(shift)) % TWO_256
  {
    ValBound(r);
    Pow2At256(8 * |r|);
    ShlIsMul(v, shift);
    ShlIsMul(q, 8 * |r|);
    DivModUnique(v * Pow2(shift), TWO_256, q, Val(r));
  }

  /** What a caller can check: the destination is clear below the shift, and
      either whole or half bytes are moved or no bit leaves its byte. */
  predicate ShiftIsExact(dst: buffer, a: buffer, shift: byte)
  {
    shift == 0
    || ((forall i :: 32 - shift / 8 <= i < 32 ==> dst[i] == 0)
        && (shift % 8 == 0 || shift % 8 == 4 || forall j :: shift / 8 < j < 32 ==> a[j] < Pow2(8 - shift % 8)))
  }

  lemma FullShlAt(a: buffer, shift: byte, i: nat)
    requires i < 32
    ensures i + shift / 8 < 32 ==>
              FullShl(a, shift)[i] == RightByte(a[i + shift / 8], At(a, i + shift / 8 + 1), shift % 8)
    ensures i + shift / 8 >= 32 ==> FullShl(a, shift)[i] == 0
  {
    var b, m := shift / 8, shift % 8;
    if i + b < 32 {
      TrueShlAt(a[b..], m, 0, i);
      HiFits(0, m);
    }
  }

  /** Byte i of the destination comes out right. */
  predicate ByteIsExact(dst: buffer, a: buffer, shift: byte, i: nat)
    requires i < 32
  {
    if i + shift / 8 < 32 then
      shift % 8 == 0 || shift % 8 == 4 || At(a, i + shift / 8 + 1) < Pow2(8 - shift % 8)
    else dst[i] == 0
  }

  lemma ShlVsFullAt(dst: buffer, a: buffer, shift: byte, i: nat)
    requires i < 32 && shift > 0
    ensures ShlBytes(dst, a, shift)[i] == FullShl(a, shift)[i] <==> ByteIsExact(dst, a, shift, i)
  {
    var b, m := shift / 8, shift % 8;
    FullShlAt(a, shift, i);
    assert ShlBytes(dst, a, shift)[i] == ShlAt(dst, a, shift, i);
    if i + b < 32 {
      ShiftByteExact(a[i + b], At(a, i + b + 1), m);
    }
  }

  lemma BytesAreExact(dst: buffer, a: buffer, shift: byte)
    requires shift > 0
    ensures (forall i :: 0 <= i < 32 ==> ByteIsExact(dst, a, shift, i)) <==> ShiftIsExact(dst, a, shift)
  {
    var b, m := shift / 8, shift % 8;
    if forall i :: 0 <= i < 32 ==> ByteIsExact(dst, a, shift, i) {
      forall i | 32 - b <= i < 32 ensures dst[i] == 0 {
        assert ByteIsExact(dst, a, shift, i);
      }
      forall j | b < j < 32 && m != 0 && m != 4 ensures a[j] < Pow2(8 - m) {
        assert ByteIsExact(dst, a, shift, j - b - 1);
      }
    }
  }

  lemma ShlVsFull(dst: buffer, a: buffer, shift: byte)
    requires shift > 0
    ensures ShlBytes(dst, a, shift) == FullShl(a, shift) <==> ShiftIsExact(dst, a, shift)
  {
    var r, f := ShlBytes(dst, a, shift), FullShl(a, shift);
    forall i | 0 <= i < 32 ensures r[i] == f[i] <==> ByteIsExact(dst, a, shift, i) {
      ShlVsFullAt(dst, a, shift, i);
    }
    BytesAreExact(dst, a, shift);
    if r == f {
      assert forall i :: 0 <= i < 32 ==> ByteIsExact(dst, a, shift, i);
    }
  }

  lemma FullShlZero(a: buffer)
    ensures FullShl(a, 0) == a
  {
    forall i | 0 <= i < 32 ensures FullShl(a, 0)[i] == a[i] {
      FullShlAt(a, 0, i);
      HiFits(At(a, i + 1), 0);
    }
  }

  /** The shift multiplies by 2^shift modulo 2^256 for exactly the calls that
      `ShiftIsExact` admits. */
  lemma ShlExactIff(dst: buffer, a: buffer, shift: byte)
    ensures Val(ShlBytes(dst, a, shift)) == (Val(a) * Pow2(shift)) % TWO_256 <==> ShiftIsExact(dst, a, shift)
  {
    ValFullShl(a, shift);
    if shift == 0 { FullShlZero(a); } else { ShlVsFull(dst, a, shift); }
    if Val(ShlBytes(dst, a, shift)) == Val(FullShl(a, shift)) {
      ValInjective(ShlBytes(dst, a, shift), FullShl(a, shift));
    }
  }

  /** An exact shift leaves the buffer of the shifted value. */
  lemma ShlEquals(dst: buffer, a: buffer, shift: byte, x: buffer)
    requires ShiftIsExact(dst, a, shift)
    requires Val(x) == (Val(a) * Pow2(shift)) % TWO_256
    ensures ShlBytes(dst, a, shift) == x
  {
    ValFullShl(a, shift);
    ValInjective(FullShl(a, shift), x);
    if shift == 0 { FullShlZero(a); } else { ShlVsFull(dst, a, shift); }
  }
}
