/** The shift of uint256.h within one buffer: it reads bytes that it has already
    overwritten. Exactly when the result is a left shift of the 256-bit integer. */
module InPlaceShift {
  import opened Bits
  import opened Bytes
  import opened Uint256
  import opened ShiftExact

  // ------------------------------------------------------------ a failure

  /** A shift by one byte within one buffer copies the last byte to every place. */
  lemma {:induction false} InPlaceSmears(a: buffer, i: nat)
    requires i < 32
    ensures InPlaceAt(a, 8, i) == a[31]
    decreases 32 - i
  {
    hide ShiftByte;
    if i < 31 {
      InPlaceSmears(a, i + 1);
      WholeByte(a[31], if i + 2 < 32 then InPlaceAt(a, 8, i + 2) else 0, 0);
    }
  }

  /** Moving whole bytes takes no bits from the neighbour. */
  lemma WholeByte(x: byte, y: byte, m: nat)
    requires m == 0
    ensures ShiftByte(x, y, m) == x
  {
    hide Shl, Shr, ShiftByte, Pow2;
    Pow2Zero();
    ShiftByteExact(x, y, m);
    HiFits(y, m);
    LoNone(x, m);
  }

  lemma LoNone(x: byte, m: nat)
    requires m == 0
    ensures Lo(x, m) == x
  {
  }

  // ------------------------------------------------------------ whole bytes move

  /** What a caller can check if at least one byte is moved: the last bytes, which are
      never written, are clear, and every bit that is set leaves the buffer. */
  predicate AllLeaves(a: buffer, shift: byte)
    requires shift >= 8
  {
    var b := shift / 8;
    Lo(a[b], shift % 8) == 0 && forall j :: 0 <= j < 32 && (b < j || 32 - b <= j) ==> a[j] == 0
  }

  lemma {:induction false} ClearSpreads(a: buffer, shift: byte, i: nat)
    requires shift >= 8 && i < 32 && forall j :: 32 - shift / 8 <= j < 32 ==> a[j] == 0
    ensures InPlaceAt(a, shift, i) == 0
    decreases 32 - i
  {
    hide ShiftByte;
    var b := shift / 8;
    if i + b < 32 {
      ClearSpreads(a, shift, i + b);
      if i + b + 1 < 32 { ClearSpreads(a, shift, i + b + 1); }
      ClearByte(InPlaceAt(a, shift, i + b), if i + b + 1 < 32 then InPlaceAt(a, shift, i + b + 1) else 0, shift % 8);
    }
  }

  // The byte stays symbolic: the verifier unrolls the shifts on a literal.
  lemma ClearParts(x: byte, m: nat)
    requires m < 8 && x == 0
    ensures Lo(x, m) == 0 && Hi(x, m) == 0
  {
    hide Shl, Shr, Pow2, Lo, Hi;
    HiFits(x, m);
    LoIs(x, m);
    ShlZero(m);
  }

  lemma ClearByte(x: byte, y: byte, m: nat)
    requires m < 8 && x == 0 && y == 0
    ensures ShiftByte(x, y, m) == 0
  {
    hide ShiftByte, Shl, Shr, Pow2, Lo, Hi;
    ClearParts(x, m);
    ShiftByteExact(x, y, m);
  }

  /** Nothing is left of byte x if its low part is 0 and no bit of it is carried. */
  lemma NothingLeft(x: byte, m: nat)
    requires m < 8 && Lo(x, m) == 0 && Hi(x, m) == 0
    ensures x == 0
  {
    hide Shl, Shr, Pow2, Lo, Hi;
    LoIs(x, m);
  }

  lemma ClearMeansLeaves(a: buffer, shift: byte)
    requires shift >= 8 && forall j :: 32 - shift / 8 <= j < 32 ==> a[j] == 0
    requires FullShl(a, shift) == Zeros(32)
    ensures AllLeaves(a, shift)
  {
    hide FullShl, Lo, Hi, Pow2;
    var b, m := shift / 8, shift % 8;
    LowPartClear(a, shift, b);
    forall j | b < j < 32 ensures a[j] == 0 {
      LowPartClear(a, shift, j);
      FullShlAt(a, shift, j - b - 1);
      NothingLeft(a[j], m);
    }
  }

  lemma LowPartClear(a: buffer, shift: byte, j: nat)
    requires shift >= 8 && shift / 8 <= j < 32 && FullShl(a, shift) == Zeros(32)
    ensures Lo(a[j], shift % 8) == 0
  {
    hide FullShl, Lo, Hi, Pow2;
    FullShlAt(a, shift, j - shift / 8);
  }

  lemma LeavesByte(a: buffer, b: nat, m: nat, i: nat)
    requires m < 8 && i + b < 32 && Lo(a[b], m) == 0 && forall j :: b < j < 32 ==> a[j] == 0
    ensures RightByte(a[i + b], At(a, i + b + 1), m) == 0
  {
    hide Lo, Hi;
    ClearParts(At(a, i + b + 1), m);
    if i > 0 { ClearParts(a[i + b], m); }
  }

  lemma LeavesMeansClear(a: buffer, shift: byte, i: nat)
    requires shift >= 8 && AllLeaves(a, shift) && i < 32
    ensures FullShl(a, shift)[i] == 0
  {
    hide FullShl, RightByte, Lo, At;
    FullShlAt(a, shift, i);
    var b, m := shift / 8, shift % 8;
    if i + b < 32 { LeavesByte(a, b, m, i); }
  }

  lemma WholeBytesIff(a: buffer, shift: byte)
    requires shift >= 8
    ensures ShlInPlace(a, shift) == FullShl(a, shift) <==> AllLeaves(a, shift)
  {
    hide FullShl, InPlaceAt, Lo;
    var b, r, f := shift / 8, ShlInPlace(a, shift), FullShl(a, shift);
    if r == f {
      forall i | 32 - b <= i < 32 ensures a[i] == 0 {
        FullShlAt(a, shift, i);
        LastBytesStay(a, shift, i);
      }
    }
    if forall j :: 32 - b <= j < 32 ==> a[j] == 0 {
      forall i | 0 <= i < 32 ensures r[i] == 0 { ClearSpreads(a, shift, i); }
      assert r == Zeros(32);
      if r == f { ClearMeansLeaves(a, shift); }
    }
    if AllLeaves(a, shift) {
      forall i | 0 <= i < 32 ensures f[i] == 0 { LeavesMeansClear(a, shift, i); }
    }
  }

  lemma LastBytesStay(a: buffer, shift: byte, i: nat)
    requires shift >= 8 && 32 - shift / 8 <= i < 32
    ensures InPlaceAt(a, shift, i) == a[i]
  {
  }

  // ------------------------------------------------------------ bits move

  /** What a caller can check otherwise, byte by byte: the code takes the bits that enter
      byte i from its right neighbour as already shifted, and that gives the right byte. */
  predicate EntersRight(a: buffer, m: nat, i: nat)
    requires 0 < m < 8 && i < 31
  {
    ShiftByteExact(a[i + 1], At(a, i + 2), m);
    ShiftByte(a[i], RightByte(a[i + 1], At(a, i + 2), m), m) == RightByte(a[i], a[i + 1], m)
  }

  lemma InPlaceByte(a: buffer, shift: byte, i: nat)
    requires 0 < shift < 8 && i < 32
    ensures InPlaceAt(a, shift, i) == ShiftByte(a[i], if i < 31 then InPlaceAt(a, shift, i + 1) else 0, shift)
    ensures FullShl(a, shift)[i] == RightByte(a[i], At(a, i + 1), shift)
  {
    hide ShiftByte, RightByte, FullShl;
    FullShlAt(a, shift, i);
  }

  lemma LastByteIsRight(a: buffer, shift: byte)
    requires 0 < shift < 8
    ensures InPlaceAt(a, shift, 31) == FullShl(a, shift)[31]
  {
    hide ShiftByte, RightByte, FullShl, Pow2;
    InPlaceByte(a, shift, 31);
    ShiftByteExact(a[31], 0, shift);
  }

  lemma {:induction false} RightFrom(a: buffer, shift: byte, i: nat)
    requires 0 < shift < 8 && i < 32 && forall k :: i <= k < 31 ==> EntersRight(a, shift, k)
    ensures InPlaceAt(a, shift, i) == FullShl(a, shift)[i]
    decreases 32 - i
  {
    hide ShiftByte, RightByte, FullShl, InPlaceAt;
    if i == 31 {
      LastByteIsRight(a, shift);
    } else {
      RightFrom(a, shift, i + 1);
      InPlaceByte(a, shift, i);
      InPlaceByte(a, shift, i + 1);
      assert EntersRight(a, shift, i);
    }
  }

  lemma BitsIff(a: buffer, shift: byte)
    requires 0 < shift < 8
    ensures ShlInPlace(a, shift) == FullShl(a, shift) <==> forall i :: 0 <= i < 31 ==> EntersRight(a, shift, i)
  {
    hide ShiftByte, RightByte, FullShl, InPlaceAt;
    var r, f := ShlInPlace(a, shift), FullShl(a, shift);
    if r == f {
      forall i | 0 <= i < 31 ensures EntersRight(a, shift, i) {
        InPlaceByte(a, shift, i);
        InPlaceByte(a, shift, i + 1);
        assert r[i] == f[i] && r[i + 1] == f[i + 1];
      }
    }
    if forall i :: 0 <= i < 31 ==> EntersRight(a, shift, i) {
      forall i | 0 <= i < 32 ensures r[i] == f[i] { RightFrom(a, shift, i); }
    }
  }

  // ------------------------------------------------------------ all shifts

  predicate InPlaceIsExact(a: buffer, shift: byte)
  {
    if shift == 0 then true
    else if shift < 8 then forall i :: 0 <= i < 31 ==> EntersRight(a, shift, i)
    else AllLeaves(a, shift)
  }

  /** Within one buffer the shift multiplies by 2^shift modulo 2^256 for exactly the
      calls that `InPlaceIsExact` admits. */
  lemma InPlaceExactIff(a: buffer, shift: byte)
    ensures Val(ShlInPlace(a, shift)) == (Val(a) * Pow2(shift)) % TWO_256 <==> InPlaceIsExact(a, shift)
  {
    hide FullShl, Val, Pow2, AllLeaves, EntersRight;
    ValFullShl(a, shift);
    if shift == 0 { FullShlZero(a); }
    else if shift < 8 { BitsIff(a, shift); }
    else { WholeBytesIff(a, shift); }
    if Val(ShlInPlace(a, shift)) == Val(FullShl(a, shift)) {
      ValInjective(ShlInPlace(a, shift), FullShl(a, shift));
    }
  }
}
