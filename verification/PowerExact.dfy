/** Multiplying by powers of two and raising two to a power with the operations of
    uint256.h: every shift they reach is one where the shift is exact. */
module PowerExact {
  import opened Bits
  import opened Bytes
  import opened Uint256
  import opened ShiftExact
  import opened AddExact

  /** The buffer whose only set bit is bit s. */
  function OneBit(s: nat): (r: buffer)
    requires s < 256
  {
    Zeros(32)[31 - s / 8 := OneBitByte(s % 8)]
  }

  /** The buffer of 2^e modulo 2^256. */
  function PowBytes(e: nat): (r: buffer)
  {
    if e < 256 then OneBit(e) else Zeros(32)
  }

  lemma ShlOne(k: nat)
    ensures Shl(1, k) == Pow2(k)
  {
    ShlIsMul(1, k);
  }

  lemma ValOneBit(s: nat)
    requires s < 256
    ensures Val(OneBit(s)) == Pow2(s)
  {
    var q, m := s / 8, s % 8;
    var head := Zeros(31 - q) + [OneBitByte(m)];
    assert OneBit(s) == head + Zeros(q);
    ValAppendZeros(head, q);
    ValLastByte(31 - q, OneBitByte(m));
    Pow2Shift(s, m, 8 * q);
  }

  lemma ValLastByte(k: nat, x: byte)
    ensures Val(Zeros(k) + [x]) == x
  {
    assert (Zeros(k) + [x])[..k] == Zeros(k);
    ValZeros(k);
  }

  lemma Pow2Shift(s: nat, m: nat, k: nat)
    requires s == m + k
    ensures Shl(Pow2(m), k) == Pow2(s)
  {
    ShlIsMul(Pow2(m), k);
    Pow2Add(m, k);
  }

  lemma Pow2Mod256(e: nat)
    ensures e < 256 ==> Pow2(e) % TWO_256 == Pow2(e)
    ensures e >= 256 ==> Pow2(e) % TWO_256 == 0
  {
    var n := 8 * |Zeros(32)|;
    Pow2At256(n);
    if e < 256 {
      Pow2Monotone(e, n);
    } else {
      Pow2Add(e - n, n);
      DivModUnique(Pow2(e), TWO_256, Pow2(e - n), 0);
    }
  }

  lemma ValPow(e: nat)
    ensures Val(PowBytes(e)) == Pow2(e) % TWO_256
  {
    Pow2Mod256(e);
    if e < 256 { ValOneBit(e); } else { ValZeros(32); }
  }

  // ------------------------------------------------------------ multiplication

  lemma AddZeroLeft(b: buffer)
    ensures AddBytes(Zeros(32), b) == b
  {
    forall i | 0 <= i < 32 ensures AddBytes(Zeros(32), b)[i] == b[i] {
      NoCarryUp(Zeros(32), b, i);
    }
  }

  /** Bit indices without a set bit leave the loop state alone. */
  lemma {:induction false} MulSkip(a: buffer, b: buffer, temp: buffer, acc: buffer, i: int, j: int)
    requires -1 <= j <= i < 256
    requires forall k :: j < k <= i ==> !BitSet(b, k)
    ensures MulFrom(a, b, temp, acc, i) == MulFrom(a, b, temp, acc, j)
    decreases i - j
  {
    hide ShlBytes, AddBytes, BitSet;
    if j < i { MulSkip(a, b, temp, acc, i - 1, j); }
  }

  lemma ZeroHasNoBit(i: nat)
    requires i < 256
    ensures !BitSet(Zeros(32), i)
  {
    Pow2Values();
    AndZero(8, OneBitByte(7 - i % 8));
  }

  lemma MulByZero(a: buffer)
    ensures MulBytes(a, Zeros(32)) == Zeros(32)
  {
    forall k | 0 <= k < 256 ensures !BitSet(Zeros(32), k) {
      ZeroHasNoBit(k);
    }
    MulSkip(a, Zeros(32), Zeros(32), Zeros(32), 8 * |Zeros(32)| - 1, -1);
  }

  lemma OneBitAt(s: nat, i: nat)
    requires s < 256 && i < 256
    ensures BitSet(OneBit(s), i) <==> i == 255 - s
  {
    Pow2Values();
    var b := OneBit(s);
    if i / 8 == 31 - s / 8 {
      assert b[i / 8] == Pow2(s % 8);
      AndSingleBits(8, s % 8, 7 - i % 8);
    } else {
      assert b[i / 8] == 0;
      AndZero(8, OneBitByte(7 - i % 8));
    }
  }

  /** A single-bit multiplier makes one shift into a cleared buffer. */
  lemma MulByOneBit(a: buffer, s: nat)
    requires s < 256
    ensures MulBytes(a, OneBit(s)) == ShlBytes(Zeros(32), a, s)
  {
    var b, zero, i := OneBit(s), Zeros(32), 255 - s;
    var shifted := ShlBytes(zero, a, s);
    forall k | 0 <= k < 256 ensures BitSet(b, k) <==> k == i {
      OneBitAt(s, k);
    }
    hide ShlBytes, AddBytes, BitSet, OneBit;
    MulSkip(a, b, zero, zero, 8 * |b| - 1, i);
    AddZeroLeft(shifted);
    assert MulFrom(a, b, zero, zero, i) == MulFrom(a, b, shifted, shifted, i - 1);
    MulSkip(a, b, shifted, shifted, i - 1, -1);
  }

  /** Exactly which multiplications by 2^s are right modulo 2^256. */
  lemma MulByPowerExactIff(a: buffer, s: nat)
    requires s < 256
    ensures Val(MulBytes(a, OneBit(s))) == (Val(a) * Val(OneBit(s))) % TWO_256 <==> ShiftIsExact(Zeros(32), a, s)
  {
    MulByOneBit(a, s);
    ValOneBit(s);
    ShlExactIff(Zeros(32), a, s);
  }

  /** Doubling 128 does not give 256: the bit that leaves byte 31 arrives in byte 30
      as 64 instead of 1. */
  lemma DoublingIsWrong()
    ensures var a: buffer := Zeros(31) + [128];
            Val(MulBytes(a, OneBit(1))) != (Val(a) * Val(OneBit(1))) % TWO_256
  {
    hide MulBytes, Val, OneBit;
    var a: buffer := Zeros(31) + [128];
    Pow2Values();
    assert a[31] == 128;
    MulByPowerExactIff(a, 1);
  }

  /** Multiplying by a power of 256 is right for every multiplicand. */
  lemma MulByBytePower(a: buffer, k: nat)
    ensures Val(MulBytes(a, PowBytes(8 * k))) == (Val(a) * Pow2(8 * k)) % TWO_256
  {
    if k < 32 {
      MulByOneBit(a, 8 * k);
      ByteShiftExact(a, 8 * k);
    } else {
      MulByZero(a);
      ValZeros(32);
      LargePowerVanishes(Val(a), 8 * k);
    }
  }

  lemma ByteShiftExact(a: buffer, s: nat)
    requires s < 256 && s % 8 == 0
    ensures Val(ShlBytes(Zeros(32), a, s)) == (Val(a) * Pow2(s)) % TWO_256
  {
    ShlExactIff(Zeros(32), a, s);
  }

  lemma LargePowerVanishes(v: nat, e: nat)
    requires e >= 256
    ensures (v * Pow2(e)) % TWO_256 == 0
  {
    var n := 8 * |Zeros(32)|;
    Pow2At256(n);
    Pow2Add(e - n, n);
    ProductMod(v, Pow2(e - n));
  }

  lemma ProductMod(v: nat, p: nat)
    ensures (v * (p * TWO_256)) % TWO_256 == 0
  {
    assert v * (p * TWO_256) == (v * p) * TWO_256;
    DivModUnique(v * (p * TWO_256), TWO_256, v * p, 0);
  }

  /** Multiplying 2^p by 2^s moves no bit across a byte boundary the wrong way. */
  predicate Compatible(p: nat, s: nat)
  {
    s % 8 == 0 || s % 8 == 4 || p % 8 + s % 8 < 8
  }

  lemma PowShiftIsExact(p: nat, s: nat)
    requires s < 256 && Compatible(p, s)
    ensures ShiftIsExact(Zeros(32), PowBytes(p), s)
  {
    if s % 8 != 0 && s % 8 != 4 {
      forall j | 0 <= j < 32 ensures PowBytes(p)[j] < Pow2(8 - s % 8) {
        Pow2Monotone(p % 8, 8 - s % 8);
      }
    }
  }

  lemma MulPow(p: nat, s: nat)
    requires Compatible(p, s)
    ensures MulBytes(PowBytes(p), PowBytes(s)) == PowBytes(p + s)
  {
    if s >= 256 {
      MulByZero(PowBytes(p));
    } else {
      MulByOneBit(PowBytes(p), s);
      PowShiftIsExact(p, s);
      PowProduct(p, s);
      ShlEquals(Zeros(32), PowBytes(p), s, PowBytes(p + s));
    }
  }

  lemma PowProduct(p: nat, s: nat)
    ensures Val(PowBytes(p + s)) == (Val(PowBytes(p)) * Pow2(s)) % TWO_256
  {
    hide Val, PowBytes, Pow2;
    ValPow(p);
    ValPow(p + s);
    Pow2Add(p, s);
    ModProduct(Pow2(p), Pow2(s), TWO_256);
  }

  // ------------------------------------------------------------ exponentiation

  lemma {:induction false} Pow2Mod8(t: nat)
    requires t >= 3
    ensures Pow2(t) % 8 == 0
  {
    if t == 3 { Pow2Values(); } else { Pow2Mod8(t - 1); }
  }

  lemma LoopShiftsCompatible(t: nat, r: nat)
    requires r < Pow2(t)
    ensures Compatible(Pow2(t), r) && Compatible(Pow2(t), Pow2(t))
  {
    Pow2Values();
    if t >= 3 { Pow2Mod8(t); }
  }

  /** Loop invariant of the exponentiation: acc = 2^(2^t), temp = 2^r with r < 2^t,
      and exp * 2^t + r is the exponent that was asked for. */
  lemma {:induction false} ExpFromPow(t: nat, r: nat, exp: nat)
    requires r < Pow2(t) && exp > 0
    ensures ExpFrom(PowBytes(Pow2(t)), PowBytes(r), exp) == PowBytes(Shl(exp, t) + r)
    decreases exp
  {
    hide *;
    if exp == 1 {
      ExpLast(t, r);
    } else {
      var r' := if exp % 2 == 0 then r else Pow2(t) + r;
      ExponentStep(exp, t, r, r');
      ExpStep(t, r, exp);
      ExpFromPow(t + 1, r', exp / 2);
    }
  }

  lemma ExpLast(t: nat, r: nat)
    requires r < Pow2(t)
    ensures ExpFrom(PowBytes(Pow2(t)), PowBytes(r), 1) == PowBytes(Shl(1, t) + r)
  {
    LoopShiftsCompatible(t, r);
    MulPow(Pow2(t), r);
    ShlOne(t);
  }

  lemma ExponentStep(exp: nat, t: nat, r: nat, r': nat)
    requires r < Pow2(t) && r' == if exp % 2 == 0 then r else Pow2(t) + r
    ensures Shl(exp, t) + r == Shl(exp / 2, t + 1) + r' && r' < Pow2(t + 1)
  {
    HalveShift(exp / 2, t);
  }

  lemma ExpStep(t: nat, r: nat, exp: nat)
    requires r < Pow2(t) && exp > 1
    ensures ExpFrom(PowBytes(Pow2(t)), PowBytes(r), exp)
         == ExpFrom(PowBytes(Pow2(t + 1)), PowBytes(if exp % 2 == 0 then r else Pow2(t) + r), exp / 2)
  {
    hide MulBytes, ExpFrom, PowBytes, Compatible;
    LoopShiftsCompatible(t, r);
    MulPow(Pow2(t), Pow2(t));
    MulPow(Pow2(t), r);
    ExpFromStep(PowBytes(Pow2(t)), PowBytes(r), exp, PowBytes(Pow2(t + 1)), PowBytes(Pow2(t) + r));
  }

  lemma ExpFromStep(acc: buffer, temp: buffer, exp: nat, acc': buffer, temp': buffer)
    requires exp > 1 && acc' == MulBytes(acc, acc) && temp' == MulBytes(acc, temp)
    ensures ExpFrom(acc, temp, exp) == ExpFrom(acc', if exp % 2 == 0 then temp else temp', exp / 2)
  {
    hide MulBytes;
  }

  lemma HalveShift(h: nat, t: nat)
    ensures Shl(2 * h, t) == Shl(h, t + 1)
    ensures Shl(2 * h + 1, t) == Shl(h, t + 1) + Pow2(t)
  {
    assert Shl(h, 1) == 2 * h;
    ShlShl(h, 1, t);
    ShlAdd(2 * h, 1, t);
    ShlOne(t);
  }

  const TWO: buffer := Zeros(31) + [2]

  lemma PowBytesSmall()
    ensures ONE == PowBytes(0) && TWO == PowBytes(1)
  {
    Pow2Values();
    assert ONE == Zeros(32)[31 := 1] && TWO == Zeros(32)[31 := 2];
  }

  /** With base two the exponentiation is right for every exponent. */
  lemma ExpTwoExact(e: nat)
    ensures ExpBytes(TWO, e, false) == PowBytes(e)
    ensures Val(ExpBytes(TWO, e, false)) == Pow2(e) % TWO_256
  {
    PowBytesSmall();
    if e > 0 {
      ExpFromPow(0, 0, e);
    }
    ValPow(e);
  }

  // ------------------------------------------------------------ aliasing

  lemma ShlOfZero(shift: byte)
    ensures ShlBytes(Zeros(32), Zeros(32), shift) == Zeros(32)
  {
    ValZeros(32);
    ShlEquals(Zeros(32), Zeros(32), shift, Zeros(32));
  }

  lemma {:induction false} MulZeroFrom(b: buffer, i: int)
    requires -1 <= i < 256
    ensures MulFrom(Zeros(32), b, Zeros(32), Zeros(32), i) == Zeros(32)
    decreases i + 1
  {
    if i >= 0 {
      ShlOfZero(255 - i);
      AddZeroLeft(Zeros(32));
      MulZeroFrom(b, i - 1);
    }
  }

  lemma MulZero(b: buffer)
    ensures MulBytes(Zeros(32), b) == Zeros(32)
  {
    hide MulFrom;
    MulZeroFrom(b, 8 * |b| - 1);
  }

  lemma {:induction false} ExpFromZero(temp: buffer, exp: nat)
    requires exp > 0
    ensures ExpFrom(Zeros(32), temp, exp) == Zeros(32)
    decreases exp
  {
    hide MulBytes;
    MulZero(temp);
    MulZero(Zeros(32));
    if exp > 1 {
      ExpFromZero(if exp % 2 == 0 then temp else Zeros(32), exp / 2);
    }
  }

  /** When the result buffer is the base buffer, every positive power comes out as
      zero, whatever the base. */
  lemma ExpAliasedIsZero(base: buffer, e: nat)
    requires e > 0
    ensures ExpBytes(base, e, true) == Zeros(32)
  {
    ExpFromZero(ONE, e);
  }
}
