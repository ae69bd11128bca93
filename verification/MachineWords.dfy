/** The numbers that 32-bit machine words stand for: every operator of the hash on
    numbers is the processor's operator on words. */
module MachineWords {
  import opened Bits
  import opened Bytes
  import opened MachineOps
  import opened Sha256Spec
  import opened WordBits

  /** The number in the n low places of z. */
  function Num(z: bv32, n: nat): (x: nat)
    ensures x < Pow2(n)
    decreases n
  {
    if n == 0 then 0 else 2 * Num(Half(z), n - 1) + Low(z)
  }

  function Nat(z: bv32): (x: word)
  {
    Pow2At32();
    Num(z, 32)
  }

  lemma NumStep(z: bv32, n: nat)
    requires n > 0
    ensures Num(z, n) == 2 * Num(Half(z), n - 1) + Low(z)
    ensures Num(z, n) / 2 == Num(Half(z), n - 1) && Num(z, n) % 2 == Low(z)
  {
    hide Half, Low;
  }

  lemma NumZero(z: bv32, n: nat)
    requires n == 0
    ensures Num(z, n) == 0
  {
  }

  // ------------------------------------------------------------ bitwise operators

  lemma {:induction false} XorNum(x: bv32, y: bv32, n: nat)
    ensures BitXor(n, Num(x, n), Num(y, n)) == Num(XorW(x, y), n)
    decreases n
  {
    hide Half, Low, Num, XorW;
    if n > 0 {
      XorNum(Half(x), Half(y), n - 1);
      XorHalf(x, y);
      XorLow(x, y);
      NumStep(x, n);
      NumStep(y, n);
      NumStep(XorW(x, y), n);
    } else {
      NumZero(XorW(x, y), n);
    }
  }

  lemma {:induction false} AndNum(x: bv32, y: bv32, n: nat)
    ensures BitAnd(n, Num(x, n), Num(y, n)) == Num(AndW(x, y), n)
    decreases n
  {
    hide Half, Low, Num, AndW;
    if n > 0 {
      AndNum(Half(x), Half(y), n - 1);
      AndHalf(x, y);
      AndLow(x, y);
      NumStep(x, n);
      NumStep(y, n);
      NumStep(AndW(x, y), n);
    } else {
      NumZero(AndW(x, y), n);
    }
  }

  lemma NatXor(x: bv32, y: bv32)
    ensures Nat(XorW(x, y)) == Xor32(Nat(x), Nat(y))
  {
    hide Num, BitXor, XorW;
    XorNum(x, y, 32);
  }

  lemma NatAnd(x: bv32, y: bv32)
    ensures Nat(AndW(x, y)) == And32(Nat(x), Nat(y))
  {
    hide Num, BitAnd, AndW;
    AndNum(x, y, 32);
  }

  // ------------------------------------------------------------ low places

  /** m has ones in its n low places. */
  predicate LowOnes(m: bv32, n: nat)
    decreases n
  {
    n == 0 || (Low(m) == 1 && LowOnes(Half(m), n - 1))
  }

  lemma {:induction false} MaskNum(z: bv32, m: bv32, n: nat)
    requires LowOnes(m, n)
    ensures Num(AndW(z, m), n) == Num(z, n)
    decreases n
  {
    hide Half, Low, Num, AndW;
    if n > 0 {
      MaskNum(Half(z), Half(m), n - 1);
      AndHalf(z, m);
      AndLow(z, m);
      NumStep(z, n);
      NumStep(AndW(z, m), n);
    } else {
      NumZero(AndW(z, m), n);
      NumZero(z, n);
    }
  }

  lemma {:induction false} FewerOnes(m: bv32, n: nat, k: nat)
    requires LowOnes(m, n) && k <= n
    ensures LowOnes(m, k)
    decreases n
  {
    hide Half, Low;
    if k > 0 { FewerOnes(Half(m), n - 1, k - 1); }
  }

  lemma FourOnes(m: bv32, n: nat)
    requires m & 15 == 15 && LowOnes(m >> 4, n)
    ensures LowOnes(m, n + 4)
  {
    FourLows(m);
    assert LowOnes(m >> 3, n + 1);
    assert LowOnes(m >> 2, n + 2);
    assert LowOnes(m >> 1, n + 3);
  }

  lemma FourLows(m: bv32)
    requires m & 15 == 15
    ensures Half(m) == m >> 1 && Half(m >> 1) == m >> 2 && Half(m >> 2) == m >> 3 && Half(m >> 3) == m >> 4
    ensures Low(m) == Low(m >> 1) == Low(m >> 2) == Low(m >> 3) == 1
  {
  }

  const LOW31: bv32 := 0x7fff_ffff

  lemma Low31Ones()
    ensures LowOnes(LOW31, 31)
  {
    assert LowOnes(7, 3);
    FourOnes(0x7f, 3);
    FourOnes(0x7ff, 7);
    FourOnes(0x7fff, 11);
    FourOnes(0x7_ffff, 15);
    FourOnes(0x7f_ffff, 19);
    FourOnes(0x7ff_ffff, 23);
    FourOnes(LOW31, 27);
  }

  lemma LowerIs(z: bv32)
    ensures Lower(z) == AndW(z, LOW31)
  {
  }

  /** What the top place holds does not matter below it. */
  lemma LowerNum(x: bv32, y: bv32, n: nat)
    requires Lower(x) == Lower(y) && n <= 31
    ensures Num(x, n) == Num(y, n)
  {
    hide Lower, AndW, Num, LowOnes, LOW31;
    Low31Ones();
    FewerOnes(LOW31, 31, n);
    LowerIs(x);
    LowerIs(y);
    MaskNum(x, LOW31, n);
    MaskNum(y, LOW31, n);
  }

  // ------------------------------------------------------------ shifts

  /** z without its n low places */
  function Halves(z: bv32, n: nat): (h: bv32)
    decreases n
  {
    if n == 0 then z else Halves(Half(z), n - 1)
  }

  lemma {:induction false} HalvesAdd(z: bv32, j: nat, k: nat)
    ensures Halves(z, j + k) == Halves(Halves(z, j), k)
    decreases j
  {
    hide Half;
    if j > 0 { HalvesAdd(Half(z), j - 1, k); }
  }

  /** The shift by k, one place at a time. */
  predicate Shifts(z: bv32, k: nat)
    requires k <= 32
  {
    Halves(z, k) == ShrW(z, k)
  }

  lemma ShiftsAdd(z: bv32, j: nat, k: nat)
    requires j + k <= 32 && ShrW(ShrW(z, j), k) == ShrW(z, j + k)
    requires Shifts(z, j) && Shifts(ShrW(z, j), k)
    ensures Shifts(z, j + k)
  {
    hide Halves, ShrW;
    HalvesAdd(z, j, k);
  }

  lemma Shifts1(z: bv32)
    ensures Shifts(z, 1)
  {
    hide ShrW, Half;
    ShrHalf(z);
  }

  lemma Shifts2(z: bv32) ensures Shifts(z, 2) { hide Shifts; Shifts1(z); Shifts1(ShrW(z, 1)); ShrShr2(z); ShiftsAdd(z, 1, 1); }
  lemma Shifts3(z: bv32) ensures Shifts(z, 3) { hide Shifts; Shifts2(z); Shifts1(ShrW(z, 2)); ShrShr3(z); ShiftsAdd(z, 2, 1); }
  lemma Shifts4(z: bv32) ensures Shifts(z, 4) { hide Shifts; Shifts2(z); Shifts2(ShrW(z, 2)); ShrShr4(z); ShiftsAdd(z, 2, 2); }
  lemma Shifts8(z: bv32) ensures Shifts(z, 8) { hide Shifts; Shifts4(z); Shifts4(ShrW(z, 4)); ShrShr8(z); ShiftsAdd(z, 4, 4); }
  lemma Shifts10(z: bv32) ensures Shifts(z, 10) { hide Shifts; Shifts8(z); Shifts2(ShrW(z, 8)); ShrShr10(z); ShiftsAdd(z, 8, 2); }
  lemma Shifts12(z: bv32) ensures Shifts(z, 12) { hide Shifts; Shifts8(z); Shifts4(ShrW(z, 8)); ShrShr12(z); ShiftsAdd(z, 8, 4); }
  lemma Shifts16(z: bv32) ensures Shifts(z, 16) { hide Shifts; Shifts8(z); Shifts8(ShrW(z, 8)); ShrShr16(z); ShiftsAdd(z, 8, 8); }
  lemma Shifts20(z: bv32) ensures Shifts(z, 20) { hide Shifts; Shifts16(z); Shifts4(ShrW(z, 16)); ShrShr20(z); ShiftsAdd(z, 16, 4); }
  lemma Shifts24(z: bv32) ensures Shifts(z, 24) { hide Shifts; Shifts16(z); Shifts8(ShrW(z, 16)); ShrShr24(z); ShiftsAdd(z, 16, 8); }
  lemma Shifts28(z: bv32) ensures Shifts(z, 28) { hide Shifts; Shifts24(z); Shifts4(ShrW(z, 24)); ShrShr28(z); ShiftsAdd(z, 24, 4); }
  lemma Shifts31(z: bv32) ensures Shifts(z, 31) { hide Shifts; Shifts28(z); Shifts3(ShrW(z, 28)); ShrShr31(z); ShiftsAdd(z, 28, 3); }
  lemma Shifts32(z: bv32) ensures Shifts(z, 32) { hide Shifts; Shifts16(z); Shifts16(ShrW(z, 16)); ShrShr32(z); ShiftsAdd(z, 16, 16); }

  /** Thirty-two places are all there are. */
  lemma NoHalves(z: bv32)
    ensures Halves(z, 32) == 0
  {
    hide Halves, ShrW;
    Shifts32(z);
    ShrAll(z);
  }

  /** The number of a word, cut at place k. */
  lemma {:induction false} NumSplit(z: bv32, k: nat, n: nat)
    ensures Num(z, k + n) == Num(z, k) + Shl(Num(Halves(z, k), n), k)
    decreases k
  {
    hide Half, Low, Num;
    NumZero(z, 0);
    if k > 0 {
      NumSplit(Half(z), k - 1, n);
      NumStep(z, k);
      NumStep(z, k + n);
    }
  }

  lemma {:induction false} NumOfZero(n: nat)
    ensures Num(0, n) == 0
    decreases n
  {
    hide Half, Low;
    HalfOfZero();
    if n > 0 { NumOfZero(n - 1); }
  }

  lemma NatHalf(z: bv32)
    ensures Nat(Half(z)) == Nat(z) / 2
  {
    hide Num, Half, Halves, Low, Shl;
    NumStep(z, 32);
    NumSplit(Half(z), 31, 1);
    HalvesOfHalf(z, 31);
    NoHalves(z);
    NumOfZero(1);
    ShlZero(31);
  }

  lemma HalvesOfHalf(z: bv32, n: nat)
    ensures Halves(z, n + 1) == Halves(Half(z), n)
  {
    hide Half;
  }

  lemma {:induction false} NatHalves(z: bv32, k: nat)
    ensures Nat(Halves(z, k)) == Shr32(Nat(z), k)
    decreases k
  {
    hide Num, Half, Nat;
    if k > 0 {
      NatHalf(z);
      NatHalves(Half(z), k - 1);
    }
  }

  lemma NatShr(z: bv32)
    ensures Nat(ShrW(z, 3)) == Shr32(Nat(z), 3)
    ensures Nat(ShrW(z, 10)) == Shr32(Nat(z), 10)
  {
    hide Nat, Shr32, Halves, ShrW;
    NatHalves(z, 3);
    NatHalves(z, 10);
    Shifts3(z);
    Shifts10(z);
  }

  // ------------------------------------------------------------ rotations

  lemma NumOne(z: bv32, n: nat)
    requires n == 1
    ensures Num(z, n) == Low(z)
  {
    hide Half, Low;
    NumZero(Half(z), 0);
  }

  lemma RotParts(z: bv32)
    ensures Nat(RotW(z, 1)) == Num(Half(z), 31) + Shl(Low(z), 31)
  {
    hide Num, Half, Halves, Low, RotW, ShrW, Lower, Shl;
    var r := RotW(z, 1);
    RotLower(z);
    LowerNum(r, Half(z), 31);
    NumSplit(r, 31, 1);
    NumOne(Halves(r, 31), 1);
    Shifts31(r);
    RotTop(z);
  }

  lemma Pow2At31()
    ensures Pow2(31) == 0x8000_0000
  {
    Pow2At32();
  }

  lemma NatRotOne(z: bv32)
    ensures Nat(RotW(z, 1)) == Nat(z) / 2 + 0x8000_0000 * (Nat(z) % 2)
  {
    hide Num, Half, Low, RotW, Shl, Pow2;
    RotParts(z);
    NumStep(z, 32);
    ShlIsMul(Low(z), 31);
    Pow2At31();
  }

  lemma ShlTop(x: word)
    ensures Shl32(x, 31) == 0x8000_0000 * (x % 2)
  {
    hide Shl, Pow2;
    ShlIsMul(x, 31);
    Pow2At31();
  }

  lemma {:induction false} OrCommutes(n: nat, x: nat, y: nat)
    requires x < Pow2(n) && y < Pow2(n)
    ensures BitOr(n, x, y) == BitOr(n, y, x)
  {
    if n > 0 { OrCommutes(n - 1, x / 2, y / 2); }
  }

  lemma ShrOne(x: nat, k: nat)
    requires k == 1
    ensures Shr(x, k) == x / 2
  {
    assert Shr(x / 2, 0) == x / 2;
  }

  lemma RotrOne(x: word)
    ensures Rotr(x, 1) == x / 2 + 0x8000_0000 * (x % 2)
  {
    hide BitOr, Shl, Shr, Pow2, Shl32;
    ShlTop(x);
    ShlIsMul(x % 2, 31);
    Pow2At31();
    Pow2At32();
    assert Pow2(32 - 31) == 2 by { Pow2Values(); }
    OrDisjoint(32, x % 2, x / 2, 31);
    OrCommutes(32, x / 2, 0x8000_0000 * (x % 2));
    ShrOne(x, 1);
  }

  /** Rotations add up. */
  lemma RotrAdd(x: word, j: nat, k: nat)
    requires j + k <= 32
    ensures Rotr(Rotr(x, j), k) == Rotr(x, j + k)
  {
    hide Bit, Rotr;
    Pow2At32();
    forall i: nat | i < 32 ensures Bit(Rotr(Rotr(x, j), k), i) == Bit(Rotr(x, j + k), i) {
      RotrBit(Rotr(x, j), k, i);
      RotrBit(x, j, (i + k) % 32);
      RotrBit(x, j + k, i);
      assert ((i + k) % 32 + j) % 32 == (i + (j + k)) % 32;
    }
    SameBits(32, Rotr(Rotr(x, j), k), Rotr(x, j + k));
  }

  predicate Turns(z: bv32, k: nat)
    requires k <= 32
  {
    Nat(RotW(z, k)) == Rotr(Nat(z), k)
  }

  lemma TurnsAdd(z: bv32, j: nat, k: nat)
    requires j + k <= 32 && RotW(RotW(z, j), k) == RotW(z, j + k)
    requires Turns(z, j) && Turns(RotW(z, j), k)
    ensures Turns(z, j + k)
  {
    hide RotW, Rotr, Nat;
    RotrAdd(Nat(z), j, k);
  }

  lemma Turns1(z: bv32)
    ensures Turns(z, 1)
  {
    hide RotW, Rotr, Nat;
    NatRotOne(z);
    RotrOne(Nat(z));
  }

  lemma Turns2(z: bv32) ensures Turns(z, 2) { hide Turns, RotW; Turns1(z); Turns1(RotW(z, 1)); RotRot2(z); TurnsAdd(z, 1, 1); }
  lemma Turns4(z: bv32) ensures Turns(z, 4) { hide Turns, RotW; Turns2(z); Turns2(RotW(z, 2)); RotRot4(z); TurnsAdd(z, 2, 2); }
  lemma Turns6(z: bv32) ensures Turns(z, 6) { hide Turns, RotW; Turns4(z); Turns2(RotW(z, 4)); RotRot6(z); TurnsAdd(z, 4, 2); }
  lemma Turns7(z: bv32) ensures Turns(z, 7) { hide Turns, RotW; Turns6(z); Turns1(RotW(z, 6)); RotRot7(z); TurnsAdd(z, 6, 1); }
  lemma Turns11(z: bv32) ensures Turns(z, 11) { hide Turns, RotW; Turns7(z); Turns4(RotW(z, 7)); RotRot11(z); TurnsAdd(z, 7, 4); }
  lemma Turns13(z: bv32) ensures Turns(z, 13) { hide Turns, RotW; Turns11(z); Turns2(RotW(z, 11)); RotRot13(z); TurnsAdd(z, 11, 2); }
  lemma Turns17(z: bv32) ensures Turns(z, 17) { hide Turns, RotW; Turns13(z); Turns4(RotW(z, 13)); RotRot17(z); TurnsAdd(z, 13, 4); }
  lemma Turns18(z: bv32) ensures Turns(z, 18) { hide Turns, RotW; Turns17(z); Turns1(RotW(z, 17)); RotRot18(z); TurnsAdd(z, 17, 1); }
  lemma Turns19(z: bv32) ensures Turns(z, 19) { hide Turns, RotW; Turns18(z); Turns1(RotW(z, 18)); RotRot19(z); TurnsAdd(z, 18, 1); }
  lemma Turns22(z: bv32) ensures Turns(z, 22) { hide Turns, RotW; Turns18(z); Turns4(RotW(z, 18)); RotRot22(z); TurnsAdd(z, 18, 4); }
  lemma Turns25(z: bv32) ensures Turns(z, 25) { hide Turns, RotW; Turns19(z); Turns6(RotW(z, 19)); RotRot25(z); TurnsAdd(z, 19, 6); }

  // ------------------------------------------------------------ addition

  lemma {:induction false} IncNum(x: bv32, n: nat)
    requires n <= 32
    ensures Num(IncW(x), n) == if Num(x, n) == Pow2(n) - 1 then 0 else Num(x, n) + 1
    decreases n
  {
    hide Half, Low, Num, Lower, IncW;
    if n > 0 {
      IncNum(Half(x), n - 1);
      IncLow(x);
      NumStep(x, n);
      NumStep(IncW(x), n);
      if Low(x) == 0 {
        IncEven(x);
      } else {
        IncOdd(x);
        LowerNum(Half(IncW(x)), IncW(Half(x)), n - 1);
      }
    } else {
      NumZero(x, n);
      NumZero(IncW(x), n);
    }
  }

  lemma NatInc(x: bv32)
    ensures Nat(IncW(x)) == Mod32(Nat(x) + 1)
  {
    hide Num, IncW, Pow2;
    Pow2At32();
    IncNum(x, 32);
  }

  lemma {:induction false} ZeroNum(z: bv32, n: nat)
    requires Num(z, n) == 0 && Halves(z, n) == 0
    ensures z == 0
    decreases n
  {
    hide Half, Low;
    if n > 0 {
      ZeroNum(Half(z), n - 1);
      NothingLeft(z);
    }
  }

  lemma NatZeroIff(z: bv32)
    ensures Nat(z) == 0 <==> z == 0
  {
    hide Num, Halves;
    if Nat(z) == 0 {
      NoHalves(z);
      ZeroNum(z, 32);
    } else if z == 0 {
      NumOfZero(32);
    }
  }

  lemma NatDec(y: bv32, v: bv32)
    requires y == IncW(v) && Nat(y) != 0
    ensures Nat(y) == Nat(v) + 1
  {
    hide Nat, IncW;
    NatInc(v);
  }

  lemma SmallMod(x: word)
    ensures Mod32(x) == x
  {
  }

  lemma ModSucc(x: nat, y: nat, s: nat)
    requires s == Mod32(x + y)
    ensures Mod32(s + 1) == Mod32(x + (y + 1))
  {
  }

  /** Machine addition is addition modulo 2^32. */
  lemma {:induction false} NatAdd(x: bv32, y: bv32)
    ensures Nat(AddW(x, y)) == Mod32(Nat(x) + Nat(y))
    decreases Nat(y)
  {
    hide Num, IncW, DecW, AddW, Nat, Mod32;
    NatZeroIff(y);
    if y == 0 {
      AddNone(x, y);
      SmallMod(Nat(x));
    } else {
      var v := DecW(y);
      IncDec(y);
      NatInc(v);
      NatDec(y, v);
      NatAdd(x, v);
      AddInc(x, v);
      NatInc(AddW(x, v));
      ModSucc(Nat(x), Nat(v), Nat(AddW(x, v)));
    }
  }

  // ------------------------------------------------------------ hexadecimal places

  /** The value of one hexadecimal place. */
  function Nibble(b: bv32): (d: nat)
  {
    if b < 8 then
      if b < 4 then (if b < 2 then (if b < 1 then 0 else 1) else if b < 3 then 2 else 3)
      else if b < 6 then (if b < 5 then 4 else 5) else if b < 7 then 6 else 7
    else
      if b < 12 then (if b < 10 then (if b < 9 then 8 else 9) else if b < 11 then 10 else 11)
      else if b < 14 then (if b < 13 then 12 else 13) else if b < 15 then 14 else 15
  }

  /** The place k bits up. */
  function NibbleAt(z: bv32, k: nat): (d: nat)
    requires k <= 32
  {
    Nibble(ShrW(z, k) & 15)
  }

  /** A word written in hexadecimal. */
  function Hex(z: bv32): (x: nat)
  {
    0x1000_0000 * Nibble((z >> 28) & 15) + 0x100_0000 * Nibble((z >> 24) & 15)
    + 0x10_0000 * Nibble((z >> 20) & 15) + 0x1_0000 * Nibble((z >> 16) & 15)
    + 0x1000 * Nibble((z >> 12) & 15) + 0x100 * Nibble((z >> 8) & 15)
    + 0x10 * Nibble((z >> 4) & 15) + Nibble(z & 15)
  }

  lemma NibbleLows(z: bv32)
    ensures Nibble(z & 15) == Low(z) + 2 * Low(Half(z)) + 4 * Low(Half(Half(z))) + 8 * Low(Half(Half(Half(z))))
  {
  }

  lemma NumNibble(z: bv32, n: nat)
    ensures Num(z, n + 4) == 16 * Num(Halves(z, 4), n) + Nibble(z & 15)
  {
    hide Num, Half, Low, Nibble;
    NibbleLows(z);
    NumStep(z, n + 4);
    NumStep(Half(z), n + 3);
    NumStep(Half(Half(z)), n + 2);
    NumStep(Half(Half(Half(z))), n + 1);
  }

  lemma NumNibbleAt(z: bv32, k: nat, n: nat)
    requires k + 4 <= 32 && Shifts(z, k)
    ensures Num(Halves(z, k), n + 4) == 16 * Num(Halves(z, k + 4), n) + NibbleAt(z, k)
  {
    hide Num, Halves, ShrW, Nibble;
    NumNibble(Halves(z, k), n);
    HalvesAdd(z, k, 4);
  }

  lemma LowPlaces(z: bv32, n: nat)
    ensures Num(z, n + 16) == 0x1_0000 * Num(Halves(z, 16), n) + 0x1000 * NibbleAt(z, 12) + 0x100 * NibbleAt(z, 8)
      + 0x10 * NibbleAt(z, 4) + NibbleAt(z, 0)
  {
    hide Num, Halves, Shifts, NibbleAt;
    Shifts0(z);
    Shifts4(z);
    Shifts8(z);
    Shifts12(z);
    NumNibbleAt(z, 0, n + 12);
    NumNibbleAt(z, 4, n + 8);
    NumNibbleAt(z, 8, n + 4);
    NumNibbleAt(z, 12, n);
    HalvesNone(z, 0);
  }

  lemma HighPlaces(z: bv32)
    ensures Num(Halves(z, 16), 16) == 0x1000 * NibbleAt(z, 28) + 0x100 * NibbleAt(z, 24)
      + 0x10 * NibbleAt(z, 20) + NibbleAt(z, 16)
  {
    hide Num, Halves, Shifts, NibbleAt;
    Shifts16(z);
    Shifts20(z);
    Shifts24(z);
    Shifts28(z);
    NumNibbleAt(z, 16, 12);
    NumNibbleAt(z, 20, 8);
    NumNibbleAt(z, 24, 4);
    NumNibbleAt(z, 28, 0);
    NumZero(Halves(z, 32), 0);
  }

  lemma LowPlacesAre(z: bv32)
    ensures NibbleAt(z, 0) == Nibble(z & 15) && NibbleAt(z, 4) == Nibble((z >> 4) & 15)
    ensures NibbleAt(z, 8) == Nibble((z >> 8) & 15) && NibbleAt(z, 12) == Nibble((z >> 12) & 15)
  {
    hide Nibble;
    ShrHalf(z);
  }

  lemma HighPlacesAre(z: bv32)
    ensures NibbleAt(z, 16) == Nibble((z >> 16) & 15) && NibbleAt(z, 20) == Nibble((z >> 20) & 15)
    ensures NibbleAt(z, 24) == Nibble((z >> 24) & 15) && NibbleAt(z, 28) == Nibble((z >> 28) & 15)
  {
    hide Nibble;
  }

  /** The number of a word is read off its eight hexadecimal places. */
  lemma NatIsHex(z: bv32)
    ensures Nat(z) == Hex(z)
  {
    hide Num, Halves, NibbleAt, Nibble;
    LowPlaces(z, 16);
    HighPlaces(z);
    LowPlacesAre(z);
    HighPlacesAre(z);
  }

  lemma Shifts0(z: bv32)
    ensures Shifts(z, 0)
  {
  }

  lemma HalvesNone(z: bv32, n: nat)
    requires n == 0
    ensures Halves(z, n) == z
  {
  }
}
