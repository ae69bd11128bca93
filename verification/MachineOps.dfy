/** The operators of the processor on 32-bit words, named one by one, and how they
    meet.  Everything here is a fact about bit vectors alone. */
module MachineOps {

  function XorW(x: bv32, y: bv32): (z: bv32) { x ^ y }
  function AndW(x: bv32, y: bv32): (z: bv32) { x & y }
  function AddW(x: bv32, y: bv32): (z: bv32) { x + y }
  function ShrW(x: bv32, k: nat): (z: bv32) requires k <= 32 { x >> k }
  function RotW(x: bv32, k: nat): (z: bv32) requires k <= 32 { x.RotateRight(k) }

  function IncW(x: bv32): (z: bv32) { x + 1 }
  function DecW(x: bv32): (z: bv32) { x - 1 }

  /** The lowest place. */
  function Low(z: bv32): (b: nat)
    ensures b < 2
  {
    if z & 1 == 1 then 1 else 0
  }

  /** All places but the lowest, moved down. */
  function Half(z: bv32): (h: bv32)
  {
    z >> 1
  }

  /** All places but the top one. */
  function Lower(z: bv32): (l: bv32)
  {
    z & 0x7fff_ffff
  }

  lemma XorHalf(x: bv32, y: bv32)
    ensures Half(XorW(x, y)) == XorW(Half(x), Half(y))
  {
  }

  lemma XorLow(x: bv32, y: bv32)
    ensures Low(XorW(x, y)) == 1 <==> Low(x) != Low(y)
  {
  }

  lemma AndHalf(x: bv32, y: bv32)
    ensures Half(AndW(x, y)) == AndW(Half(x), Half(y))
  {
  }

  lemma AndLow(x: bv32, y: bv32)
    ensures Low(AndW(x, y)) == 1 <==> Low(x) == 1 && Low(y) == 1
  {
  }

  lemma IncLow(x: bv32)
    ensures Low(IncW(x)) == 1 - Low(x)
  {
  }

  lemma IncEven(x: bv32)
    requires Low(x) == 0
    ensures Half(IncW(x)) == Half(x)
  {
  }

  /** The carry goes on into the half, but not past the top place. */
  lemma IncOdd(x: bv32)
    requires Low(x) == 1
    ensures Lower(Half(IncW(x))) == Lower(IncW(Half(x)))
  {
  }

  lemma IncDec(y: bv32)
    ensures IncW(DecW(y)) == y
  {
  }

  lemma AddNone(x: bv32, y: bv32)
    requires y == 0
    ensures AddW(x, y) == x
  {
  }

  lemma AddInc(x: bv32, v: bv32)
    ensures AddW(x, IncW(v)) == IncW(AddW(x, v))
  {
    hide AddW, IncW;
    AddIs(x, v);
    AddIncIs(x, v);
  }

  lemma AddIs(x: bv32, v: bv32)
    ensures AddW(x, v) == x + v && IncW(v) == v + 1
  {
  }

  lemma AddIncIs(x: bv32, v: bv32)
    ensures AddW(x, v + 1) == IncW(x + v)
  {
  }

  lemma NothingLeft(z: bv32)
    requires Half(z) == 0 && Low(z) == 0
    ensures z == 0
  {
  }

  lemma HalfOfZero()
    ensures Half(0) == 0 && Low(0) == 0
  {
  }

  // ------------------------------------------------------------ shifts

  lemma ShrHalf(z: bv32)
    ensures ShrW(z, 0) == z && ShrW(z, 1) == Half(z)
  {
  }

  lemma ShrShr2(z: bv32) ensures ShrW(ShrW(z, 1), 1) == ShrW(z, 2) {}
  lemma ShrShr3(z: bv32) ensures ShrW(ShrW(z, 2), 1) == ShrW(z, 3) {}
  lemma ShrShr4(z: bv32) ensures ShrW(ShrW(z, 2), 2) == ShrW(z, 4) {}
  lemma ShrShr8(z: bv32) ensures ShrW(ShrW(z, 4), 4) == ShrW(z, 8) {}
  lemma ShrShr10(z: bv32) ensures ShrW(ShrW(z, 8), 2) == ShrW(z, 10) {}
  lemma ShrShr12(z: bv32) ensures ShrW(ShrW(z, 8), 4) == ShrW(z, 12) {}
  lemma ShrShr16(z: bv32) ensures ShrW(ShrW(z, 8), 8) == ShrW(z, 16) {}
  lemma ShrShr20(z: bv32) ensures ShrW(ShrW(z, 16), 4) == ShrW(z, 20) {}
  lemma ShrShr24(z: bv32) ensures ShrW(ShrW(z, 16), 8) == ShrW(z, 24) {}
  lemma ShrShr28(z: bv32) ensures ShrW(ShrW(z, 24), 4) == ShrW(z, 28) {}
  lemma ShrShr31(z: bv32) ensures ShrW(ShrW(z, 28), 3) == ShrW(z, 31) {}
  lemma ShrShr32(z: bv32) ensures ShrW(ShrW(z, 16), 16) == ShrW(z, 32) {}

  lemma ShrAll(z: bv32)
    ensures ShrW(z, 32) == 0
  {
  }

  // ------------------------------------------------------------ rotations

  lemma RotLower(z: bv32)
    ensures Lower(RotW(z, 1)) == Lower(Half(z))
  {
    hide Lower, RotW, Half;
    RotOneIs(z);
    RotLowerIs(z);
  }

  lemma RotOneIs(z: bv32)
    ensures RotW(z, 1) == z.RotateRight(1) && Half(z) == z >> 1
  {
  }

  lemma RotLowerIs(z: bv32)
    ensures Lower(z.RotateRight(1)) == Lower(z >> 1)
  {
  }

  lemma RotTop(z: bv32)
    ensures Low(ShrW(RotW(z, 1), 31)) == Low(z)
  {
  }

  lemma RotRot2(z: bv32) ensures RotW(RotW(z, 1), 1) == RotW(z, 2) {}
  lemma RotRot4(z: bv32) ensures RotW(RotW(z, 2), 2) == RotW(z, 4) {}
  lemma RotRot6(z: bv32) ensures RotW(RotW(z, 4), 2) == RotW(z, 6) {}
  lemma RotRot7(z: bv32) ensures RotW(RotW(z, 6), 1) == RotW(z, 7) {}
  lemma RotRot11(z: bv32) ensures RotW(RotW(z, 7), 4) == RotW(z, 11) {}
  lemma RotRot13(z: bv32) ensures RotW(RotW(z, 11), 2) == RotW(z, 13) {}
  lemma RotRot17(z: bv32) ensures RotW(RotW(z, 13), 4) == RotW(z, 17) {}
  lemma RotRot18(z: bv32) ensures RotW(RotW(z, 17), 1) == RotW(z, 18) {}
  lemma RotRot19(z: bv32) ensures RotW(RotW(z, 18), 1) == RotW(z, 19) {}
  lemma RotRot22(z: bv32) ensures RotW(RotW(z, 18), 4) == RotW(z, 22) {}
  lemma RotRot25(z: bv32) ensures RotW(RotW(z, 19), 6) == RotW(z, 25) {}
}
