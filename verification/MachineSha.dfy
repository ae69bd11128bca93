/** The hash as a processor computes it, on 32-bit words and with the shortest forms of
    Ch and Maj, and that this is SHA-256 for every block and every hash value. */
module MachineSha {
  import opened Bits
  import opened Bytes
  import opened MachineOps
  import opened MachineWords
  import opened Sha256Constants
  import opened Sha256Spec
  import opened WordBits

  function ChW(x: bv32, y: bv32, z: bv32): (r: bv32) { z ^ (x & (y ^ z)) }
  function MajW(x: bv32, y: bv32, z: bv32): (r: bv32) { (x & y) ^ (z & (x ^ y)) }
  function BigSigma0W(x: bv32): (r: bv32) { x.RotateRight(2) ^ x.RotateRight(13) ^ x.RotateRight(22) }
  function BigSigma1W(x: bv32): (r: bv32) { x.RotateRight(6) ^ x.RotateRight(11) ^ x.RotateRight(25) }
  function SmallSigma0W(x: bv32): (r: bv32) { x.RotateRight(7) ^ x.RotateRight(18) ^ (x >> 3) }
  function SmallSigma1W(x: bv32): (r: bv32) { x.RotateRight(17) ^ x.RotateRight(19) ^ (x >> 10) }

  // ------------------------------------------------------------ word operations

  // What an expression on bit vectors is, and what number it stands for, are kept in
  // separate lemmas: the first kind is about bit vectors alone, the second about numbers.

  lemma ChParts(x: bv32, y: bv32, z: bv32)
    ensures ChW(x, y, z) == XorW(z, AndW(x, XorW(y, z)))
  {
  }

  lemma MajParts(x: bv32, y: bv32, z: bv32)
    ensures MajW(x, y, z) == XorW(AndW(x, y), AndW(z, XorW(x, y)))
  {
  }

  function Xor3W(x: bv32, y: bv32, z: bv32): (r: bv32) { x ^ y ^ z }

  lemma Xor3Is(x: bv32, y: bv32, z: bv32)
    ensures Xor3W(x, y, z) == XorW(XorW(x, y), z)
  {
    hide Xor3W, XorW;
    Xor3Last(x, y, z);
    XorIs(x, y);
  }

  lemma Xor3Last(x: bv32, y: bv32, z: bv32) ensures Xor3W(x, y, z) == XorW(x ^ y, z) {}
  lemma XorIs(x: bv32, y: bv32) ensures XorW(x, y) == x ^ y {}

  lemma BigSigma0Is(x: bv32) ensures BigSigma0W(x) == Xor3W(x.RotateRight(2), x.RotateRight(13), x.RotateRight(22)) {}
  lemma BigSigma1Is(x: bv32) ensures BigSigma1W(x) == Xor3W(x.RotateRight(6), x.RotateRight(11), x.RotateRight(25)) {}
  lemma SmallSigma0Is(x: bv32) ensures SmallSigma0W(x) == Xor3W(x.RotateRight(7), x.RotateRight(18), x >> 3) {}
  lemma SmallSigma1Is(x: bv32) ensures SmallSigma1W(x) == Xor3W(x.RotateRight(17), x.RotateRight(19), x >> 10) {}

  lemma BigSigma0Turns(x: bv32)
    ensures RotW(x, 2) == x.RotateRight(2) && RotW(x, 13) == x.RotateRight(13) && RotW(x, 22) == x.RotateRight(22)
  {
  }

  lemma BigSigma1Turns(x: bv32)
    ensures RotW(x, 6) == x.RotateRight(6) && RotW(x, 11) == x.RotateRight(11) && RotW(x, 25) == x.RotateRight(25)
  {
  }

  lemma SmallSigma0Turns(x: bv32)
    ensures RotW(x, 7) == x.RotateRight(7) && RotW(x, 18) == x.RotateRight(18) && ShrW(x, 3) == x >> 3
  {
  }

  lemma SmallSigma1Turns(x: bv32)
    ensures RotW(x, 17) == x.RotateRight(17) && RotW(x, 19) == x.RotateRight(19) && ShrW(x, 10) == x >> 10
  {
  }

  /** The two forms of a choice agree in every place. */
  lemma NatCh(x: bv32, y: bv32, z: bv32)
    ensures Nat(ChW(x, y, z)) == Ch(Nat(x), Nat(y), Nat(z))
  {
    hide ChW, XorW, AndW, Nat, Ch, Bit;
    ChParts(x, y, z);
    NatXor(y, z);
    NatAnd(x, XorW(y, z));
    NatXor(z, AndW(x, XorW(y, z)));
    ShortCh(Nat(x), Nat(y), Nat(z));
  }

  lemma ShortCh(x: word, y: word, z: word)
    ensures Xor32(z, And32(x, Xor32(y, z))) == Ch(x, y, z)
  {
    hide Ch, Bit, Xor32, And32;
    Pow2At32();
    var s := Xor32(z, And32(x, Xor32(y, z)));
    forall i: nat | i < 32 ensures Bit(s, i) == Bit(Ch(x, y, z), i) {
      WordBit(y, z, i);
      WordBit(x, Xor32(y, z), i);
      WordBit(z, And32(x, Xor32(y, z)), i);
      ChBit(x, y, z, i);
    }
    SameBits(32, s, Ch(x, y, z));
  }

  lemma NatMaj(x: bv32, y: bv32, z: bv32)
    ensures Nat(MajW(x, y, z)) == Maj(Nat(x), Nat(y), Nat(z))
  {
    hide MajW, XorW, AndW, Nat, Maj, Bit;
    MajParts(x, y, z);
    NatAnd(x, y);
    NatXor(x, y);
    NatAnd(z, XorW(x, y));
    NatXor(AndW(x, y), AndW(z, XorW(x, y)));
    ShortMaj(Nat(x), Nat(y), Nat(z));
  }

  lemma ShortMaj(x: word, y: word, z: word)
    ensures Xor32(And32(x, y), And32(z, Xor32(x, y))) == Maj(x, y, z)
  {
    hide Maj, Bit, Xor32, And32;
    Pow2At32();
    var s := Xor32(And32(x, y), And32(z, Xor32(x, y)));
    forall i: nat | i < 32 ensures Bit(s, i) == Bit(Maj(x, y, z), i) {
      WordBit(x, y, i);
      WordBit(z, Xor32(x, y), i);
      WordBit(And32(x, y), And32(z, Xor32(x, y)), i);
      MajBit(x, y, z, i);
    }
    SameBits(32, s, Maj(x, y, z));
  }

  lemma NatXor3(x: bv32, y: bv32, z: bv32)
    ensures Nat(Xor3W(x, y, z)) == Xor32(Xor32(Nat(x), Nat(y)), Nat(z))
  {
    hide Xor3W, XorW, Nat;
    Xor3Is(x, y, z);
    NatXor(x, y);
    NatXor(XorW(x, y), z);
  }

  lemma NatBigSigma0(x: bv32)
    ensures Nat(BigSigma0W(x)) == BigSigma0(Nat(x))
  {
    hide BigSigma0W, Xor3W, RotW, ShrW, Nat, Rotr, Shr32, Xor32;
    BigSigma0Is(x);
    BigSigma0Turns(x);
    NatXor3(RotW(x, 2), RotW(x, 13), RotW(x, 22));
    Turns2(x);
    Turns13(x);
    Turns22(x);
  }

  lemma NatBigSigma1(x: bv32)
    ensures Nat(BigSigma1W(x)) == BigSigma1(Nat(x))
  {
    hide BigSigma1W, Xor3W, RotW, ShrW, Nat, Rotr, Shr32, Xor32;
    BigSigma1Is(x);
    BigSigma1Turns(x);
    NatXor3(RotW(x, 6), RotW(x, 11), RotW(x, 25));
    Turns6(x);
    Turns11(x);
    Turns25(x);
  }

  lemma NatSmallSigma0(x: bv32)
    ensures Nat(SmallSigma0W(x)) == SmallSigma0(Nat(x))
  {
    hide SmallSigma0W, Xor3W, RotW, ShrW, Nat, Rotr, Shr32, Xor32;
    SmallSigma0Is(x);
    SmallSigma0Turns(x);
    NatXor3(RotW(x, 7), RotW(x, 18), ShrW(x, 3));
    Turns7(x);
    Turns18(x);
    NatShr(x);
  }

  lemma NatSmallSigma1(x: bv32)
    ensures Nat(SmallSigma1W(x)) == SmallSigma1(Nat(x))
  {
    hide SmallSigma1W, Xor3W, RotW, ShrW, Nat, Rotr, Shr32, Xor32;
    SmallSigma1Is(x);
    SmallSigma1Turns(x);
    NatXor3(RotW(x, 17), RotW(x, 19), ShrW(x, 10));
    Turns17(x);
    Turns19(x);
    NatShr(x);
  }

  // ------------------------------------------------------------ sums

  lemma ModFlat(x: nat, y: nat)
    ensures Mod32(Mod32(x) + y) == Mod32(x + y)
  {
  }

  function Sum3W(x: bv32, y: bv32, z: bv32): (s: bv32) { x + y + z }
  function Sum4W(x: bv32, y: bv32, z: bv32, w: bv32): (s: bv32) { x + y + z + w }
  function Sum5W(x: bv32, y: bv32, z: bv32, w: bv32, v: bv32): (s: bv32) { x + y + z + w + v }

  lemma Sum3Last(x: bv32, y: bv32, z: bv32) ensures Sum3W(x, y, z) == AddW(x + y, z) {}
  lemma Sum4Last(x: bv32, y: bv32, z: bv32, w: bv32) ensures Sum4W(x, y, z, w) == AddW(x + y + z, w) {}
  lemma Sum5Last(x: bv32, y: bv32, z: bv32, w: bv32, v: bv32) ensures Sum5W(x, y, z, w, v) == AddW(x + y + z + w, v) {}
  lemma Sum3Is(x: bv32, y: bv32, z: bv32) ensures Sum3W(x, y, z) == x + y + z {}
  lemma Sum4Is(x: bv32, y: bv32, z: bv32, w: bv32) ensures Sum4W(x, y, z, w) == x + y + z + w {}

  lemma Sum3Step(x: bv32, y: bv32, z: bv32)
    ensures Sum3W(x, y, z) == AddW(AddW(x, y), z)
  {
    hide Sum3W, Sum4W, Sum5W, AddW;
    Sum3Last(x, y, z);
    AddIs(x, y);
  }

  lemma NatSum3(x: bv32, y: bv32, z: bv32)
    ensures Nat(Sum3W(x, y, z)) == Mod32(Nat(x) + Nat(y) + Nat(z))
  {
    hide Nat, Mod32, AddW, Sum3W, Sum4W, Sum5W;
    Sum3Step(x, y, z);
    NatAdd(x, y);
    NatAdd(AddW(x, y), z);
    ModFlat(Nat(x) + Nat(y), Nat(z));
  }

  lemma Sum4Step(x: bv32, y: bv32, z: bv32, w: bv32)
    ensures Sum4W(x, y, z, w) == AddW(Sum3W(x, y, z), w)
  {
    hide Sum3W, Sum4W, Sum5W, AddW;
    Sum4Last(x, y, z, w);
    Sum3Is(x, y, z);
  }

  lemma NatSum4(x: bv32, y: bv32, z: bv32, w: bv32)
    ensures Nat(Sum4W(x, y, z, w)) == Mod32(Nat(x) + Nat(y) + Nat(z) + Nat(w))
  {
    hide Nat, Mod32, AddW, Sum3W, Sum4W, Sum5W;
    Sum4Step(x, y, z, w);
    NatSum3(x, y, z);
    NatAdd(Sum3W(x, y, z), w);
    ModFlat(Nat(x) + Nat(y) + Nat(z), Nat(w));
  }

  lemma Sum5Step(x: bv32, y: bv32, z: bv32, w: bv32, v: bv32)
    ensures Sum5W(x, y, z, w, v) == AddW(Sum4W(x, y, z, w), v)
  {
    hide Sum3W, Sum4W, Sum5W, AddW;
    Sum5Last(x, y, z, w, v);
    Sum4Is(x, y, z, w);
  }

  lemma NatSum5(x: bv32, y: bv32, z: bv32, w: bv32, v: bv32)
    ensures Nat(Sum5W(x, y, z, w, v)) == Mod32(Nat(x) + Nat(y) + Nat(z) + Nat(w) + Nat(v))
  {
    hide Nat, Mod32, AddW, Sum3W, Sum4W, Sum5W;
    Sum5Step(x, y, z, w, v);
    NatSum4(x, y, z, w);
    NatAdd(Sum4W(x, y, z, w), v);
    ModFlat(Nat(x) + Nat(y) + Nat(z) + Nat(w), Nat(v));
  }

  // ------------------------------------------------------------ rounds

  /** Eight words, one for each of eight rounds. */
  datatype Eight = Eight(x0: bv32, x1: bv32, x2: bv32, x3: bv32, x4: bv32, x5: bv32, x6: bv32, x7: bv32)

  /** Word j of the eight. */
  function At(r: Eight, j: nat): (z: bv32)
  {
    if j < 4 then (if j < 2 then (if j < 1 then r.x0 else r.x1) else if j < 3 then r.x2 else r.x3)
    else if j < 6 then (if j < 5 then r.x4 else r.x5) else if j < 7 then r.x6 else r.x7
  }

  /** The round constants as machine words. */
  function KRowW(i: nat): (r: Eight)
  {
    match i
    case 0 => Eight(0x428a2f98, 0x71374491, 0xb5c0fbcf, 0xe9b5dba5, 0x3956c25b, 0x59f111f1, 0x923f82a4, 0xab1c5ed5)
    case 1 => Eight(0xd807aa98, 0x12835b01, 0x243185be, 0x550c7dc3, 0x72be5d74, 0x80deb1fe, 0x9bdc06a7, 0xc19bf174)
    case 2 => Eight(0xe49b69c1, 0xefbe4786, 0x0fc19dc6, 0x240ca1cc, 0x2de92c6f, 0x4a7484aa, 0x5cb0a9dc, 0x76f988da)
    case 3 => Eight(0x983e5152, 0xa831c66d, 0xb00327c8, 0xbf597fc7, 0xc6e00bf3, 0xd5a79147, 0x06ca6351, 0x14292967)
    case 4 => Eight(0x27b70a85, 0x2e1b2138, 0x4d2c6dfc, 0x53380d13, 0x650a7354, 0x766a0abb, 0x81c2c92e, 0x92722c85)
    case 5 => Eight(0xa2bfe8a1, 0xa81a664b, 0xc24b8b70, 0xc76c51a3, 0xd192e819, 0xd6990624, 0xf40e3585, 0x106aa070)
    case 6 => Eight(0x19a4c116, 0x1e376c08, 0x2748774c, 0x34b0bcb5, 0x391c0cb3, 0x4ed8aa4a, 0x5b9cca4f, 0x682e6ff3)
    case _ => Eight(0x748f82ee, 0x78a5636f, 0x84c87814, 0x8cc70208, 0x90befffa, 0xa4506ceb, 0xbef9a3f7, 0xc67178f2)
  }

  function KW(t: nat): (k: bv32)
  {
    At(KRowW(t / 8), t % 8)
  }

  /** The eight constants of row r, read as numbers. */
  predicate KRowHolds(r: nat)
    requires r < 8
  {
    var k, n := KRowW(r), KRow(r);
    && Hex(k.x0) == n[0] && Hex(k.x1) == n[1] && Hex(k.x2) == n[2] && Hex(k.x3) == n[3]
    && Hex(k.x4) == n[4] && Hex(k.x5) == n[5] && Hex(k.x6) == n[6] && Hex(k.x7) == n[7]
  }

  lemma K0() ensures KRowHolds(0) {}
  lemma K1() ensures KRowHolds(1) {}
  lemma K2() ensures KRowHolds(2) {}
  lemma K3() ensures KRowHolds(3) {}
  lemma K4() ensures KRowHolds(4) {}
  lemma K5() ensures KRowHolds(5) {}
  lemma K6() ensures KRowHolds(6) {}
  lemma K7() ensures KRowHolds(7) {}

  lemma KRowsHold(r: nat)
    requires r < 8
    ensures KRowHolds(r)
  {
    hide KRowHolds;
    match r
    case 0 => K0();
    case 1 => K1();
    case 2 => K2();
    case 3 => K3();
    case 4 => K4();
    case 5 => K5();
    case 6 => K6();
    case _ => K7();
  }

  lemma NatK(t: nat)
    requires t < 64
    ensures Nat(KW(t)) == K(t)
  {
    hide Hex, Nat, KRowW, KRow;
    KRowsHold(t / 8);
    NatIsHex(KW(t));
  }

  datatype RegsW = RegsW(a: bv32, b: bv32, c: bv32, d: bv32, e: bv32, f: bv32, g: bv32, h: bv32)

  function NatRegs(r: RegsW): (s: Regs)
  {
    Regs(Nat(r.a), Nat(r.b), Nat(r.c), Nat(r.d), Nat(r.e), Nat(r.f), Nat(r.g), Nat(r.h))
  }

  /** The first temporary value of a round. */
  function Temp1W(e: bv32, f: bv32, g: bv32, h: bv32, k: bv32, w: bv32): (t1: bv32)
  {
    h + (e.RotateRight(6) ^ e.RotateRight(11) ^ e.RotateRight(25)) + (g ^ (e & (f ^ g))) + k + w
  }

  /** The second temporary value of a round. */
  function Temp2W(a: bv32, b: bv32, c: bv32): (t2: bv32)
  {
    (a.RotateRight(2) ^ a.RotateRight(13) ^ a.RotateRight(22)) + ((a & b) ^ (c & (a ^ b)))
  }

  /** The new value of register e, as one expression. */
  function NewEW(d: bv32, e: bv32, f: bv32, g: bv32, h: bv32, k: bv32, w: bv32): (e': bv32)
  {
    d + (h + (e.RotateRight(6) ^ e.RotateRight(11) ^ e.RotateRight(25)) + (g ^ (e & (f ^ g))) + k + w)
  }

  /** The new value of register a, as one expression. */
  function NewAW(a: bv32, b: bv32, c: bv32, e: bv32, f: bv32, g: bv32, h: bv32, k: bv32, w: bv32): (a': bv32)
  {
    (h + (e.RotateRight(6) ^ e.RotateRight(11) ^ e.RotateRight(25)) + (g ^ (e & (f ^ g))) + k + w)
    + ((a.RotateRight(2) ^ a.RotateRight(13) ^ a.RotateRight(22)) + ((a & b) ^ (c & (a ^ b))))
  }

  function RoundW(r: RegsW, k: bv32, w: bv32): (r': RegsW)
  {
    RegsW(NewAW(r.a, r.b, r.c, r.e, r.f, r.g, r.h, k, w), r.a, r.b, r.c,
          NewEW(r.d, r.e, r.f, r.g, r.h, k, w), r.e, r.f, r.g)
  }

  /** A scheduled word, from the words 2, 7, 15 and 16 before it. */
  function NextWordW(w2: bv32, w7: bv32, w15: bv32, w16: bv32): (w: bv32)
  {
    (w2.RotateRight(17) ^ w2.RotateRight(19) ^ (w2 >> 10)) + w7
    + (w15.RotateRight(7) ^ w15.RotateRight(18) ^ (w15 >> 3)) + w16
  }

  function ScheduleW(ws: seq<bv32>, t: nat): (w: bv32)
    requires |ws| == 16
    decreases t + |ws|
  {
    if t < 16 then ws[t]
    else NextWordW(ScheduleW(ws, t - 2), ScheduleW(ws, t - 7), ScheduleW(ws, t - 15), ScheduleW(ws, t - 16))
  }

  function RoundsW(r: RegsW, ws: seq<bv32>, t: nat): (r': RegsW)
    requires |ws| == 16
    decreases t + |ws|
  {
    if t == 0 then r else RoundW(RoundsW(r, ws, t - 1), KW(t - 1), ScheduleW(ws, t - 1))
  }

  function AddRegsW(x: RegsW, y: RegsW): (r: RegsW)
  {
    RegsW(AddW(x.a, y.a), AddW(x.b, y.b), AddW(x.c, y.c), AddW(x.d, y.d),
          AddW(x.e, y.e), AddW(x.f, y.f), AddW(x.g, y.g), AddW(x.h, y.h))
  }

  function CompressW(r: RegsW, ws: seq<bv32>): (r': RegsW)
    requires |ws| == 16
  {
    AddRegsW(r, RoundsW(r, ws, 64))
  }

  /** ws holds the sixteen big-endian words of m. */
  ghost predicate WordsOf(ws: seq<bv32>, m: block)
  {
    |ws| == 16 && forall t :: 0 <= t < 16 ==> Nat(ws[t]) == WordAt(m, t)
  }

  // ------------------------------------------------------------ a round on numbers

  lemma BigSigma0Def(x: bv32) ensures BigSigma0W(x) == x.RotateRight(2) ^ x.RotateRight(13) ^ x.RotateRight(22) {}
  lemma BigSigma1Def(x: bv32) ensures BigSigma1W(x) == x.RotateRight(6) ^ x.RotateRight(11) ^ x.RotateRight(25) {}
  lemma SmallSigma0Def(x: bv32) ensures SmallSigma0W(x) == x.RotateRight(7) ^ x.RotateRight(18) ^ (x >> 3) {}
  lemma SmallSigma1Def(x: bv32) ensures SmallSigma1W(x) == x.RotateRight(17) ^ x.RotateRight(19) ^ (x >> 10) {}
  lemma ChDef(x: bv32, y: bv32, z: bv32) ensures ChW(x, y, z) == z ^ (x & (y ^ z)) {}
  lemma MajDef(x: bv32, y: bv32, z: bv32) ensures MajW(x, y, z) == (x & y) ^ (z & (x ^ y)) {}

  lemma Temp1Sum(e: bv32, f: bv32, g: bv32, h: bv32, k: bv32, w: bv32)
    ensures Temp1W(e, f, g, h, k, w)
      == Sum5W(h, e.RotateRight(6) ^ e.RotateRight(11) ^ e.RotateRight(25), g ^ (e & (f ^ g)), k, w)
  {
  }

  lemma Temp2Sum(a: bv32, b: bv32, c: bv32)
    ensures Temp2W(a, b, c) == AddW(a.RotateRight(2) ^ a.RotateRight(13) ^ a.RotateRight(22), (a & b) ^ (c & (a ^ b)))
  {
  }

  lemma NatTemp1(e: bv32, f: bv32, g: bv32, h: bv32, k: bv32, w: bv32)
    ensures Nat(Temp1W(e, f, g, h, k, w)) == Mod32(Nat(h) + BigSigma1(Nat(e)) + Ch(Nat(e), Nat(f), Nat(g)) + Nat(k) + Nat(w))
  {
    hide Nat, Mod32, Sum5W, Temp1W, BigSigma1W, BigSigma1, ChW, Ch;
    Temp1Sum(e, f, g, h, k, w);
    BigSigma1Def(e);
    ChDef(e, f, g);
    NatSum5(h, BigSigma1W(e), ChW(e, f, g), k, w);
    NatBigSigma1(e);
    NatCh(e, f, g);
  }

  lemma NatTemp2(a: bv32, b: bv32, c: bv32)
    ensures Nat(Temp2W(a, b, c)) == Mod32(BigSigma0(Nat(a)) + Maj(Nat(a), Nat(b), Nat(c)))
  {
    hide Nat, Mod32, AddW, Temp2W, BigSigma0W, BigSigma0, MajW, Maj;
    Temp2Sum(a, b, c);
    BigSigma0Def(a);
    MajDef(a, b, c);
    NatAdd(BigSigma0W(a), MajW(a, b, c));
    NatBigSigma0(a);
    NatMaj(a, b, c);
  }

  lemma Temp1Is(e: bv32, f: bv32, g: bv32, h: bv32, k: bv32, w: bv32)
    ensures Temp1W(e, f, g, h, k, w) == h + (e.RotateRight(6) ^ e.RotateRight(11) ^ e.RotateRight(25)) + (g ^ (e & (f ^ g))) + k + w
  {
  }

  lemma Temp2Is(a: bv32, b: bv32, c: bv32)
    ensures Temp2W(a, b, c) == (a.RotateRight(2) ^ a.RotateRight(13) ^ a.RotateRight(22)) + ((a & b) ^ (c & (a ^ b)))
  {
  }

  lemma NewEIs(d: bv32, e: bv32, f: bv32, g: bv32, h: bv32, k: bv32, w: bv32)
    ensures NewEW(d, e, f, g, h, k, w)
      == AddW(d, h + (e.RotateRight(6) ^ e.RotateRight(11) ^ e.RotateRight(25)) + (g ^ (e & (f ^ g))) + k + w)
  {
  }

  lemma NewAIs(a: bv32, b: bv32, c: bv32, e: bv32, f: bv32, g: bv32, h: bv32, k: bv32, w: bv32)
    ensures NewAW(a, b, c, e, f, g, h, k, w)
      == AddW(h + (e.RotateRight(6) ^ e.RotateRight(11) ^ e.RotateRight(25)) + (g ^ (e & (f ^ g))) + k + w,
              (a.RotateRight(2) ^ a.RotateRight(13) ^ a.RotateRight(22)) + ((a & b) ^ (c & (a ^ b))))
  {
  }

  lemma NatNewE(d: bv32, e: bv32, f: bv32, g: bv32, h: bv32, k: bv32, w: bv32)
    ensures Nat(NewEW(d, e, f, g, h, k, w)) == Mod32(Nat(d) + Nat(Temp1W(e, f, g, h, k, w)))
  {
    hide Nat, Mod32, AddW, NewEW, Temp1W;
    NewEIs(d, e, f, g, h, k, w);
    Temp1Is(e, f, g, h, k, w);
    NatAdd(d, Temp1W(e, f, g, h, k, w));
  }

  lemma NatNewA(a: bv32, b: bv32, c: bv32, e: bv32, f: bv32, g: bv32, h: bv32, k: bv32, w: bv32)
    ensures Nat(NewAW(a, b, c, e, f, g, h, k, w)) == Mod32(Nat(Temp1W(e, f, g, h, k, w)) + Nat(Temp2W(a, b, c)))
  {
    hide Nat, Mod32, AddW, NewAW, Temp1W, Temp2W;
    NewAIs(a, b, c, e, f, g, h, k, w);
    Temp1Is(e, f, g, h, k, w);
    Temp2Is(a, b, c);
    NatAdd(Temp1W(e, f, g, h, k, w), Temp2W(a, b, c));
  }

  lemma NatRound(r: RegsW, k: bv32, w: bv32)
    ensures NatRegs(RoundW(r, k, w)) == Round(NatRegs(r), Nat(k), Nat(w))
  {
    hide Nat, NewAW, NewEW, Temp1W, Temp2W, Mod32, BigSigma0, BigSigma1, Ch, Maj;
    NatTemp1(r.e, r.f, r.g, r.h, k, w);
    NatTemp2(r.a, r.b, r.c);
    NatNewE(r.d, r.e, r.f, r.g, r.h, k, w);
    NatNewA(r.a, r.b, r.c, r.e, r.f, r.g, r.h, k, w);
  }

  lemma NextWordSum(w2: bv32, w7: bv32, w15: bv32, w16: bv32)
    ensures NextWordW(w2, w7, w15, w16)
      == Sum4W(w2.RotateRight(17) ^ w2.RotateRight(19) ^ (w2 >> 10), w7,
               w15.RotateRight(7) ^ w15.RotateRight(18) ^ (w15 >> 3), w16)
  {
  }

  lemma NatNextWord(w2: bv32, w7: bv32, w15: bv32, w16: bv32)
    ensures Nat(NextWordW(w2, w7, w15, w16)) == Mod32(SmallSigma1(Nat(w2)) + Nat(w7) + SmallSigma0(Nat(w15)) + Nat(w16))
  {
    hide Nat, Mod32, Sum4W, NextWordW, SmallSigma0W, SmallSigma1W, SmallSigma0, SmallSigma1;
    NextWordSum(w2, w7, w15, w16);
    SmallSigma1Def(w2);
    SmallSigma0Def(w15);
    NatSum4(SmallSigma1W(w2), w7, SmallSigma0W(w15), w16);
    NatSmallSigma1(w2);
    NatSmallSigma0(w15);
  }

  lemma {:induction false} NatSchedule(ws: seq<bv32>, m: block, t: nat)
    requires WordsOf(ws, m) && t < 64
    ensures Nat(ScheduleW(ws, t)) == Schedule(m, t)
  {
    hide Nat, NextWordW, Mod32, SmallSigma0, SmallSigma1, WordAt;
    if t >= 16 {
      NatSchedule(ws, m, t - 2);
      NatSchedule(ws, m, t - 7);
      NatSchedule(ws, m, t - 15);
      NatSchedule(ws, m, t - 16);
      NatNextWord(ScheduleW(ws, t - 2), ScheduleW(ws, t - 7), ScheduleW(ws, t - 15), ScheduleW(ws, t - 16));
    }
  }

  lemma {:induction false} NatRounds(r: RegsW, ws: seq<bv32>, m: block, t: nat)
    requires WordsOf(ws, m) && t <= 64
    ensures NatRegs(RoundsW(r, ws, t)) == Rounds(NatRegs(r), m, t)
  {
    hide NatRegs, RoundW, Round, KW, K, Schedule, ScheduleW, Nat, WordAt;
    if t > 0 {
      NatRounds(r, ws, m, t - 1);
      NatK(t - 1);
      NatSchedule(ws, m, t - 1);
      NatRound(RoundsW(r, ws, t - 1), KW(t - 1), ScheduleW(ws, t - 1));
    }
  }

  /** What the processor computes from any hash value and any block is the next hash
      value of SHA-256. */
  lemma MachineCompresses(r: RegsW, ws: seq<bv32>, m: block)
    requires WordsOf(ws, m)
    ensures NatRegs(CompressW(r, ws)) == Compress(NatRegs(r), m)
  {
    hide Nat, RoundsW, Rounds, AddW, Mod32, WordAt;
    NatRounds(r, ws, m, 64);
    var s := RoundsW(r, ws, 64);
    NatAdd(r.a, s.a);
    NatAdd(r.b, s.b);
    NatAdd(r.c, s.c);
    NatAdd(r.d, s.d);
    NatAdd(r.e, s.e);
    NatAdd(r.f, s.f);
    NatAdd(r.g, s.g);
    NatAdd(r.h, s.h);
  }
}
