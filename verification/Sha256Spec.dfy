/** SHA-256 as FIPS 180-2 defines it: operations on words (section 4.1.2), padding
    (5.1.1), and the hash computation (6.2). */
module Sha256Spec {
  import opened Bits
  import opened Bytes
  import opened Sha256Constants

  function And32(x: word, y: word): (r: word) { Pow2At32(); BitAnd(32, x, y) }
  function Or32(x: word, y: word): (r: word) { Pow2At32(); BitOr(32, x, y) }
  function Xor32(x: word, y: word): (r: word) { Pow2At32(); BitXor(32, x, y) }
  function Not32(x: word): (r: word) { 0xffff_ffff - x }
  function Shl32(x: word, n: nat): (r: word) { Shl(x, n) % 0x1_0000_0000 }
  function Shr32(x: word, n: nat): (r: word) { Shr(x, n) }
  function Rotr(x: word, n: nat): (r: word) requires n <= 32 { Or32(Shr32(x, n), Shl32(x, 32 - n)) }

  lemma Pow2At32()
    ensures Pow2(32) == 0x1_0000_0000
  {
    Pow2Values();
    Pow2Add(8, 8);
    Pow2Add(16, 16);
  }

  function Ch(x: word, y: word, z: word): (r: word) { Xor32(And32(x, y), And32(Not32(x), z)) }
  function Maj(x: word, y: word, z: word): (r: word) { Xor32(Xor32(And32(x, y), And32(x, z)), And32(y, z)) }
  function BigSigma0(x: word): (r: word) { Xor32(Xor32(Rotr(x, 2), Rotr(x, 13)), Rotr(x, 22)) }
  function BigSigma1(x: word): (r: word) { Xor32(Xor32(Rotr(x, 6), Rotr(x, 11)), Rotr(x, 25)) }
  function SmallSigma0(x: word): (r: word) { Xor32(Xor32(Rotr(x, 7), Rotr(x, 18)), Shr32(x, 3)) }
  function SmallSigma1(x: word): (r: word) { Xor32(Xor32(Rotr(x, 17), Rotr(x, 19)), Shr32(x, 10)) }

  /** Addition modulo 2^32 */
  function Mod32(n: nat): (r: word) { n % 0x1_0000_0000 }

  type block = s: seq<byte> | |s| == 64 witness Zeros(64)

  /** Word t of a block, big-endian (section 5.2.1). */
  function WordAt(m: block, t: nat): (r: word)
    requires t < 16
  {
    FourBytes(m[4 * t..4 * t + 4]);
    Val(m[4 * t..4 * t + 4])
  }

  lemma FourBytes(s: seq<byte>)
    requires |s| == 4
    ensures Val(s) < 0x1_0000_0000
  {
    ValBound(s);
    Pow2At32();
  }

  /** The message schedule (section 6.2.2, step 1). */
  function Schedule(m: block, t: nat): (r: word)
    requires t < 64
    decreases t + |m|
  {
    if t < 16 then WordAt(m, t)
    else Mod32(SmallSigma1(Schedule(m, t - 2)) + Schedule(m, t - 7) + SmallSigma0(Schedule(m, t - 15)) + Schedule(m, t - 16))
  }

  datatype Regs = Regs(a: word, b: word, c: word, d: word, e: word, f: word, g: word, h: word)

  /** One round of step 3. */
  function Round(r: Regs, k: word, w: word): (r': Regs)
  {
    var t1 := Mod32(r.h + BigSigma1(r.e) + Ch(r.e, r.f, r.g) + k + w);
    var t2 := Mod32(BigSigma0(r.a) + Maj(r.a, r.b, r.c));
    Regs(Mod32(t1 + t2), r.a, r.b, r.c, Mod32(r.d + t1), r.e, r.f, r.g)
  }

  /** The working variables after t rounds. */
  function Rounds(r: Regs, m: block, t: nat): (r': Regs)
    requires t <= 64
    decreases t + |m|
  {
    if t == 0 then r else Round(Rounds(r, m, t - 1), K(t - 1), Schedule(m, t - 1))
  }

  function AddRegs(x: Regs, y: Regs): (r: Regs)
  {
    Regs(Mod32(x.a + y.a), Mod32(x.b + y.b), Mod32(x.c + y.c), Mod32(x.d + y.d),
         Mod32(x.e + y.e), Mod32(x.f + y.f), Mod32(x.g + y.g), Mod32(x.h + y.h))
  }

  /** The intermediate hash value after one more block (step 4). */
  function Compress(r: Regs, m: block): (r': Regs)
  {
    AddRegs(r, Rounds(r, m, 64))
  }

  function Initial(): (r: Regs)
  {
    Regs(H0[0], H0[1], H0[2], H0[3], H0[4], H0[5], H0[6], H0[7])
  }

  /** The hash value after all blocks of s. */
  function HashBlocks(s: seq<byte>): (r: Regs)
    requires |s| % 64 == 0
  {
    if s == [] then Initial() else Compress(HashBlocks(s[..|s| - 64]), s[|s| - 64..])
  }

  /** n message bytes, the 0x80 byte and k zeros leave room for the length field. */
  predicate PadsToBlock(n: nat, k: nat)
  {
    (n + 1 + k) % 64 == 56
  }

  /** The number of zero bytes of the padding: the least that works. */
  function PadZeros(n: nat): (k: nat)
    ensures PadsToBlock(n, k)
    ensures forall j: nat :: PadsToBlock(n, j) ==> k <= j
  {
    (119 - n % 64) % 64
  }

  lemma PadLength(n: nat)
    ensures (n + 1 + PadZeros(n) + 8) % 64 == 0
  {
    hide PadZeros;
    LengthFits(n + 1 + PadZeros(n));
  }

  lemma LengthFits(n: nat)
    requires n % 64 == 56
    ensures (n + 8) % 64 == 0
  {
  }

  const LENGTH_SIZE: nat := 0x1_00000000_00000000

  /** Section 5.1.1, for the messages it is defined on, those below 2^64 bits; the
      length field of a longer one is its bit length modulo 2^64. */
  function Padded(m: seq<byte>): (s: seq<byte>)
    ensures |s| % 64 == 0 && |s| >= 64
  {
    PadLength(|m|);
    m + [0x80] + Zeros(PadZeros(|m|)) + ToBytes((8 * |m|) % LENGTH_SIZE, 8)
  }

  function Digest(r: Regs): (s: seq<byte>)
    ensures |s| == 32
  {
    ToBytes(r.a, 4) + ToBytes(r.b, 4) + ToBytes(r.c, 4) + ToBytes(r.d, 4)
    + ToBytes(r.e, 4) + ToBytes(r.f, 4) + ToBytes(r.g, 4) + ToBytes(r.h, 4)
  }

  function Sha256(m: seq<byte>): (s: seq<byte>)
    ensures |s| == 32
  {
    Digest(HashBlocks(Padded(m)))
  }
}
