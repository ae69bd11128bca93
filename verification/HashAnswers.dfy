/** Known answers of the hash: the test vector of crypto/sha256_test.c, and the double
    hash that the SOLN line of output/sol1-out.txt stands for. */
module HashAnswers {
  import opened Bytes
  import opened MachineWords
  import opened MachineSha
  import opened HashRuns
  import opened Sha256Constants
  import opened Sha256Spec

  // ------------------------------------------------------------ the bytes of a word

  function BytesOf(z: bv32): (s: seq<byte>)
    ensures |s| == 4
  {
    [16 * Nibble((z >> 28) & 15) + Nibble((z >> 24) & 15), 16 * Nibble((z >> 20) & 15) + Nibble((z >> 16) & 15),
     16 * Nibble((z >> 12) & 15) + Nibble((z >> 8) & 15), 16 * Nibble((z >> 4) & 15) + Nibble(z & 15)]
  }

  lemma FourVal(s: seq<byte>)
    requires |s| == 4
    ensures Val(s) == 0x100_0000 * (s[0] as int) + 0x1_0000 * (s[1] as int) + 0x100 * (s[2] as int) + s[3]
  {
    hide Val;
    LastByte(s, s[..3]);
    LastByte(s[..3], s[..2]);
    LastByte(s[..2], s[..1]);
    LastByte(s[..1], []);
    NoVal([]);
  }

  lemma LastByte(s: seq<byte>, p: seq<byte>)
    requires s != [] && p == s[..|s| - 1]
    ensures Val(s) == 256 * Val(p) + s[|s| - 1]
  {
  }

  lemma NoVal(s: seq<byte>)
    requires s == []
    ensures Val(s) == 0
  {
  }

  lemma ValBytesOf(z: bv32)
    ensures Val(BytesOf(z)) == Nat(z)
  {
    hide Nat, Nibble, Val;
    FourVal(BytesOf(z));
    NatIsHex(z);
  }

  lemma BytesOfNat(z: bv32)
    ensures ToBytes(Nat(z), 4) == BytesOf(z)
  {
    hide Nat, BytesOf, Val, ToBytes;
    ValBytesOf(z);
    ValBound(BytesOf(z));
    DecodeEncode(Nat(z), 4);
    ValInjective(ToBytes(Nat(z), 4), BytesOf(z));
  }

  function DigestW(r: RegsW): (s: seq<byte>)
  {
    (BytesOf(r.a) + BytesOf(r.b) + BytesOf(r.c) + BytesOf(r.d)) + (BytesOf(r.e) + BytesOf(r.f) + BytesOf(r.g) + BytesOf(r.h))
  }

  lemma DigestIs(r: RegsW)
    ensures Digest(NatRegs(r)) == DigestW(r)
  {
    hide Nat, BytesOf, ToBytes;
    BytesOfNat(r.a);
    BytesOfNat(r.b);
    BytesOfNat(r.c);
    BytesOfNat(r.d);
    BytesOfNat(r.e);
    BytesOfNat(r.f);
    BytesOfNat(r.g);
    BytesOfNat(r.h);
  }

  // ------------------------------------------------------------ one-block messages

  lemma StartIs()
    ensures NatRegs(Start()) == Initial()
  {
    hide Nat;
    NatIsHex(0x6a09e667);
    NatIsHex(0xbb67ae85);
    NatIsHex(0x3c6ef372);
    NatIsHex(0xa54ff53a);
    NatIsHex(0x510e527f);
    NatIsHex(0x9b05688c);
    NatIsHex(0x1f83d9ab);
    NatIsHex(0x5be0cd19);
  }

  /** The block b is spelled by the words of x. */
  predicate Spells(x: Example, b: block)
  {
    forall t :: 0 <= t < 16 ==> b[4 * t..4 * t + 4] == BytesOf(Words(x)[t])
  }

  lemma SpelledWords(x: Example, b: block)
    requires Spells(x, b)
    ensures WordsOf(Words(x), b)
  {
    hide Nat, BytesOf, Words, Val;
    forall t | 0 <= t < 16 ensures Nat(Words(x)[t]) == WordAt(b, t) {
      ValBytesOf(Words(x)[t]);
    }
  }

  /** The hash value after the block, from the last row of the run. */
  function Result(x: Example): (r: RegsW)
  {
    AddRegsW(Start(), Ends(A(x, 7), E(x, 7)))
  }

  lemma OneBlock(x: Example, m: seq<byte>)
    requires |Padded(m)| == 64 && Spells(x, Padded(m))
    ensures Sha256(m) == DigestW(Result(x))
  {
    hide Padded, Spells, Words, Compress, CompressW, NatRegs, Start, Initial, DigestW, Digest, AddRegsW, Ends, A, E, WordsOf;
    hide HashBlocks;
    var b := Padded(m);
    SpelledWords(x, b);
    Compressed(x);
    MachineCompresses(Start(), Words(x), b);
    StartIs();
    OnlyBlock(b);
    DigestIs(Result(x));
  }

  lemma OnlyBlock(b: block)
    ensures HashBlocks(b) == Compress(Initial(), b)
  {
    hide Compress, Initial;
    assert b[..|b| - 64] == [] && b[|b| - 64..] == b;
  }

  // ------------------------------------------------------------ padding

  lemma LengthField(n: nat)
    requires n < 0x1_0000
    ensures ToBytes(n, 8) == [0, 0, 0, 0, 0, 0, n / 256, n % 256]
  {
    var k := 6;
    NoBytes(n / 256 / 256, k);
    assert ToBytes(n / 256, k + 1) == ToBytes(n / 256 / 256, k) + [n / 256 % 256];
    assert ToBytes(n, k + 2) == ToBytes(n / 256, k + 1) + [n % 256];
  }

  lemma {:induction false} NoBytes(n: nat, k: nat)
    requires n == 0
    ensures ToBytes(n, k) == Zeros(k)
  {
    if k > 0 { NoBytes(n, k - 1); }
  }

  /** A short message takes one block: itself, the 0x80 byte, zeros, and its length. */
  lemma OneBlockPadding(m: seq<byte>)
    requires |m| <= 55
    ensures Padded(m) == m + [0x80] + Zeros(55 - |m|) + [0, 0, 0, 0, 0, 0, 8 * |m| / 256, 8 * |m| % 256]
  {
    hide ToBytes;
    LengthField(8 * |m|);
    assert PadZeros(|m|) == 55 - |m|;
  }

  // ------------------------------------------------------------ "abc"

  const ABC: seq<byte> := [0x61, 0x62, 0x63]

  const ABC_DIGEST: seq<byte> :=
    ([0xba, 0x78, 0x16, 0xbf] + [0x8f, 0x01, 0xcf, 0xea] + [0x41, 0x41, 0x40, 0xde] + [0x5d, 0xae, 0x22, 0x23])
    + ([0xb0, 0x03, 0x61, 0xa3] + [0x96, 0x17, 0x7a, 0x9c] + [0xb4, 0x10, 0xff, 0x61] + [0xf2, 0x00, 0x15, 0xad])

  lemma AbcWord(t: nat)
    requires t < 16
    ensures Words(Abc)[t] == if t == 0 then 0x61626380 else if t == 15 then 0x18 else 0
  {
  }

  lemma AbcSpelled()
    ensures |Padded(ABC)| == 64 && Spells(Abc, Padded(ABC))
  {
    hide Padded, Words, BytesOf;
    OneBlockPadding(ABC);
    var b := Padded(ABC);
    assert b == ABC + [0x80] + Zeros(52) + [0, 0, 0, 0, 0, 0, 0, 24];
    AbcBytes();
    forall t | 0 <= t < 16 ensures b[4 * t..4 * t + 4] == BytesOf(Words(Abc)[t]) {
      AbcWord(t);
    }
  }

  lemma AbcBytes()
    ensures BytesOf(0x61626380) == [0x61, 0x62, 0x63, 0x80] && BytesOf(0x18) == [0, 0, 0, 0x18] && BytesOf(0) == [0, 0, 0, 0]
  {
  }

  lemma AbcResult()
    ensures Result(Abc) == RegsW(0xba7816bf, 0x8f01cfea, 0x414140de, 0x5dae2223, 0xb00361a3, 0x96177a9c, 0xb410ff61, 0xf20015ad)
  {
  }

  lemma AbcFirstBytes()
    ensures BytesOf(0xba7816bf) == [0xba, 0x78, 0x16, 0xbf] && BytesOf(0x8f01cfea) == [0x8f, 0x01, 0xcf, 0xea]
    ensures BytesOf(0x414140de) == [0x41, 0x41, 0x40, 0xde] && BytesOf(0x5dae2223) == [0x5d, 0xae, 0x22, 0x23]
  {
  }

  lemma AbcLastBytes()
    ensures BytesOf(0xb00361a3) == [0xb0, 0x03, 0x61, 0xa3] && BytesOf(0x96177a9c) == [0x96, 0x17, 0x7a, 0x9c]
    ensures BytesOf(0xb410ff61) == [0xb4, 0x10, 0xff, 0x61] && BytesOf(0xf20015ad) == [0xf2, 0x00, 0x15, 0xad]
  {
  }

  lemma AbcDigest()
    ensures DigestW(RegsW(0xba7816bf, 0x8f01cfea, 0x414140de, 0x5dae2223, 0xb00361a3, 0x96177a9c, 0xb410ff61, 0xf20015ad)) == ABC_DIGEST
  {
    hide BytesOf;
    AbcFirstBytes();
    AbcLastBytes();
  }

  /** The first answer of crypto/sha256_test.c. */
  lemma Sha256Abc()
    ensures Sha256(ABC) == ABC_DIGEST
  {
    hide Sha256, Spells, Padded, Result, DigestW;
    AbcSpelled();
    OneBlock(Abc, ABC);
    AbcResult();
    AbcDigest();
  }

  // ------------------------------------------------------------ output/sol1-out.txt

  /** What the padding of a message of w words holds after it. */
  lemma PaddingAt(m: seq<byte>, w: nat, i: nat)
    requires |m| == 4 * w && w <= 13 && 4 * w <= i < 64
    ensures |Padded(m)| == 64
    ensures Padded(m)[i] == if i == 4 * w then 0x80 else if i == 62 then 8 * |m| / 256 else if i == 63 then 8 * |m| % 256 else 0
  {
    hide Padded;
    OneBlockPadding(m);
  }

  lemma MessageAt(m: seq<byte>, i: nat)
    requires |m| <= 55 && i < |m|
    ensures |Padded(m)| == 64 && Padded(m)[i] == m[i]
  {
    hide Padded;
    OneBlockPadding(m);
  }

  /** A message of whole words is spelled by these, a one bit, zeros and the length. */
  lemma WholeWords(x: Example, m: seq<byte>, w: nat)
    requires |m| == 4 * w && w <= 13
    requires forall t :: 0 <= t < w ==> m[4 * t..4 * t + 4] == BytesOf(Words(x)[t])
    requires Words(x)[w] == 0x8000_0000 && forall t :: w < t < 15 ==> Words(x)[t] == 0
    requires BytesOf(Words(x)[15]) == [0, 0, 8 * |m| / 256, 8 * |m| % 256]
    ensures |Padded(m)| == 64 && Spells(x, Padded(m))
  {
    hide Padded, Words, BytesOf;
    EndBytes();
    PaddingAt(m, w, 63);
    var b := Padded(m);
    forall t | 0 <= t < 16 ensures b[4 * t..4 * t + 4] == BytesOf(Words(x)[t]) {
      assert b[4 * t..4 * t + 4] == [b[4 * t], b[4 * t + 1], b[4 * t + 2], b[4 * t + 3]];
      if t < w {
        MessageWord(m, t);
      } else {
        PaddingAt(m, w, 4 * t);
        PaddingAt(m, w, 4 * t + 1);
        PaddingAt(m, w, 4 * t + 2);
        PaddingAt(m, w, 4 * t + 3);
      }
    }
  }

  lemma MessageWord(m: seq<byte>, t: nat)
    requires 4 * t + 4 <= |m| <= 55
    ensures |Padded(m)| == 64 && Padded(m)[4 * t..4 * t + 4] == m[4 * t..4 * t + 4]
  {
    hide Padded;
    MessageAt(m, 4 * t);
    MessageAt(m, 4 * t + 1);
    MessageAt(m, 4 * t + 2);
    MessageAt(m, 4 * t + 3);
  }

  lemma EndBytes()
    ensures BytesOf(0x8000_0000) == [0x80, 0, 0, 0] && BytesOf(0) == [0, 0, 0, 0]
    ensures BytesOf(0x100) == [0, 0, 1, 0] && BytesOf(0x140) == [0, 0, 1, 0x40]
  {
  }

  /** The eight words that spell s. */
  predicate EightSpell(r: Eight, s: seq<byte>)
    requires |s| == 32
  {
    s == (BytesOf(r.x0) + BytesOf(r.x1) + BytesOf(r.x2) + BytesOf(r.x3)) + (BytesOf(r.x4) + BytesOf(r.x5) + BytesOf(r.x6) + BytesOf(r.x7))
  }

  lemma NonceWords(s: seq<byte>, n: seq<byte>)
    requires |s| == 32 && |n| == 8
    ensures forall t :: 0 <= t < 8 ==> (s + n)[4 * t..4 * t + 4] == s[4 * t..4 * t + 4]
    ensures (s + n)[32..36] == n[..4] && (s + n)[36..40] == n[4..]
  {
  }

  /** Four quarters, and one of them. */
  lemma FourPieces(q: seq<seq<byte>>, t: nat)
    requires |q| == 4 && (forall i :: 0 <= i < 4 ==> |q[i]| == 4) && t < 4
    ensures var s := q[0] + q[1] + q[2] + q[3]; |s| == 16 && s[4 * t..4 * t + 4] == q[t]
  {
    var s := q[0] + q[1] + q[2] + q[3];
    if t == 0 {
      assert s[..4] == q[0];
    } else if t == 1 {
      assert s[4..8] == q[1];
    } else if t == 2 {
      assert s[8..12] == q[2];
    } else {
      assert s[12..16] == q[3];
    }
  }

  lemma TwoHalves(p: seq<byte>, q: seq<byte>, t: nat)
    requires |p| == |q| == 16 && t < 8
    ensures (p + q)[4 * t..4 * t + 4] == if t < 4 then p[4 * t..4 * t + 4] else q[4 * (t - 4)..4 * (t - 4) + 4]
  {
  }

  /** The bytes of word t of eight. */
  lemma BytesAt(r: Eight, t: nat)
    requires t < 8
    ensures BytesOf(At(r, t)) ==
              if t < 4 then [BytesOf(r.x0), BytesOf(r.x1), BytesOf(r.x2), BytesOf(r.x3)][t]
              else [BytesOf(r.x4), BytesOf(r.x5), BytesOf(r.x6), BytesOf(r.x7)][t - 4]
  {
    hide BytesOf;
  }

  lemma SpelledAt(r: Eight, s: seq<byte>, t: nat)
    requires |s| == 32 && EightSpell(r, s) && t < 8
    ensures s[4 * t..4 * t + 4] == BytesOf(At(r, t))
  {
    hide BytesOf, At;
    var p := [BytesOf(r.x0), BytesOf(r.x1), BytesOf(r.x2), BytesOf(r.x3)];
    var q := [BytesOf(r.x4), BytesOf(r.x5), BytesOf(r.x6), BytesOf(r.x7)];
    FourPieces(p, if t < 4 then t else 0);
    FourPieces(q, if t < 4 then 0 else t - 4);
    TwoHalves(p[0] + p[1] + p[2] + p[3], q[0] + q[1] + q[2] + q[3], t);
    BytesAt(r, t);
  }

  lemma FirstEight(x: Example, s: seq<byte>)
    requires |s| == 32 && EightSpell(W(x, 0), s)
    ensures forall t :: 0 <= t < 8 ==> s[4 * t..4 * t + 4] == BytesOf(Words(x)[t])
  {
    hide W, BytesOf, EightSpell, At;
    forall t | 0 <= t < 8 ensures s[4 * t..4 * t + 4] == BytesOf(Words(x)[t]) {
      assert Words(x)[t] == At(W(x, 0), t);
      SpelledAt(W(x, 0), s, t);
    }
  }

  lemma LastEight(x: Example, t: nat)
    requires 8 <= t < 16
    ensures Words(x)[t] == At(W(x, 1), t - 8)
  {
    hide W, At;
  }

  const SEED: seq<byte> :=
    ([0x00, 0x00, 0x00, 0x00] + [0x19, 0xd6, 0x68, 0x9c] + [0x08, 0x5a, 0xe1, 0x65] + [0x83, 0x1e, 0x93, 0x4f])
    + ([0xf7, 0x63, 0xae, 0x46] + [0xa2, 0x18, 0xa6, 0xc1] + [0x72, 0xb3, 0xf1, 0xb6] + [0x0a, 0x8c, 0xe2, 0x6f])

  const NONCE: seq<byte> := [0x10, 0x00, 0x00, 0x00, 0x23, 0x21, 0x21, 0x47]

  const INNER_DIGEST: seq<byte> :=
    ([0x7d, 0x74, 0x05, 0xf8] + [0x77, 0xb5, 0x6f, 0x97] + [0x11, 0x51, 0xd9, 0x1f] + [0xd6, 0x2f, 0x16, 0xce])
    + ([0x63, 0x60, 0x7d, 0xcd] + [0x22, 0x34, 0x66, 0x75] + [0x3b, 0x07, 0x53, 0xff] + [0x6f, 0x33, 0xa3, 0x31])

  const OUTER_DIGEST: seq<byte> :=
    ([0x00, 0xe3, 0x60, 0x72] + [0x88, 0xf5, 0xab, 0xed] + [0xd5, 0x51, 0x41, 0xcb] + [0x5a, 0x73, 0x7e, 0xf3])
    + ([0xd1, 0x2a, 0x76, 0x28] + [0xd6, 0xfc, 0x64, 0x5e] + [0x79, 0xf1, 0x91, 0x21] + [0x93, 0xa6, 0x9f, 0x3b])

  lemma SeedFirst()
    ensures BytesOf(0x00000000) == [0x00, 0x00, 0x00, 0x00] && BytesOf(0x19d6689c) == [0x19, 0xd6, 0x68, 0x9c]
    ensures BytesOf(0x085ae165) == [0x08, 0x5a, 0xe1, 0x65] && BytesOf(0x831e934f) == [0x83, 0x1e, 0x93, 0x4f]
  {
  }

  lemma SeedLast()
    ensures BytesOf(0xf763ae46) == [0xf7, 0x63, 0xae, 0x46] && BytesOf(0xa218a6c1) == [0xa2, 0x18, 0xa6, 0xc1]
    ensures BytesOf(0x72b3f1b6) == [0x72, 0xb3, 0xf1, 0xb6] && BytesOf(0x0a8ce26f) == [0x0a, 0x8c, 0xe2, 0x6f]
  {
  }

  lemma SeedRow()
    ensures InnerW(0) == Eight(0x00000000, 0x19d6689c, 0x085ae165, 0x831e934f, 0xf763ae46, 0xa218a6c1, 0x72b3f1b6, 0x0a8ce26f)
  {
  }

  lemma SeedBytesOf()
    ensures SEED == (BytesOf(0x00000000) + BytesOf(0x19d6689c) + BytesOf(0x085ae165) + BytesOf(0x831e934f))
                    + (BytesOf(0xf763ae46) + BytesOf(0xa218a6c1) + BytesOf(0x72b3f1b6) + BytesOf(0x0a8ce26f))
  {
    hide BytesOf;
    SeedFirst();
    SeedLast();
  }

  lemma SeedSpelled()
    ensures |SEED| == 32 && EightSpell(InnerW(0), SEED)
  {
    hide BytesOf, InnerW;
    SeedRow();
    SeedFirst();
    SeedLast();
  }

  lemma NonceSpelled()
    ensures |NONCE| == 8 && NONCE[..4] == BytesOf(0x10000000) && NONCE[4..] == BytesOf(0x23212147)
  {
  }

  lemma InnerResult()
    ensures Result(Inner) == RegsW(0x7d7405f8, 0x77b56f97, 0x1151d91f, 0xd62f16ce, 0x63607dcd, 0x22346675, 0x3b0753ff, 0x6f33a331)
  {
  }

  lemma InnerFirstBytes()
    ensures BytesOf(0x7d7405f8) == [0x7d, 0x74, 0x05, 0xf8] && BytesOf(0x77b56f97) == [0x77, 0xb5, 0x6f, 0x97]
    ensures BytesOf(0x1151d91f) == [0x11, 0x51, 0xd9, 0x1f] && BytesOf(0xd62f16ce) == [0xd6, 0x2f, 0x16, 0xce]
  {
  }

  lemma InnerLastBytes()
    ensures BytesOf(0x63607dcd) == [0x63, 0x60, 0x7d, 0xcd] && BytesOf(0x22346675) == [0x22, 0x34, 0x66, 0x75]
    ensures BytesOf(0x3b0753ff) == [0x3b, 0x07, 0x53, 0xff] && BytesOf(0x6f33a331) == [0x6f, 0x33, 0xa3, 0x31]
  {
  }

  lemma InnerDigest()
    ensures DigestW(RegsW(0x7d7405f8, 0x77b56f97, 0x1151d91f, 0xd62f16ce, 0x63607dcd, 0x22346675, 0x3b0753ff, 0x6f33a331)) == INNER_DIGEST
  {
    hide BytesOf;
    InnerFirstBytes();
    InnerLastBytes();
  }

  lemma OuterResult()
    ensures Result(Outer) == RegsW(0x00e36072, 0x88f5abed, 0xd55141cb, 0x5a737ef3, 0xd12a7628, 0xd6fc645e, 0x79f19121, 0x93a69f3b)
  {
  }

  lemma OuterFirstBytes()
    ensures BytesOf(0x00e36072) == [0x00, 0xe3, 0x60, 0x72] && BytesOf(0x88f5abed) == [0x88, 0xf5, 0xab, 0xed]
    ensures BytesOf(0xd55141cb) == [0xd5, 0x51, 0x41, 0xcb] && BytesOf(0x5a737ef3) == [0x5a, 0x73, 0x7e, 0xf3]
  {
  }

  lemma OuterLastBytes()
    ensures BytesOf(0xd12a7628) == [0xd1, 0x2a, 0x76, 0x28] && BytesOf(0xd6fc645e) == [0xd6, 0xfc, 0x64, 0x5e]
    ensures BytesOf(0x79f19121) == [0x79, 0xf1, 0x91, 0x21] && BytesOf(0x93a69f3b) == [0x93, 0xa6, 0x9f, 0x3b]
  {
  }

  lemma OuterDigest()
    ensures DigestW(RegsW(0x00e36072, 0x88f5abed, 0xd55141cb, 0x5a737ef3, 0xd12a7628, 0xd6fc645e, 0x79f19121, 0x93a69f3b)) == OUTER_DIGEST
  {
    hide BytesOf;
    OuterFirstBytes();
    OuterLastBytes();
  }

  lemma InnerRow()
    ensures var r := InnerW(1);
            r.x0 == 0x10000000 && r.x1 == 0x23212147 && r.x2 == 0x8000_0000 && r.x3 == r.x4 == r.x5 == r.x6 == 0 && r.x7 == 0x140
  {
  }

  lemma OuterRow()
    ensures var r := OuterW(1);
            r.x0 == 0x8000_0000 && r.x1 == r.x2 == r.x3 == r.x4 == r.x5 == r.x6 == 0 && r.x7 == 0x100
  {
  }

  lemma InnerSpelled()
    ensures |Padded(SEED + NONCE)| == 64 && Spells(Inner, Padded(SEED + NONCE))
  {
    hide Padded, Spells, Words, BytesOf, InnerW, EightSpell, SEED, NONCE;
    SeedSpelled();
    NonceSpelled();
    InnerRow();
    FirstEight(Inner, SEED);
    forall t | 8 <= t < 16 ensures Words(Inner)[t] == At(InnerW(1), t - 8) { LastEight(Inner, t); }
    NonceWords(SEED, NONCE);
    EndBytes();
    WholeWords(Inner, SEED + NONCE, 10);
  }

  lemma OuterSpelled()
    ensures |Padded(INNER_DIGEST)| == 64 && Spells(Outer, Padded(INNER_DIGEST))
  {
    hide Padded, Spells, Words, BytesOf, OuterW, DigestW, INNER_DIGEST;
    InnerDigest();
    OuterFirst();
    OuterRow();
    FirstEight(Outer, INNER_DIGEST);
    forall t | 8 <= t < 16 ensures Words(Outer)[t] == At(OuterW(1), t - 8) { LastEight(Outer, t); }
    EndBytes();
    WholeWords(Outer, INNER_DIGEST, 8);
  }

  lemma OuterFirst()
    ensures |INNER_DIGEST| == 32 && EightSpell(OuterW(0), INNER_DIGEST)
  {
    hide BytesOf, INNER_DIGEST;
    InnerDigest();
  }

  /** The double hash of the work and the nonce of the line. */
  lemma DoubleHash()
    ensures Sha256(Sha256(SEED + NONCE)) == OUTER_DIGEST
  {
    hide Sha256, Spells, Padded, Result, DigestW, SEED, NONCE, INNER_DIGEST, OUTER_DIGEST;
    InnerSpelled();
    OneBlock(Inner, SEED + NONCE);
    InnerResult();
    InnerDigest();
    OuterSpelled();
    OneBlock(Outer, INNER_DIGEST);
    OuterResult();
    OuterDigest();
  }
}
