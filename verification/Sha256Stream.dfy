/** The streaming SHA-256 of sha256.c, proved against Sha256Spec. */
module Sha256Stream {
  import opened Containers
  import opened Bits
  import opened Bytes
  import opened Sha256Constants
  import opened Sha256Spec

  // ------------------------------------------------------------ word arithmetic

  /** `(b0 << 24) | (b1 << 16) | (b2 << 8) | b3` */
  function PackWord(b0: byte, b1: byte, b2: byte, b3: byte): (r: word)
  {
    Or32(Or32(Or32(Shl32(b0, 24), Shl32(b1, 16)), Shl32(b2, 8)), b3)
  }

  lemma OrIsSum(h: nat, y: word, k: nat)
    requires k <= 32 && h < Pow2(32 - k) && y < Pow2(k)
    ensures Shl(h, k) < 0x1_0000_0000
    ensures Or32(Shl(h, k), y) == Shl(h, k) + y
  {
    Pow2At32();
    OrDisjoint(32, h, y, k);
  }

  lemma ShlBytes(x: nat)
    ensures Shl(x, 8) == 256 * x && Shl(x, 16) == 0x1_0000 * x && Shl(x, 24) == 0x100_0000 * x
  {
    Shl8(x);
    ShlByte(x, 8);
    ShlByte(x, 16);
  }

  /** Packing four bytes with shifts and ors gives the big-endian number. */
  lemma PackWordIsVal(b0: byte, b1: byte, b2: byte, b3: byte)
    ensures PackWord(b0, b1, b2, b3) == Val([b0, b1, b2, b3])
  {
    hide Or32, Shl, Pow2, Val;
    var u, v, w: nat := b0, 256 * b0 + b1, 256 * (256 * b0 + b1) + b2;
    ShlBytes(b0);
    ShlBytes(b1);
    ShlBytes(b2);
    ShlBytes(v);
    ShlBytes(w);
    Pow2Bytes();
    OrIsSum(u, Shl32(b1, 16), 24);
    OrIsSum(v, Shl32(b2, 8), 16);
    OrIsSum(w, b3, 8);
    ValOfFour(b0, b1, b2, b3);
  }

  lemma Pow2Bytes()
    ensures Pow2(8) == 0x100 && Pow2(16) == 0x1_0000 && Pow2(24) == 0x100_0000
  {
    Pow2Values();
    Pow2Add(8, 8);
    Pow2Add(8, 16);
  }

  lemma ValOfFour(b0: byte, b1: byte, b2: byte, b3: byte)
    ensures Val([b0, b1, b2, b3]) == 256 * (256 * (256 * b0 + b1) + b2) + b3
  {
    assert Val([b0]) == b0;
    assert [b0, b1][..1] == [b0];
    assert Val([b0, b1]) == 256 * b0 + b1;
    assert [b0, b1, b2][..2] == [b0, b1];
    assert Val([b0, b1, b2]) == 256 * (256 * b0 + b1) + b2;
    assert [b0, b1, b2, b3][..3] == [b0, b1, b2];
  }

  /** `x + y` on 32-bit operands */
  function Plus(x: word, y: word): (r: word)
  {
    Mod32(x + y)
  }

  lemma PlusIsSum(x: nat, y: word)
    ensures Plus(Mod32(x), y) == Mod32(x + y)
  {
  }

  lemma PackedWord(m: block, t: nat)
    requires t < 16
    ensures PackWord(m[4 * t], m[4 * t + 1], m[4 * t + 2], m[4 * t + 3]) == WordAt(m, t)
  {
    hide Val, PackWord;
    var j := 4 * t;
    assert m[j..j + 4] == [m[j], m[j + 1], m[j + 2], m[j + 3]];
    PackWordIsVal(m[j], m[j + 1], m[j + 2], m[j + 3]);
  }

  /** The two loops of sha256.c:48-51 fill in the message schedule. */
  method FillSchedule(data: array<byte>) returns (m: array<word>)
    requires data.Length == 64
    ensures fresh(m) && m.Length == 64
    ensures forall t :: 0 <= t < 64 ==> m[t] == Schedule(data[..], t)
  {
    hide Val, PackWord, WordAt, SmallSigma0, SmallSigma1, Mod32;
    m := new word[64];
    ghost var blk: block := data[..];
    var i, j := 0, 0;
    while i < 16
      invariant 0 <= i <= 16 && j == 4 * i
      invariant forall t :: 0 <= t < i ==> m[t] == Schedule(blk, t)
    {
      PackedWord(blk, i);
      m[i] := PackWord(data[j], data[j + 1], data[j + 2], data[j + 3]);
      i, j := i + 1, j + 4;
    }
    while i < 64
      invariant 16 <= i <= 64
      invariant forall t :: 0 <= t < i ==> m[t] == Schedule(blk, t)
    {
      var s1, s0 := SmallSigma1(m[i - 2]), SmallSigma0(m[i - 15]);
      PlusChain(0, s1, m[i - 7], s0, m[i - 16]);
      PlusZero(s1);
      m[i] := Plus(Plus(Plus(s1, m[i - 7]), s0), m[i - 16]);
      i := i + 1;
    }
  }

  lemma PlusZero(x: word)
    ensures Plus(0, x) == x
  {
  }

  function RegsOf(s: seq<word>): (r: Regs)
    requires |s| == 8
  {
    Regs(s[0], s[1], s[2], s[3], s[4], s[5], s[6], s[7])
  }

  lemma PlusChain(v: word, w: word, x: word, y: word, z: word)
    ensures Plus(Plus(Plus(Plus(v, w), x), y), z) == Mod32(v + w + x + y + z)
  {
    hide Mod32;
    PlusIsSum(v + w, x);
    PlusIsSum(v + w + x, y);
    PlusIsSum(v + w + x + y, z);
  }

  /** The eight rolling variables of sha256.c:53-73. */
  method RunRounds(start: Regs, m: array<word>, ghost data: block) returns (r: Regs)
    requires m.Length == 64
    requires forall t :: 0 <= t < 64 ==> m[t] == Schedule(data, t)
    ensures r == Rounds(start, data, 64)
  {
    hide BigSigma0, BigSigma1, Ch, Maj, K, Schedule, Mod32;
    var a, b, c, d := start.a, start.b, start.c, start.d;
    var e, f, g, h := start.e, start.f, start.g, start.h;
    for i := 0 to 64
      invariant Regs(a, b, c, d, e, f, g, h) == Rounds(start, data, i)
    {
      PlusChain(h, BigSigma1(e), Ch(e, f, g), K(i), m[i]);
      var t1 := Plus(Plus(Plus(Plus(h, BigSigma1(e)), Ch(e, f, g)), K(i)), m[i]);
      var t2 := Plus(BigSigma0(a), Maj(a, b, c));
      h := g;
      g := f;
      f := e;
      e := Plus(d, t1);
      d := c;
      c := b;
      b := a;
      a := Plus(t1, t2);
    }
    r := Regs(a, b, c, d, e, f, g, h);
  }

  /** `ctx->state[0] += a` and so on (sha256.c:75-82). */
  method FeedForward(state: array<word>, r: Regs)
    requires state.Length == 8
    modifies state
    ensures RegsOf(state[..]) == AddRegs(old(RegsOf(state[..])), r)
  {
    hide Mod32;
    state[0] := Plus(state[0], r.a);
    state[1] := Plus(state[1], r.b);
    state[2] := Plus(state[2], r.c);
    state[3] := Plus(state[3], r.d);
    state[4] := Plus(state[4], r.e);
    state[5] := Plus(state[5], r.f);
    state[6] := Plus(state[6], r.g);
    state[7] := Plus(state[7], r.h);
  }

  method Transform(state: array<word>, data: array<byte>)
    requires state.Length == 8 && data.Length == 64
    modifies state
    ensures RegsOf(state[..]) == Compress(old(RegsOf(state[..])), data[..])
  {
    hide Rounds, AddRegs, Schedule;
    var m := FillSchedule(data);
    var r := RunRounds(RegsOf(state[..]), m, data[..]);
    FeedForward(state, r);
  }

  // ------------------------------------------------------------ the context

  lemma HashBlocksSnoc(s: seq<byte>, m: block)
    requires |s| % 64 == 0
    ensures HashBlocks(s + m) == Compress(HashBlocks(s), m)
  {
    hide Compress, Initial;
    var u := s + m;
    assert u[..|u| - 64] == s && u[|u| - 64..] == m;
  }

  /** The tail of s that does not fill a block, and what is before it. */
  function Tail(s: seq<byte>): (t: seq<byte>)
    ensures |t| == |s| % 64
  {
    s[|s| - |s| % 64..]
  }

  function Whole(s: seq<byte>): (t: seq<byte>)
    ensures |t| % 64 == 0 && t + Tail(s) == s
  {
    s[..|s| - |s| % 64]
  }

  /** Appending a byte completes a block or lengthens the tail. */
  lemma AppendByte(s: seq<byte>, x: byte)
    ensures var t := Tail(s) + [x];
            if |t| == 64 then Whole(s + [x]) == Whole(s) + t && Tail(s + [x]) == []
            else Whole(s + [x]) == Whole(s) && Tail(s + [x]) == t
  {
    var u, r := s + [x], |s| % 64;
    assert |u| % 64 == if r == 63 then 0 else r + 1;
    assert u == Whole(s) + (Tail(s) + [x]);
  }

  lemma OneBlockLess(n: nat)
    requires n >= 64 && n % 64 == 0
    ensures (n - 64) % 64 == 0
  {
  }

  /** The padded message without its last block. */
  function PaddedBody(m: seq<byte>): (s: seq<byte>)
    ensures |s| % 64 == 0
  {
    hide *;
    OneBlockLess(|Padded(m)|);
    Padded(m)[..|Padded(m)| - 64]
  }

  /** The last padded block up to its length field. */
  function LastPrefix(m: seq<byte>): (s: seq<byte>)
    ensures |s| == 56
  {
    hide Padded;
    Padded(m)[|Padded(m)| - 64..|Padded(m)| - 8]
  }

  lemma ShrNone(n: nat)
    ensures Shr(n, 0) == n
  {
  }

  /** The bit count of the finished blocks plus that of the tail. */
  lemma TotalBits(m: seq<byte>)
    ensures ((8 * |Whole(m)|) % LENGTH_SIZE + 8 * (|m| % 64)) % LENGTH_SIZE == (8 * |m|) % LENGTH_SIZE
  {
    hide Whole, Tail;
    assert |Whole(m) + Tail(m)| == |m|;
    ModAdd(8 * |Whole(m)|, 8 * (|m| % 64), LENGTH_SIZE);
  }

  lemma PaddedSplit(m: seq<byte>)
    ensures Padded(m) == PaddedBody(m) + (LastPrefix(m) + ToBytes((8 * |m|) % LENGTH_SIZE, 8))
  {
    hide ToBytes, PadZeros, Zeros;
    LastBytes(m + [0x80] + Zeros(PadZeros(|m|)), ToBytes((8 * |m|) % LENGTH_SIZE, 8));
    Cut(Padded(m));
  }

  lemma LastBytes(s: seq<byte>, l: seq<byte>)
    requires |l| == 8
    ensures (s + l)[|s + l| - 8..] == l
  {
  }

  lemma Cut(p: seq<byte>)
    requires |p| >= 64
    ensures p == p[..|p| - 64] + (p[|p| - 64..|p| - 8] + p[|p| - 8..])
  {
  }

  lemma PadZerosIs(n: nat)
    ensures PadZeros(n) == if n % 64 < 56 then 55 - n % 64 else 119 - n % 64
  {
    WrapsOnce(119 - n % 64);
  }

  lemma WrapsOnce(x: nat)
    requires x < 128
    ensures x % 64 == if x < 64 then x else x - 64
  {
  }

  /** A tail that leaves room for the length field needs no further block. */
  lemma PaddedShort(m: seq<byte>)
    requires |m| % 64 < 56
    ensures PaddedBody(m) == Whole(m)
    ensures LastPrefix(m) == Tail(m) + [0x80] + Zeros(55 - |m| % 64)
  {
    hide ToBytes, PadZeros, Tail, Whole, PaddedBody, LastPrefix;
    var n, l := |m| % 64, ToBytes((8 * |m|) % LENGTH_SIZE, 8);
    PadZerosIs(|m|);
    var last := Tail(m) + [0x80] + Zeros(55 - n);
    PaddedParts(m, Whole(m), last, l);
  }

  /** A longer tail fills one block with zeros and leaves another. */
  lemma PaddedLong(m: seq<byte>)
    requires |m| % 64 >= 56
    ensures PaddedBody(m) == Whole(m) + (Tail(m) + [0x80] + Zeros(63 - |m| % 64))
    ensures LastPrefix(m) == Zeros(56)
  {
    hide ToBytes, PadZeros, Tail, Whole, PaddedBody, LastPrefix;
    var n, l := |m| % 64, ToBytes((8 * |m|) % LENGTH_SIZE, 8);
    PadZerosIs(|m|);
    assert Zeros(119 - n) == Zeros(63 - n) + Zeros(56);
    PaddedParts(m, Whole(m) + (Tail(m) + [0x80] + Zeros(63 - n)), Zeros(56), l);
  }

  lemma PaddedParts(m: seq<byte>, body: seq<byte>, last: seq<byte>, l: seq<byte>)
    requires |last| == 56 && |l| == 8
    requires l == ToBytes((8 * |m|) % LENGTH_SIZE, 8)
    requires m + [0x80] + Zeros(PadZeros(|m|)) == body + last
    ensures PaddedBody(m) == body && LastPrefix(m) == last
  {
    hide ToBytes, PadZeros;
    assert Padded(m) == body + last + l;
  }

  /** Byte p of the digest: `(state[p / 4] >> (24 - p % 4 * 8)) & 0xff`. */
  function DigestByte(w: seq<word>, p: nat): (r: byte)
    requires |w| == 8 && p < 32
  {
    Shr(w[p / 4], 24 - 8 * (p % 4)) % 256
  }

  lemma WordBytes(w: seq<word>, hash: seq<byte>, k: nat)
    requires |w| == 8 && |hash| == 32 && k < 8
    requires forall p :: 0 <= p < 32 ==> hash[p] == DigestByte(w, p)
    ensures hash[4 * k..4 * k + 4] == ToBytes(w[k], 4)
  {
    hide Shr, ToBytes;
    var s := hash[4 * k..4 * k + 4];
    forall j | 0 <= j < 4 ensures s[j] == ToBytes(w[k], 4)[j] {
      ToBytesAt(w[k], 4, j);
      var p := 4 * k + j;
      assert p / 4 == k && p % 4 == j;
      assert hash[p] == DigestByte(w, p);
    }
  }

  lemma DigestIsBytes(w: seq<word>, hash: seq<byte>)
    requires |w| == 8 && |hash| == 32
    requires forall p :: 0 <= p < 32 ==> hash[p] == DigestByte(w, p)
    ensures hash == Digest(RegsOf(w))
  {
    hide ToBytes, DigestByte;
    WordBytes(w, hash, 0);
    WordBytes(w, hash, 1);
    WordBytes(w, hash, 2);
    WordBytes(w, hash, 3);
    WordBytes(w, hash, 4);
    WordBytes(w, hash, 5);
    WordBytes(w, hash, 6);
    WordBytes(w, hash, 7);
    assert hash == hash[0..4] + hash[4..8] + hash[8..12] + hash[12..16]
                + hash[16..20] + hash[20..24] + hash[24..28] + hash[28..32];
  }

  lemma WholeOfEmpty(s: seq<byte>)
    requires s == []
    ensures Whole(s) == []
  {
    hide *;
    assert |Whole(s) + Tail(s)| == |s|;
  }

  lemma InitialIs()
    ensures RegsOf(H0) == Initial()
  {
  }

  lemma NoBlocks(w: seq<byte>)
    requires |w| == 0
    ensures HashBlocks(w) == Initial()
  {
    hide Compress, Initial;
  }

  /** `bitlen += n` on 64 bits */
  function MoreBits(bits: nat, n: nat): (r: nat)
  {
    (bits + n) % LENGTH_SIZE
  }

  lemma OneBlockMore(w: nat)
    ensures MoreBits((8 * w) % LENGTH_SIZE, 512) == (8 * (w + 64)) % LENGTH_SIZE
  {
    ModAdd(8 * w, 512, LENGTH_SIZE);
  }

  lemma ModAdd(x: nat, y: nat, d: nat)
    requires d > 0
    ensures (x % d + y) % d == (x + y) % d
  {
    var q, r := Divide(x, d);
    DivModUnique(x, d, q, r);
    var q', r' := Divide(r + y, d);
    DivModUnique(r + y, d, q', r');
    assert x + y == (q + q') * d + r';
    DivModUnique(x + y, d, q + q', r');
  }

  class Context {
    var data: array<byte>
    var datalen: nat
    var bitlen: nat
    var state: array<word>

    /** All bytes passed to Update so far. */
    ghost var message: seq<byte>

    /** The context buffers the unfinished block of the message and holds the hash
        value of the finished ones. */
    ghost predicate Valid()
      reads this, data, state
    {
      && data.Length == 64 && state.Length == 8
      && datalen == |message| % 64
      && data[..datalen] == Tail(message)
      && bitlen == (8 * |Whole(message)|) % LENGTH_SIZE
      && RegsOf(state[..]) == HashBlocks(Whole(message))
    }

    constructor ()
      ensures Valid() && message == [] && fresh(data) && fresh(state)
    {
      hide HashBlocks, Tail, Whole, RegsOf;
      data := new byte[64];
      datalen := 0;
      bitlen := 0;
      state := new word[8](i requires 0 <= i < 8 => H0[i]);
      message := [];
      new;
      assert state[..] == H0;
      WholeOfEmpty(message);
      InitialIs();
      NoBlocks(Whole(message));
    }

    /** One byte of the loop at sha256.c:103-111. */
    method PutByte(x: byte)
      requires Valid()
      modifies this, data, state
      ensures Valid() && message == old(message) + [x]
      ensures data == old(data) && state == old(state)
    {
      hide HashBlocks, Compress, Tail, Whole, RegsOf, LENGTH_SIZE, MoreBits;
      AppendByte(message, x);
      OneBlockMore(|Whole(message)|);
      ghost var before := message;
      message := before + [x];
      data[datalen] := x;
      datalen := datalen + 1;
      assert data[..datalen] == Tail(before) + [x];
      if datalen == 64 {
        Transform(state, data);
        bitlen := MoreBits(bitlen, 512);
        datalen := 0;
        assert data[..] == Tail(before) + [x];
        HashBlocksSnoc(Whole(before), data[..]);
      }
    }

    /** `sha256_update`; its 32-bit counter never reaches a length of 2^32. */
    method Update(input: seq<byte>)
      requires Valid() && |input| < 0x1_0000_0000
      modifies this, data, state
      ensures Valid() && message == old(message) + input
      ensures data == old(data) && state == old(state)
    {
      hide HashBlocks, Tail, Whole, RegsOf, LENGTH_SIZE;
      for i := 0 to |input|
        invariant Valid() && message == old(message) + input[..i]
        invariant data == old(data) && state == old(state)
      {
        PutByte(input[i]);
        assert input[..i + 1] == input[..i] + [input[i]];
      }
    }

    /** The 0x80 byte and zeros up to position `end` (sha256.c:121-129). */
    method PadTo(end: nat)
      requires data.Length == 64 && datalen < end <= 64
      modifies data
      ensures data[..end] == old(data[..datalen]) + [0x80] + Zeros(end - datalen - 1)
    {
      ghost var before := data[..datalen];
      var i := datalen;
      data[i] := 0x80;
      i := i + 1;
      while i < end
        invariant datalen < i <= end
        invariant data[..datalen] == before && data[datalen] == 0x80
        invariant forall k :: datalen < k < i ==> data[k] == 0
      {
        data[i] := 0;
        i := i + 1;
      }
      assert data[..end] == before + [0x80] + Zeros(end - datalen - 1);
    }

    /** Both padding branches leave the buffer ready for the length field. */
    method PadBuffer()
      requires Valid()
      modifies data, state
      ensures data[..56] == LastPrefix(message)
      ensures RegsOf(state[..]) == HashBlocks(PaddedBody(message))
    {
      hide HashBlocks, Compress, Tail, Whole, Padded;
      if datalen < 56 {
        PadTo(56);
        PaddedShort(message);
      } else {
        PadTo(64);
        assert data[..] == data[..64];
        PaddedLong(message);
        HashBlocksSnoc(Whole(message), data[..]);
        Transform(state, data);
        forall k | 0 <= k < 56 { data[k] := 0; }
        assert data[..56] == Zeros(56);
      }
    }

    /** The message length in bits, big-endian (sha256.c:135-143). */
    method PutLength()
      requires data.Length == 64
      modifies this`bitlen, data
      ensures data[..56] == old(data[..56])
      ensures bitlen == (old(bitlen) + 8 * datalen) % LENGTH_SIZE
      ensures data[56..] == ToBytes(bitlen, 8)
    {
      hide Shr, ToBytes;
      bitlen := MoreBits(bitlen, 8 * datalen);
      ShrNone(bitlen);
      data[63] := bitlen % 256;
      data[62] := Shr(bitlen, 8) % 256;
      data[61] := Shr(bitlen, 16) % 256;
      data[60] := Shr(bitlen, 24) % 256;
      data[59] := Shr(bitlen, 32) % 256;
      data[58] := Shr(bitlen, 40) % 256;
      data[57] := Shr(bitlen, 48) % 256;
      data[56] := Shr(bitlen, 56) % 256;
      forall i | 0 <= i < 8 ensures data[56 + i] == ToBytes(bitlen, 8)[i] {
        ToBytesAt(bitlen, 8, i);
      }
    }

    /** One iteration of the copy-out loop at sha256.c:148-157. */
    method WriteColumn(hash: array<byte>, i: nat)
      requires state.Length == 8 && hash.Length == 32 && i < 4
      modifies hash
      ensures forall p :: 0 <= p < 32 ==>
                hash[p] == if p % 4 == i then DigestByte(state[..], p) else old(hash[p])
    {
      hide Shr;
      hash[i] := Shr(state[0], 24 - 8 * i) % 256;
      hash[i + 4] := Shr(state[1], 24 - 8 * i) % 256;
      hash[i + 8] := Shr(state[2], 24 - 8 * i) % 256;
      hash[i + 12] := Shr(state[3], 24 - 8 * i) % 256;
      hash[i + 16] := Shr(state[4], 24 - 8 * i) % 256;
      hash[i + 20] := Shr(state[5], 24 - 8 * i) % 256;
      hash[i + 24] := Shr(state[6], 24 - 8 * i) % 256;
      hash[i + 28] := Shr(state[7], 24 - 8 * i) % 256;
    }

    /** The state copied out in big-endian order. */
    method WriteDigest(hash: array<byte>)
      requires state.Length == 8 && hash.Length == 32
      modifies hash
      ensures hash[..] == Digest(RegsOf(state[..]))
    {
      hide DigestByte;
      for i := 0 to 4
        invariant forall p :: 0 <= p < 32 && p % 4 < i ==> hash[p] == DigestByte(state[..], p)
      {
        WriteColumn(hash, i);
      }
      DigestIsBytes(state[..], hash[..]);
    }

    method Final(hash: array<byte>)
      requires Valid() && hash.Length == 32
      modifies this`bitlen, data, state, hash
      ensures hash[..] == Sha256(message)
    {
      hide HashBlocks, Compress, Tail, Whole, Padded, Digest, LENGTH_SIZE, PaddedBody, LastPrefix, ToBytes, RegsOf;
      ghost var m := message;
      TotalBits(m);
      PadBuffer();
      PutLength();
      assert data[..] == data[..56] + data[56..];
      PaddedSplit(m);
      HashBlocksSnoc(PaddedBody(m), data[..]);
      Transform(state, data);
      WriteDigest(hash);
    }
  }

  /** Initialise, update any number of times, finalise: the digest depends only on
      the concatenation of the pieces. */
  method HashChunks(chunks: seq<seq<byte>>) returns (digest: seq<byte>)
    requires forall i :: 0 <= i < |chunks| ==> |chunks[i]| < 0x1_0000_0000
    ensures digest == Sha256(Concat(chunks))
  {
    hide Sha256, HashBlocks, Tail, Whole;
    var ctx := new Context();
    for i := 0 to |chunks|
      invariant fresh(ctx) && fresh(ctx.data) && fresh(ctx.state)
      invariant ctx.Valid() && ctx.message == Concat(chunks[..i])
    {
      ctx.Update(chunks[i]);
      assert chunks[..i + 1][..i] == chunks[..i];
    }
    assert chunks[..|chunks|] == chunks;
    var hash := new byte[32];
    ctx.Final(hash);
    digest := hash[..];
  }
}
