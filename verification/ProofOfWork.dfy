/** When a nonce solves a piece of work: get_x, sha256_compare and is_valid_soln. */
module ProofOfWork {
  import opened Bits
  import opened Bytes
  import opened Uint256
  import opened Target
  import opened Sha256Spec
  import opened Sha256Stream

  type uint64 = x: int | 0 <= x < 0x1_00000000_00000000

  // ------------------------------------------------------------ comparison

  /** `sha256_compare` orders 32-byte strings as big-endian numbers. */
  method Compare(d1: array<byte>, d2: array<byte>) returns (r: int)
    requires d1.Length == 32 && d2.Length == 32
    ensures r == -1 <==> Val(d1[..]) < Val(d2[..])
    ensures r == 0 <==> Val(d1[..]) == Val(d2[..])
    ensures r == 1 <==> Val(d1[..]) > Val(d2[..])
    ensures -1 <= r <= 1
  {
    hide Val;
    for i := 0 to 32
      invariant d1[..i] == d2[..i]
    {
      if d1[i] < d2[i] {
        ValLess(d1[..], d2[..], i);
        return -1;
      } else if d1[i] > d2[i] {
        ValLess(d2[..], d1[..], i);
        return 1;
      }
    }
    assert d1[..] == d1[..32] == d2[..32] == d2[..];
    return 0;
  }

  // ------------------------------------------------------------ get_x

  /** The k low-order bytes of n, little-endian: the memory image of n. */
  function LeBytes(n: nat, k: nat): (s: seq<byte>)
    ensures |s| == k
    ensures forall i :: 0 <= i < k ==> s[i] == Shr(n, 8 * i) % 256
  {
    seq(k, i requires 0 <= i < k => Shr(n, 8 * i) % 256)
  }

  /** `ntohl(solution) != solution`: the argument is cut to 32 bits, the comparison
      is made on 64. */
  predicate LooksLittleEndian(n: uint64)
  {
    Ntohl(n % 0x1_0000_0000) != n
  }

  function XBytes(seed: buffer, n: uint64): (x: seq<byte>)
    ensures |x| == 40
  {
    seed + if LooksLittleEndian(n) then ToBytes(n, 8) else LeBytes(n, 8)
  }

  method GetX(seed: buffer, solution: uint64) returns (x: array<byte>)
    ensures fresh(x) && x.Length == 40
    ensures x[..] == XBytes(seed, solution)
  {
    hide LeBytes, ToBytes, Ntohl;
    x := new byte[40];
    forall k | 0 <= k < 32 { x[k] := seed[k]; }
    assert x[..32] == seed;
    if Ntohl(solution % 0x1_0000_0000) != solution {
      PutBigEndian(x, solution);
    } else {
      PutMemoryImage(x, solution);
    }
    assert x[..] == x[..32] + x[32..];
  }

  /** The byte loop of handler_helper.c:313-315. */
  method PutBigEndian(x: array<byte>, n: uint64)
    requires x.Length == 40
    modifies x
    ensures x[..32] == old(x[..32]) && x[32..] == ToBytes(n, 8)
  {
    hide Shr, ToBytes;
    ghost var head := x[..32];
    for i := 0 to 8
      invariant x[..32] == head
      invariant forall j :: 40 - i <= j < 40 ==> x[j] == Shr(n, 8 * (39 - j)) % 256
    {
      x[39 - i] := Shr(n, 8 * i) % 256;
    }
    forall j | 0 <= j < 8 ensures x[32 + j] == ToBytes(n, 8)[j] {
      ToBytesAt(n, 8, j);
    }
  }

  /** `memcpy(x+32, &solution, 8)` on a little-endian host. */
  method PutMemoryImage(x: array<byte>, n: uint64)
    requires x.Length == 40
    modifies x
    ensures x[..32] == old(x[..32]) && x[32..] == LeBytes(n, 8)
  {
    hide Shr;
    forall k | 32 <= k < 40 { x[k] := Shr(n, 8 * (k - 32)) % 256; }
  }

  /** Below 2^32 and the same read from either end. */
  predicate IsPalindrome(n: uint64)
  {
    n < 0x1_0000_0000 && Ntohl(n) == n
  }

  lemma LooksLittleEndianIff(n: uint64)
    ensures LooksLittleEndian(n) <==> !IsPalindrome(n)
  {
    hide Ntohl;
  }

  /** The nonce whose big-endian encoding get_x really uses. */
  function Encoded(n: uint64): (e: uint64)
  {
    if IsPalindrome(n) then n * 0x1_0000_0000 else n
  }

  lemma ShrWordBytes(n: word)
    ensures Shr(n, 8) % 256 == Byte1(n) && Shr(n, 16) % 256 == Byte2(n) && Shr(n, 24) % 256 == Byte3(n)
    ensures Shr(n, 32) == 0 && Shr(n, 40) == 0 && Shr(n, 48) == 0 && Shr(n, 56) == 0
  {
    hide Shr;
    ShrNone(n / 256);
    ShrNone(n / 256 / 256);
    ShrNone(n / 256 / 256 / 256);
    ShrByte(n, 0);
    ShrByte(n, 8);
    ShrByte(n / 256, 0);
    ShrByte(n, 16);
    ShrByte(n / 256, 8);
    ShrByte(n / 256 / 256, 0);
    Pow2At32();
    ShrFits(n, 32, 32);
    ShrFits(n, 32, 40);
    ShrFits(n, 32, 48);
    ShrFits(n, 32, 56);
  }

  /** The memory image of a palindrome reads as the palindrome moved up by 32 bits. */
  lemma PalindromeImage(p: uint64)
    requires IsPalindrome(p)
    ensures LeBytes(p, 8) == ToBytes(Encoded(p), 8)
  {
    var a, b := Byte0(p), Byte1(p);
    assert Byte3(p) == a && Byte2(p) == b;
    MemoryImage(p);
    ShiftedImage(p);
  }

  lemma MemoryImage(p: word)
    ensures LeBytes(p, 8) == [Byte0(p), Byte1(p), Byte2(p), Byte3(p), 0, 0, 0, 0]
  {
    hide Shr;
    ShrWordBytes(p);
    assert Shr(p, 0) == p by { ShrNone(p); }
  }

  lemma ShiftedImage(p: word)
    ensures ToBytes(p * 0x1_0000_0000, 8) == [Byte3(p), Byte2(p), Byte1(p), Byte0(p), 0, 0, 0, 0]
  {
    WordBytesOf(p);
    TrailingZero(p * 0x100_0000, 7);
    TrailingZero(p * 0x1_0000, 6);
    TrailingZero(p * 0x100, 5);
    TrailingZero(p, 4);
  }

  lemma TrailingZero(n: nat, k: nat)
    ensures ToBytes(256 * n, k + 1) == ToBytes(n, k) + [0]
  {
  }

  lemma WordBytesOf(p: word)
    ensures ToBytes(p, 4) == [Byte3(p), Byte2(p), Byte1(p), Byte0(p)]
  {
    assert ToBytes(p / 256 / 256 / 256, 1) == [Byte3(p)];
    assert ToBytes(p / 256 / 256, 2) == [Byte3(p), Byte2(p)];
    assert ToBytes(p / 256, 3) == [Byte3(p), Byte2(p), Byte1(p)];
  }

  lemma XBytesIsEncoding(seed: buffer, n: uint64)
    ensures XBytes(seed, n) == seed + ToBytes(Encoded(n), 8)
  {
    LooksLittleEndianIff(n);
    if IsPalindrome(n) { PalindromeImage(n); }
  }

  /** get_x appends the nonce in big-endian order for exactly the nonces that are
      zero or not byte palindromes below 2^32. */
  lemma GetXExactIff(seed: buffer, n: uint64)
    ensures XBytes(seed, n) == seed + ToBytes(n, 8) <==> n == 0 || !IsPalindrome(n)
  {
    hide ToBytes, IsPalindrome, XBytes;
    XBytesIsEncoding(seed, n);
    EncodedIff(n);
    var m := Encoded(n);
    if seed + ToBytes(m, 8) == seed + ToBytes(n, 8) {
      assert ToBytes(m, 8) == (seed + ToBytes(m, 8))[32..];
      assert ToBytes(n, 8) == (seed + ToBytes(n, 8))[32..];
      EncodingInjective(m, n);
    }
  }

  /** The palindromes are the four-byte words a, b, b, a. */
  lemma PalindromesAre(n: uint64)
    ensures IsPalindrome(n) <==> exists a: byte, b: byte :: n == Pack(a, b, b, a)
  {
    if IsPalindrome(n) {
      Unpack(n);
      assert n == Pack(Byte0(n), Byte1(n), Byte1(n), Byte0(n));
    }
  }

  /** A nonce for which the encoding fails: 0x01000001 becomes 0x0100000100000000. */
  lemma MisencodedNonce(seed: buffer) returns (p: uint64)
    ensures XBytes(seed, p) == seed + ToBytes(Encoded(p), 8) && XBytes(seed, p) != seed + ToBytes(p, 8)
    ensures p == 0x0100_0001 && IsPalindrome(p) && Encoded(p) == 0x0100_0001_0000_0000
  {
    hide XBytes, ToBytes;
    p := Pack(1, 0, 0, 1);
    XBytesIsEncoding(seed, p);
    GetXExactIff(seed, p);
  }

  lemma EncodedIff(n: uint64)
    ensures Encoded(n) == n <==> n == 0 || !IsPalindrome(n)
  {
    hide Ntohl;
  }

  lemma EncodingInjective(m: uint64, n: uint64)
    requires ToBytes(m, 8) == ToBytes(n, 8)
    ensures m == n
  {
    hide ToBytes;
    Pow2At64();
    DecodeEncode(m, 8);
    DecodeEncode(n, 8);
  }

  lemma Pow2At64()
    ensures Pow2(8 * 8) == 0x1_00000000_00000000
  {
    Pow2At32();
    Pow2Add(32, 32);
  }

  // ------------------------------------------------------------ is_valid_soln

  /** The rule of the protocol: the double hash of the seed and the big-endian nonce
      is numerically below the target. */
  predicate Solves(target: buffer, seed: buffer, n: uint64)
  {
    Val(Sha256(Sha256(seed + ToBytes(n, 8)))) < Val(target)
  }

  /** What is_valid_soln answers -1 to. */
  predicate Accepted(target: buffer, seed: buffer, n: uint64)
  {
    Val(Sha256(Sha256(XBytes(seed, n)))) < Val(target)
  }

  method IsValidSoln(target: array<byte>, seed: buffer, solution: uint64) returns (r: int)
    requires target.Length == 32
    ensures r == -1 <==> Val(Sha256(Sha256(seed + ToBytes(Encoded(solution), 8)))) < Val(target[..])
    ensures r == 0 <==> Val(Sha256(Sha256(seed + ToBytes(Encoded(solution), 8)))) == Val(target[..])
    ensures r == 1 <==> Val(Sha256(Sha256(seed + ToBytes(Encoded(solution), 8)))) > Val(target[..])
    ensures r == -1 <==> Accepted(target[..], seed, solution)
  {
    hide Sha256, Val, XBytes, ToBytes, Encoded;
    XBytesIsEncoding(seed, solution);
    var x := GetX(seed, solution);
    var buf := HashOf(x[..]);
    buf := HashOf(buf[..]);
    r := Compare(buf, target);
  }

  /** sha256_init, one sha256_update, sha256_final. */
  method HashOf(input: seq<byte>) returns (buf: array<byte>)
    requires |input| < 0x1_0000_0000
    ensures fresh(buf) && buf.Length == 32 && buf[..] == Sha256(input)
  {
    hide Sha256, HashBlocks, Tail, Whole;
    var ctx := new Context();
    ctx.Update(input);
    assert [] + input == input;
    buf := new byte[32];
    ctx.Final(buf);
  }

  /** The check is the protocol's rule for the nonce that get_x encodes, so it
      follows the rule for every nonce but the non-zero palindromes. */
  lemma AcceptedSolves(target: buffer, seed: buffer, n: uint64)
    ensures Accepted(target, seed, n) <==> Val(Sha256(Sha256(seed + ToBytes(Encoded(n), 8)))) < Val(target)
    ensures Accepted(target, seed, n) <==> Solves(target, seed, Encoded(n))
    ensures n == 0 || !IsPalindrome(n) ==> Encoded(n) == n
  {
    hide Sha256, Val, ToBytes, XBytes, IsPalindrome;
    XBytesIsEncoding(seed, n);
  }
}
