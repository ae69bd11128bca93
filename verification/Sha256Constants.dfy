/** The constants of SHA-256 and where they come from: sections 4.2.2 and 5.3.2 of
    FIPS 180-2 define them by roots of the first primes. */
module Sha256Constants {
  import opened Bytes

  function KRow(r: nat): (s: seq<word>)
    requires r < 8
    ensures |s| == 8
  {
    match r
    case 0 => [0x428a2f98, 0x71374491, 0xb5c0fbcf, 0xe9b5dba5, 0x3956c25b, 0x59f111f1, 0x923f82a4, 0xab1c5ed5]
    case 1 => [0xd807aa98, 0x12835b01, 0x243185be, 0x550c7dc3, 0x72be5d74, 0x80deb1fe, 0x9bdc06a7, 0xc19bf174]
    case 2 => [0xe49b69c1, 0xefbe4786, 0x0fc19dc6, 0x240ca1cc, 0x2de92c6f, 0x4a7484aa, 0x5cb0a9dc, 0x76f988da]
    case 3 => [0x983e5152, 0xa831c66d, 0xb00327c8, 0xbf597fc7, 0xc6e00bf3, 0xd5a79147, 0x06ca6351, 0x14292967]
    case 4 => [0x27b70a85, 0x2e1b2138, 0x4d2c6dfc, 0x53380d13, 0x650a7354, 0x766a0abb, 0x81c2c92e, 0x92722c85]
    case 5 => [0xa2bfe8a1, 0xa81a664b, 0xc24b8b70, 0xc76c51a3, 0xd192e819, 0xd6990624, 0xf40e3585, 0x106aa070]
    case 6 => [0x19a4c116, 0x1e376c08, 0x2748774c, 0x34b0bcb5, 0x391c0cb3, 0x4ed8aa4a, 0x5b9cca4f, 0x682e6ff3]
    case _ => [0x748f82ee, 0x78a5636f, 0x84c87814, 0x8cc70208, 0x90befffa, 0xa4506ceb, 0xbef9a3f7, 0xc67178f2]
  }

  /** The round constants (sha256.c:32-41) */
  function K(t: nat): (k: word)
    requires t < 64
  {
    KRow(t / 8)[t % 8]
  }

  function PrimeRow(r: nat): (s: seq<nat>)
    requires r < 8
    ensures |s| == 8
  {
    match r
    case 0 => [2, 3, 5, 7, 11, 13, 17, 19]
    case 1 => [23, 29, 31, 37, 41, 43, 47, 53]
    case 2 => [59, 61, 67, 71, 73, 79, 83, 89]
    case 3 => [97, 101, 103, 107, 109, 113, 127, 131]
    case 4 => [137, 139, 149, 151, 157, 163, 167, 173]
    case 5 => [179, 181, 191, 193, 197, 199, 211, 223]
    case 6 => [227, 229, 233, 239, 241, 251, 257, 263]
    case _ => [269, 271, 277, 281, 283, 293, 307, 311]
  }

  /** The first sixty-four prime numbers */
  function Prime(t: nat): (p: nat)
    requires t < 64
  {
    PrimeRow(t / 8)[t % 8]
  }

  /** whole + bits / 2^32 is the cube root of p, cut off after 32 fractional bits. */
  predicate CubeRoot(p: nat, whole: nat, bits: word)
  {
    var c: int := whole * 0x1_0000_0000 + bits;
    c * c * c <= p * 0x1_00000000_00000000_00000000 < (c + 1) * (c + 1) * (c + 1)
  }

  predicate SquareRoot(p: nat, whole: nat, bits: word)
  {
    var c: int := whole * 0x1_0000_0000 + bits;
    c * c <= p * 0x1_00000000_00000000 < (c + 1) * (c + 1)
  }

  ghost predicate IsCubeRootFraction(p: nat, bits: word)
  {
    exists whole: nat :: CubeRoot(p, whole, bits)
  }

  ghost predicate IsSquareRootFraction(p: nat, bits: word)
  {
    exists whole: nat :: SquareRoot(p, whole, bits)
  }

  lemma Row0(t: nat)
    requires 0 <= t < 8
    ensures IsCubeRootFraction(Prime(t), K(t))
  {
    assert CubeRoot(2, 1, 0x428a2f98);
    assert CubeRoot(3, 1, 0x71374491);
    assert CubeRoot(5, 1, 0xb5c0fbcf);
    assert CubeRoot(7, 1, 0xe9b5dba5);
    assert CubeRoot(11, 2, 0x3956c25b);
    assert CubeRoot(13, 2, 0x59f111f1);
    assert CubeRoot(17, 2, 0x923f82a4);
    assert CubeRoot(19, 2, 0xab1c5ed5);
  }

  lemma Row1(t: nat)
    requires 8 <= t < 16
    ensures IsCubeRootFraction(Prime(t), K(t))
  {
    assert CubeRoot(23, 2, 0xd807aa98);
    assert CubeRoot(29, 3, 0x12835b01);
    assert CubeRoot(31, 3, 0x243185be);
    assert CubeRoot(37, 3, 0x550c7dc3);
    assert CubeRoot(41, 3, 0x72be5d74);
    assert CubeRoot(43, 3, 0x80deb1fe);
    assert CubeRoot(47, 3, 0x9bdc06a7);
    assert CubeRoot(53, 3, 0xc19bf174);
  }

  lemma Row2(t: nat)
    requires 16 <= t < 24
    ensures IsCubeRootFraction(Prime(t), K(t))
  {
    assert CubeRoot(59, 3, 0xe49b69c1);
    assert CubeRoot(61, 3, 0xefbe4786);
    assert CubeRoot(67, 4, 0x0fc19dc6);
    assert CubeRoot(71, 4, 0x240ca1cc);
    assert CubeRoot(73, 4, 0x2de92c6f);
    assert CubeRoot(79, 4, 0x4a7484aa);
    assert CubeRoot(83, 4, 0x5cb0a9dc);
    assert CubeRoot(89, 4, 0x76f988da);
  }

  lemma Row3(t: nat)
    requires 24 <= t < 32
    ensures IsCubeRootFraction(Prime(t), K(t))
  {
    assert CubeRoot(97, 4, 0x983e5152);
    assert CubeRoot(101, 4, 0xa831c66d);
    assert CubeRoot(103, 4, 0xb00327c8);
    assert CubeRoot(107, 4, 0xbf597fc7);
    assert CubeRoot(109, 4, 0xc6e00bf3);
    assert CubeRoot(113, 4, 0xd5a79147);
    assert CubeRoot(127, 5, 0x06ca6351);
    assert CubeRoot(131, 5, 0x14292967);
  }

  lemma Row4(t: nat)
    requires 32 <= t < 40
    ensures IsCubeRootFraction(Prime(t), K(t))
  {
    assert CubeRoot(137, 5, 0x27b70a85);
    assert CubeRoot(139, 5, 0x2e1b2138);
    assert CubeRoot(149, 5, 0x4d2c6dfc);
    assert CubeRoot(151, 5, 0x53380d13);
    assert CubeRoot(157, 5, 0x650a7354);
    assert CubeRoot(163, 5, 0x766a0abb);
    assert CubeRoot(167, 5, 0x81c2c92e);
    assert CubeRoot(173, 5, 0x92722c85);
  }

  lemma Row5(t: nat)
    requires 40 <= t < 48
    ensures IsCubeRootFraction(Prime(t), K(t))
  {
    assert CubeRoot(179, 5, 0xa2bfe8a1);
    assert CubeRoot(181, 5, 0xa81a664b);
    assert CubeRoot(191, 5, 0xc24b8b70);
    assert CubeRoot(193, 5, 0xc76c51a3);
    assert CubeRoot(197, 5, 0xd192e819);
    assert CubeRoot(199, 5, 0xd6990624);
    assert CubeRoot(211, 5, 0xf40e3585);
    assert CubeRoot(223, 6, 0x106aa070);
  }

  lemma Row6(t: nat)
    requires 48 <= t < 56
    ensures IsCubeRootFraction(Prime(t), K(t))
  {
    assert CubeRoot(227, 6, 0x19a4c116);
    assert CubeRoot(229, 6, 0x1e376c08);
    assert CubeRoot(233, 6, 0x2748774c);
    assert CubeRoot(239, 6, 0x34b0bcb5);
    assert CubeRoot(241, 6, 0x391c0cb3);
    assert CubeRoot(251, 6, 0x4ed8aa4a);
    assert CubeRoot(257, 6, 0x5b9cca4f);
    assert CubeRoot(263, 6, 0x682e6ff3);
  }

  lemma Row7(t: nat)
    requires 56 <= t < 64
    ensures IsCubeRootFraction(Prime(t), K(t))
  {
    assert CubeRoot(269, 6, 0x748f82ee);
    assert CubeRoot(271, 6, 0x78a5636f);
    assert CubeRoot(277, 6, 0x84c87814);
    assert CubeRoot(281, 6, 0x8cc70208);
    assert CubeRoot(283, 6, 0x90befffa);
    assert CubeRoot(293, 6, 0xa4506ceb);
    assert CubeRoot(307, 6, 0xbef9a3f7);
    assert CubeRoot(311, 6, 0xc67178f2);
  }

  /** Round constant t holds the first thirty-two bits of the fractional part of the
      cube root of prime number t (section 4.2.2 of FIPS 180-2). */
  lemma KIsCubeRootOfPrime(t: nat)
    requires t < 64
    ensures IsCubeRootFraction(Prime(t), K(t))
  {
    hide K, Prime, IsCubeRootFraction;
    if t < 8 { Row0(t); } else if t < 16 { Row1(t); } else if t < 24 { Row2(t); } else if t < 32 { Row3(t); }
    else if t < 40 { Row4(t); } else if t < 48 { Row5(t); } else if t < 56 { Row6(t); } else { Row7(t); }
  }

  /** The initial hash value (sha256.c:89-96) */
  const H0: seq<word> := [0x6a09e667, 0xbb67ae85, 0x3c6ef372, 0xa54ff53a,
                          0x510e527f, 0x9b05688c, 0x1f83d9ab, 0x5be0cd19]

  /** Word i of the initial hash value holds the first thirty-two fractional bits of
      the square root of prime number i (section 5.3.2 of FIPS 180-2). */
  lemma H0IsSquareRootOfPrime(i: nat)
    requires i < 8
    ensures |H0| == 8
    ensures IsSquareRootFraction(Prime(i), H0[i])
  {
    assert SquareRoot(2, 1, 0x6a09e667);
    assert SquareRoot(3, 1, 0xbb67ae85);
    assert SquareRoot(5, 2, 0x3c6ef372);
    assert SquareRoot(7, 2, 0xa54ff53a);
    assert SquareRoot(11, 3, 0x510e527f);
    assert SquareRoot(13, 3, 0x9b05688c);
    assert SquareRoot(17, 4, 0x1f83d9ab);
    assert SquareRoot(19, 4, 0x5be0cd19);
  }
}
