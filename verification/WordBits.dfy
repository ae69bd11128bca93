/** The word operations of SHA-256 read bit by bit: what section 4.1.2 of FIPS 180-2
    says each of them puts in each of the 32 places. */
module WordBits {
  import opened Bits
  import opened Bytes
  import opened Sha256Spec

  /** Bit i of x; bit 0 is the least significant. */
  predicate Bit(x: nat, i: nat)
    decreases i
  {
    if i == 0 then x % 2 == 1 else Bit(x / 2, i - 1)
  }

  /** An exclusive or of three. */
  predicate Odd3(p: bool, q: bool, r: bool)
  {
    (p != q) != r
  }

  /** The bits decide the number. */
  lemma {:induction false} SameBits(n: nat, x: nat, y: nat)
    requires x < Pow2(n) && y < Pow2(n)
    requires forall i: nat :: i < n ==> Bit(x, i) == Bit(y, i)
    ensures x == y
  {
    if n > 0 {
      assert Bit(x, 0) == Bit(y, 0);
      forall i: nat | i < n - 1 ensures Bit(x / 2, i) == Bit(y / 2, i) {
        assert Bit(x, i + 1) == Bit(y, i + 1);
      }
      SameBits(n - 1, x / 2, y / 2);
    }
  }

  lemma {:induction false} BitOfAnd(n: nat, x: nat, y: nat, i: nat)
    requires i < n && x < Pow2(n) && y < Pow2(n)
    ensures Bit(BitAnd(n, x, y), i) <==> Bit(x, i) && Bit(y, i)
  {
    if i > 0 { BitOfAnd(n - 1, x / 2, y / 2, i - 1); }
  }

  lemma {:induction false} BitOfOr(n: nat, x: nat, y: nat, i: nat)
    requires i < n && x < Pow2(n) && y < Pow2(n)
    ensures Bit(BitOr(n, x, y), i) <==> Bit(x, i) || Bit(y, i)
  {
    if i > 0 { BitOfOr(n - 1, x / 2, y / 2, i - 1); }
  }

  lemma {:induction false} BitOfXor(n: nat, x: nat, y: nat, i: nat)
    requires i < n && x < Pow2(n) && y < Pow2(n)
    ensures Bit(BitXor(n, x, y), i) <==> Bit(x, i) != Bit(y, i)
  {
    if i > 0 { BitOfXor(n - 1, x / 2, y / 2, i - 1); }
  }

  lemma {:induction false} BitOfOnesMinus(n: nat, x: nat, i: nat)
    requires i < n && x < Pow2(n)
    ensures Bit(Pow2(n) - 1 - x, i) <==> !Bit(x, i)
  {
    assert (Pow2(n) - 1 - x) / 2 == Pow2(n - 1) - 1 - x / 2;
    if i > 0 { BitOfOnesMinus(n - 1, x / 2, i - 1); }
  }

  lemma {:induction false} BitOfShr(x: nat, k: nat, i: nat)
    ensures Bit(Shr(x, k), i) == Bit(x, i + k)
  {
    if k > 0 { BitOfShr(x / 2, k - 1, i); }
  }

  lemma {:induction false} BitOfShl(x: nat, k: nat, i: nat)
    ensures Bit(Shl(x, k), i) <==> i >= k && Bit(x, i - k)
    decreases k
  {
    if k > 0 {
      assert Shl(x, k) / 2 == Shl(x, k - 1);
      if i > 0 { BitOfShl(x, k - 1, i - 1); }
    }
  }

  /** Dropping the bits from place n upwards keeps those below. */
  lemma {:induction false} BitOfMod(x: nat, n: nat, i: nat)
    requires i < n
    ensures Bit(x % Pow2(n), i) == Bit(x, i)
  {
    HalfOfMod(x, n);
    if i > 0 { BitOfMod(x / 2, n - 1, i - 1); }
  }

  lemma HalfOfMod(x: nat, n: nat)
    requires n > 0
    ensures (x % Pow2(n)) / 2 == (x / 2) % Pow2(n - 1) && (x % Pow2(n)) % 2 == x % 2
  {
    hide Pow2;
    var p := Pow2(n - 1);
    var q, r := Divide(x / 2, p);
    assert Pow2(n) == 2 * p by { Doubled(n); }
    assert x == q * (2 * p) + (2 * r + x % 2) by { assert q * (2 * p) == 2 * (q * p); }
    DivModUnique(x, 2 * p, q, 2 * r + x % 2);
  }

  lemma Doubled(n: nat)
    requires n > 0
    ensures Pow2(n) == 2 * Pow2(n - 1)
  {
  }

  /** Places at or above the width of a number hold no bit. */
  lemma {:induction false} NoBitAbove(x: nat, n: nat, i: nat)
    requires x < Pow2(n) && i >= n
    ensures !Bit(x, i)
    decreases i
  {
    if i > 0 { NoBitAbove(x / 2, if n == 0 then 0 else n - 1, i - 1); }
  }

  // ------------------------------------------------------------ words

  lemma WordBit(x: word, y: word, i: nat)
    requires i < 32
    ensures Bit(And32(x, y), i) <==> Bit(x, i) && Bit(y, i)
    ensures Bit(Or32(x, y), i) <==> Bit(x, i) || Bit(y, i)
    ensures Bit(Xor32(x, y), i) <==> Bit(x, i) != Bit(y, i)
    ensures Bit(Not32(x), i) <==> !Bit(x, i)
  {
    hide Bit, Pow2, BitAnd, BitOr, BitXor;
    Pow2At32();
    BitOfAnd(32, x, y, i);
    BitOfOr(32, x, y, i);
    BitOfXor(32, x, y, i);
    BitOfOnesMinus(32, x, i);
  }

  /** Bit i of a word shifted right comes from n places above, where there is one. */
  lemma ShrBit(x: word, n: nat, i: nat)
    requires i < 32
    ensures Bit(Shr32(x, n), i) <==> i + n < 32 && Bit(x, i + n)
  {
    hide Bit, Pow2, Shr;
    Pow2At32();
    BitOfShr(x, n, i);
    if i + n >= 32 { NoBitAbove(x, 32, i + n); }
  }

  lemma ShlBit(x: word, n: nat, i: nat)
    requires i < 32
    ensures Bit(Shl32(x, n), i) <==> i >= n && Bit(x, i - n)
  {
    hide Bit, Pow2, Shl;
    Pow2At32();
    BitOfShl(x, n, i);
    BitOfMod(Shl(x, n), 32, i);
  }

  /** Bit i of a word rotated right by n is its bit i + n, counted around the word. */
  lemma RotrBit(x: word, n: nat, i: nat)
    requires i < 32 && n <= 32
    ensures Bit(Rotr(x, n), i) == Bit(x, (i + n) % 32)
  {
    hide Bit, Shr32, Shl32, Or32;
    WordBit(Shr32(x, n), Shl32(x, 32 - n), i);
    ShrBit(x, n, i);
    ShlBit(x, 32 - n, i);
  }

  /** Ch chooses: y where x has a one, z where it has a zero. */
  lemma ChBit(x: word, y: word, z: word, i: nat)
    requires i < 32
    ensures Bit(Ch(x, y, z), i) == if Bit(x, i) then Bit(y, i) else Bit(z, i)
  {
    hide Bit, And32, Xor32, Not32;
    WordBit(x, y, i);
    WordBit(Not32(x), z, i);
    WordBit(And32(x, y), And32(Not32(x), z), i);
  }

  /** How many of three bits are set. */
  function Votes(p: bool, q: bool, r: bool): (n: nat)
  {
    (if p then 1 else 0) + (if q then 1 else 0) + (if r then 1 else 0)
  }

  lemma MajBit(x: word, y: word, z: word, i: nat)
    requires i < 32
    ensures Bit(Maj(x, y, z), i) <==> Votes(Bit(x, i), Bit(y, i), Bit(z, i)) >= 2
  {
    hide Bit, And32, Xor32;
    WordBit(x, y, i);
    WordBit(x, z, i);
    WordBit(y, z, i);
    WordBit(And32(x, y), And32(x, z), i);
    WordBit(Xor32(And32(x, y), And32(x, z)), And32(y, z), i);
  }

  lemma Xor3Bit(x: word, y: word, z: word, i: nat)
    requires i < 32
    ensures Bit(Xor32(Xor32(x, y), z), i) <==> Odd3(Bit(x, i), Bit(y, i), Bit(z, i))
  {
    hide Bit, Xor32;
    WordBit(x, y, i);
    WordBit(Xor32(x, y), z, i);
  }

  /** The four sigma functions of section 4.1.2, place by place. */
  lemma SigmaBits(x: word, i: nat)
    requires i < 32
    ensures Bit(BigSigma0(x), i) == Odd3(Bit(x, (i + 2) % 32), Bit(x, (i + 13) % 32), Bit(x, (i + 22) % 32))
    ensures Bit(BigSigma1(x), i) == Odd3(Bit(x, (i + 6) % 32), Bit(x, (i + 11) % 32), Bit(x, (i + 25) % 32))
    ensures Bit(SmallSigma0(x), i) == Odd3(Bit(x, (i + 7) % 32), Bit(x, (i + 18) % 32), i + 3 < 32 && Bit(x, i + 3))
    ensures Bit(SmallSigma1(x), i) == Odd3(Bit(x, (i + 17) % 32), Bit(x, (i + 19) % 32), i + 10 < 32 && Bit(x, i + 10))
  {
    hide Bit, Xor32, Rotr, Shr32;
    Xor3Bit(Rotr(x, 2), Rotr(x, 13), Rotr(x, 22), i);
    Xor3Bit(Rotr(x, 6), Rotr(x, 11), Rotr(x, 25), i);
    Xor3Bit(Rotr(x, 7), Rotr(x, 18), Shr32(x, 3), i);
    Xor3Bit(Rotr(x, 17), Rotr(x, 19), Shr32(x, 10), i);
    RotrBit(x, 2, i);
    RotrBit(x, 13, i);
    RotrBit(x, 22, i);
    RotrBit(x, 6, i);
    RotrBit(x, 11, i);
    RotrBit(x, 25, i);
    RotrBit(x, 7, i);
    RotrBit(x, 18, i);
    RotrBit(x, 17, i);
    RotrBit(x, 19, i);
    ShrBit(x, 3, i);
    ShrBit(x, 10, i);
  }
}
