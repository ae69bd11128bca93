/** Powers of two, and the C shift and bitwise operators on unsigned integers of a
    given width. */
module Bits {

  function Pow2(n: nat): (r: nat)
    ensures r >= 1
  {
    if n == 0 then 1 else 2 * Pow2(n - 1)
  }

  /** `x << k` before truncation to the operand width */
  function Shl(x: nat, k: nat): (r: nat)
    ensures r >= x
    decreases k + x
  {
    if k == 0 then x else 2 * Shl(x, k - 1)
  }

  /** `x >> k` */
  function Shr(x: nat, k: nat): (r: nat)
    ensures r <= x
    decreases k + x
  {
    if k == 0 then x else Shr(x / 2, k - 1)
  }

  /** `x & y` on n-bit operands */
  function BitAnd(n: nat, x: nat, y: nat): (r: nat)
    requires x < Pow2(n) && y < Pow2(n)
    ensures r < Pow2(n)
    decreases n + x + y
  {
    if n == 0 then 0 else 2 * BitAnd(n - 1, x / 2, y / 2) + (if x % 2 == 1 && y % 2 == 1 then 1 else 0)
  }

  /** `x | y` on n-bit operands */
  function BitOr(n: nat, x: nat, y: nat): (r: nat)
    requires x < Pow2(n) && y < Pow2(n)
    ensures r < Pow2(n)
    decreases n + x + y
  {
    if n == 0 then 0 else 2 * BitOr(n - 1, x / 2, y / 2) + (if x % 2 == 1 || y % 2 == 1 then 1 else 0)
  }

  /** `x ^ y` on n-bit operands */
  function BitXor(n: nat, x: nat, y: nat): (r: nat)
    requires x < Pow2(n) && y < Pow2(n)
    ensures r < Pow2(n)
    decreases n + x + y
  {
    if n == 0 then 0 else 2 * BitXor(n - 1, x / 2, y / 2) + (if x % 2 != y % 2 then 1 else 0)
  }

  // ------------------------------------------------------------ arithmetic

  lemma Pow2Zero()
    ensures Pow2(0) == 1
  {
  }

  lemma Pow2Values()
    ensures Pow2(0) == 1 && Pow2(1) == 2 && Pow2(2) == 4 && Pow2(3) == 8 && Pow2(4) == 16
    ensures Pow2(5) == 32 && Pow2(6) == 64 && Pow2(7) == 128 && Pow2(8) == 256
  {
  }

  lemma {:induction false} ShlIsMul(x: nat, k: nat)
    ensures Shl(x, k) == x * Pow2(k)
  {
    if k > 0 {
      ShlIsMul(x, k - 1);
      assert 2 * (x * Pow2(k - 1)) == x * (2 * Pow2(k - 1));
    }
  }

  lemma {:induction false} Pow2Add(a: nat, b: nat)
    ensures Pow2(a + b) == Pow2(a) * Pow2(b)
  {
    if a > 0 {
      Pow2Add(a - 1, b);
      assert 2 * (Pow2(a - 1) * Pow2(b)) == (2 * Pow2(a - 1)) * Pow2(b);
    }
  }

  lemma {:induction false} Pow2Monotone(a: nat, b: nat)
    requires a < b
    ensures 2 * Pow2(a) <= Pow2(b)
  {
    if a + 1 < b { Pow2Monotone(a, b - 1); }
  }

  lemma MulLower(x: nat, y: nat, p: nat)
    requires x < y
    ensures x * p + p <= y * p
  {
    assert y * p == (y - x - 1) * p + x * p + p;
  }

  /** Quotient and remainder are determined by q * d + r with 0 <= r < d. */
  lemma DivModUnique(n: nat, d: nat, q: nat, r: nat)
    requires r < d && n == q * d + r
    ensures n / d == q && n % d == r
  {
    var q', r' := n / d, n % d;
    assert n == q' * d + r';
    if q < q' {
      MulLower(q, q', d);
    } else if q' < q {
      MulLower(q', q, d);
    }
  }

  /** Reducing one factor first does not change the product modulo d. */
  lemma ModProduct(x: nat, y: nat, d: nat)
    requires d > 0
    ensures (x * y) % d == ((x % d) * y) % d
  {
    var q, r := Divide(x, d);
    var q', r' := Divide(r * y, d);
    Regroup(q, d, r, y, q', r');
    DivModUnique(x * y, d, q * y + q', r');
  }

  lemma Divide(x: nat, d: nat) returns (q: nat, r: nat)
    requires d > 0
    ensures x == q * d + r && r == x % d && r < d
  {
    q, r := x / d, x % d;
  }

  lemma Regroup(q: int, d: int, r: int, y: int, q': int, r': int)
    requires r * y == q' * d + r'
    ensures (q * d + r) * y == (q * y + q') * d + r'
  {
    assert (q * d + r) * y == (q * y) * d + r * y;
    assert (q * y + q') * d == (q * y) * d + q' * d;
  }

  // ------------------------------------------------------------ shifts

  lemma {:induction false} ShlZero(k: nat)
    ensures Shl(0, k) == 0
  {
    if k > 0 { ShlZero(k - 1); }
  }

  lemma {:induction false} ShlAdd(x: nat, y: nat, k: nat)
    ensures Shl(x + y, k) == Shl(x, k) + Shl(y, k)
  {
    if k > 0 { ShlAdd(x, y, k - 1); }
  }

  lemma {:induction false} ShlShl(x: nat, a: nat, b: nat)
    ensures Shl(Shl(x, a), b) == Shl(x, a + b)
  {
    if b > 0 { ShlShl(x, a, b - 1); }
  }

  lemma {:induction false} ShlFits(x: nat, n: nat, k: nat)
    ensures x < Pow2(n) <==> Shl(x, k) < Pow2(n + k)
  {
    if k > 0 { ShlFits(x, n, k - 1); }
  }

  /** Shifting left and then right is one shift by the difference. */
  lemma {:induction false} ShrShl(x: nat, a: nat, b: nat)
    ensures Shr(Shl(x, a), b) == if a >= b then Shl(x, a - b) else Shr(x, b - a)
  {
    if a > 0 && b > 0 {
      ShrShl(x, a - 1, b - 1);
    }
  }

  /** x is its high part shifted back plus its k low bits. */
  lemma {:induction false} SplitAt(x: nat, k: nat)
    ensures 0 <= x - Shl(Shr(x, k), k) < Pow2(k)
  {
    if k > 0 { SplitAt(x / 2, k - 1); }
  }

  lemma {:induction false} ShrFits(x: nat, n: nat, k: nat)
    requires x < Pow2(n)
    ensures k <= n ==> Shr(x, k) < Pow2(n - k)
    ensures k > n ==> Shr(x, k) == 0
  {
    if k > 0 { ShrFits(x / 2, if n == 0 then 0 else n - 1, k - 1); }
  }

  /** Shifting a (k + m)-bit number left by m: its k low bits stay inside, the m
      bits above them leave. */
  lemma ShlParts(x: nat, n: nat, k: nat, m: nat)
    requires n == k + m
    ensures 0 <= x - Shl(Shr(x, k), k) < Pow2(k)
    ensures Shl(x, m) == Shl(x - Shl(Shr(x, k), k), m) + Shl(Shr(x, k), n)
    ensures Shl(x - Shl(Shr(x, k), k), m) < Pow2(n)
  {
    var hi := Shr(x, k);
    SplitAt(x, k);
    var rem := x - Shl(hi, k);
    ShlAdd(Shl(hi, k), rem, m);
    ShlShl(hi, k, m);
    ShlFits(rem, k, m);
  }

  lemma ShrZeroIff(x: nat, k: nat)
    ensures Shr(x, k) == 0 <==> x < Pow2(k)
  {
    SplitAt(x, k);
    if Shr(x, k) == 0 { ShlZero(k); } else { ShlFits(Shr(x, k), 0, k); }
  }

  lemma Shl8(x: nat)
    ensures Shl(x, 8) == 256 * x
  {
    ShlIsMul(x, 8);
    assert Pow2(8) == 256;
  }

  /** High part and low bits determine the number. */
  lemma {:induction false} SplitUnique(w: nat, low: nat, h: nat, hi: nat, k: nat)
    requires low < Pow2(k) && hi < Pow2(k)
    ensures Shl(w, k) + low == Shl(h, k) + hi <==> w == h && low == hi
  {
    if k > 0 {
      SplitUnique(w, low / 2, h, hi / 2, k - 1);
    }
  }

  // ------------------------------------------------------------ bitwise facts

  lemma {:induction false} OrZero(n: nat, x: nat)
    requires x < Pow2(n)
    ensures BitOr(n, x, 0) == x
  {
    if n > 0 { OrZero(n - 1, x / 2); }
  }

  lemma {:induction false} AndZero(n: nat, x: nat)
    requires x < Pow2(n)
    ensures BitAnd(n, 0, x) == 0 && BitAnd(n, x, 0) == 0
  {
    if n > 0 { AndZero(n - 1, x / 2); }
  }

  /** Or-ing with a multiple of 2^k keeps the low k bits of the other operand and
      combines what is above them. */
  lemma {:induction false} OrAligned(n: nat, h: nat, y: nat, k: nat)
    requires k <= n && h < Pow2(n - k) && y < Pow2(n)
    ensures Shl(h, k) < Pow2(n) && Shr(y, k) < Pow2(n - k)
    ensures BitOr(n, Shl(h, k), y) == Shl(BitOr(n - k, h, Shr(y, k)), k) + (y - Shl(Shr(y, k), k))
  {
    ShrFits(y, n, k);
    if k > 0 {
      OrAligned(n - 1, h, y / 2, k - 1);
    }
  }

  /** Operands that share no bit position: `|` is addition. */
  lemma OrDisjoint(n: nat, h: nat, y: nat, k: nat)
    requires k <= n && h < Pow2(n - k) && y < Pow2(k)
    ensures Shl(h, k) < Pow2(n) && y < Pow2(n)
    ensures BitOr(n, Shl(h, k), y) == Shl(h, k) + y
  {
    if k < n { Pow2Monotone(k, n); }
    ShrFits(y, k, k);
    OrAligned(n, h, y, k);
    OrZero(n - k, h);
    ShlZero(k);
  }

  /** Masking with ones from bit k upwards clears the low k bits. */
  lemma {:induction false} AndHighMask(n: nat, x: nat, k: nat)
    requires x < Pow2(n) && k <= n
    ensures Pow2(k) <= Pow2(n)
    ensures BitAnd(n, x, Pow2(n) - Pow2(k)) == Shl(Shr(x, k), k)
  {
    if k < n { Pow2Monotone(k, n); }
    if k == 0 {
      AndOnes(n, x);
    } else {
      AndHighMask(n - 1, x / 2, k - 1);
    }
  }

  lemma {:induction false} AndOnes(n: nat, x: nat)
    requires x < Pow2(n)
    ensures BitAnd(n, x, Pow2(n) - 1) == x
  {
    if n > 0 { AndOnes(n - 1, x / 2); }
  }

  /** Testing one single-bit value against another. */
  lemma {:induction false} AndSingleBits(n: nat, i: nat, j: nat)
    requires i < n && j < n
    ensures Pow2(i) < Pow2(n) && Pow2(j) < Pow2(n)
    ensures BitAnd(n, Pow2(i), Pow2(j)) == if i == j then Pow2(i) else 0
  {
    Pow2Monotone(i, n);
    Pow2Monotone(j, n);
    if i > 0 && j > 0 {
      AndSingleBits(n - 1, i - 1, j - 1);
    } else {
      AndOne(n, i, j);
    }
  }

  lemma AndOne(n: nat, i: nat, j: nat)
    requires i < n && j < n && (i == 0 || j == 0) && Pow2(i) < Pow2(n) && Pow2(j) < Pow2(n)
    ensures BitAnd(n, Pow2(i), Pow2(j)) == if i == j then Pow2(i) else 0
  {
    hide BitAnd, Pow2;
    Pow2Zero();
    Pow2Parity(i);
    Pow2Parity(j);
    AndOneBit(n, if i == 0 then Pow2(j) else Pow2(i));
  }

  lemma Pow2Parity(k: nat)
    ensures Pow2(k) % 2 == if k == 0 then 1 else 0
  {
  }

  lemma AndOneBit(n: nat, y: nat)
    requires n > 0 && y < Pow2(n)
    ensures 1 < Pow2(n) && BitAnd(n, 1, y) == y % 2 && BitAnd(n, y, 1) == y % 2
  {
    AndZero(n - 1, y / 2);
  }
}
