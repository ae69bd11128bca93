/** The table of primes that the constants of SHA-256 are taken from holds the first
    sixty-four prime numbers, in order. */
module Primes {
  import opened Bits
  import opened Sha256Constants

  ghost predicate Divides(d: nat, n: nat)
  {
    exists e: nat :: d * e == n
  }

  ghost predicate IsPrime(n: nat)
  {
    n >= 2 && forall d: nat :: 2 <= d < n ==> !Divides(d, n)
  }

  /** No prime up to 17 divides n, unless it is n. */
  predicate Sieved(n: nat)
  {
    && (n == 2 || n % 2 != 0) && (n == 3 || n % 3 != 0) && (n == 5 || n % 5 != 0) && (n == 7 || n % 7 != 0)
    && (n == 11 || n % 11 != 0) && (n == 13 || n % 13 != 0) && (n == 17 || n % 17 != 0)
  }

  lemma DividesMod(d: nat, n: nat)
    requires 0 < d && n % d == 0
    ensures Divides(d, n)
  {
    assert d * (n / d) == n;
  }

  lemma PrimeIsSieved(n: nat)
    requires IsPrime(n)
    ensures Sieved(n)
  {
    NotMultiple(n, 2);
    NotMultiple(n, 3);
    NotMultiple(n, 5);
    NotMultiple(n, 7);
    NotMultiple(n, 11);
    NotMultiple(n, 13);
    NotMultiple(n, 17);
  }

  lemma NotMultiple(n: nat, q: nat)
    requires IsPrime(n) && q >= 2
    ensures n == q || n % q != 0
  {
    if n % q == 0 {
      DividesMod(q, n);
      assert q >= n;
    }
  }

  /** A small factor of a number is even or a multiple of an odd prime up to 17. */
  lemma SmallFactor(n: nat, d: nat, e: nat)
    requires n == d * e && 2 <= d <= 18 && 2 <= e
    ensures !Sieved(n)
  {
    if d % 2 == 0 { Multiple(n, d, e, 2); }
    else if d % 3 == 0 { Multiple(n, d, e, 3); }
    else if d % 5 == 0 { Multiple(n, d, e, 5); }
    else if d == 7 { Multiple(n, d, e, 7); }
    else if d == 11 { Multiple(n, d, e, 11); }
    else if d == 13 { Multiple(n, d, e, 13); }
    else { Multiple(n, d, e, 17); }
  }

  lemma Multiple(n: nat, d: nat, e: nat, q: nat)
    requires n == d * e && q >= 2 && d % q == 0 && d > 0 && e >= 2
    ensures n % q == 0 && n > q
  {
    var f := d / q;
    assert d == q * f;
    assert n == q * (f * e);
    assert f * e >= 2 by { Grows(f, e); }
    ModOfMultiple(q, f * e);
  }

  lemma Grows(f: nat, e: nat)
    requires f >= 1 && e >= 2
    ensures f * e >= 2
  {
  }

  lemma ModOfMultiple(q: nat, k: nat)
    requires q >= 2 && k >= 2
    ensures (q * k) % q == 0 && q * k > q
  {
    assert q * k == k * q;
    DivModUnique(q * k, q, k, 0);
    MulLower(1, k, q);
  }

  /** Below 19 * 19 the sieve leaves the primes. */
  lemma SievedIsPrime(n: nat)
    requires 2 <= n < 361 && Sieved(n)
    ensures IsPrime(n)
  {
    forall d: nat | 2 <= d < n ensures !Divides(d, n) {
      forall e: nat ensures d * e != n {
        if d * e == n { Cofactor(n, d, e); }
      }
    }
  }

  lemma Cofactor(n: nat, d: nat, e: nat)
    requires n == d * e && 2 <= d < n < 361
    ensures !Sieved(n)
  {
    assert e >= 2;
    if d <= 18 {
      SmallFactor(n, d, e);
    } else if e <= 18 {
      SmallFactor(n, e, d);
    } else {
      LargeProduct(d, e);
    }
  }

  lemma LargeProduct(d: nat, e: nat)
    requires d >= 19 && e >= 19
    ensures d * e >= 361
  {
    assert (d - 19) * (e - 19) >= 0;
  }

  // ------------------------------------------------------------ the table

  /** What 2, 3 and 5 leave. */
  predicate OnWheel(n: nat)
  {
    var r := n % 30;
    r == 1 || r == 7 || r == 11 || r == 13 || r == 17 || r == 19 || r == 23 || r == 29
  }

  lemma SievedOnWheel(n: nat)
    requires Sieved(n) && n > 5
    ensures OnWheel(n)
  {
    RestMod(n, 2, 15, 30);
    RestMod(n, 3, 10, 30);
    RestMod(n, 5, 6, 30);
    Residues(n % 30);
  }

  lemma RestMod(n: nat, d: nat, k: nat, m: nat)
    requires d > 0 && m == d * k && m > 0
    ensures (n % m) % d == n % d
  {
    var q, r := Divide(n, m);
    DivModUnique(n, m, q, r);
    var a, b := Divide(r, d);
    DivModUnique(r, d, a, b);
    assert n == (q * k + a) * d + b;
    DivModUnique(n, d, q * k + a, b);
  }

  lemma Residues(r: nat)
    requires r < 30 && r % 2 != 0 && r % 3 != 0 && r % 5 != 0
    ensures OnWheel(r)
  {
  }

  predicate InRow(r: nat, n: nat)
    requires r < 8
  {
    var p := PrimeRow(r);
    n == p[0] || n == p[1] || n == p[2] || n == p[3] || n == p[4] || n == p[5] || n == p[6] || n == p[7]
  }

  lemma Row0(n: nat)
    requires 2 <= n <= 19
    ensures Sieved(n) <==> InRow(0, n)
  {
    if Sieved(n) && n > 5 { SievedOnWheel(n); }
    assert n == 30 * (n / 30) + n % 30;
  }

  lemma Row1(n: nat)
    requires 20 <= n <= 53
    ensures Sieved(n) <==> InRow(1, n)
  {
    if Sieved(n) && n > 5 { SievedOnWheel(n); }
    assert n == 30 * (n / 30) + n % 30;
  }

  lemma Row2(n: nat)
    requires 54 <= n <= 89
    ensures Sieved(n) <==> InRow(2, n)
  {
    if Sieved(n) && n > 5 { SievedOnWheel(n); }
    assert n == 30 * (n / 30) + n % 30;
  }

  lemma Row3(n: nat)
    requires 90 <= n <= 131
    ensures Sieved(n) <==> InRow(3, n)
  {
    if Sieved(n) && n > 5 { SievedOnWheel(n); }
    assert n == 30 * (n / 30) + n % 30;
  }

  lemma Row4(n: nat)
    requires 132 <= n <= 173
    ensures Sieved(n) <==> InRow(4, n)
  {
    if Sieved(n) && n > 5 { SievedOnWheel(n); }
    assert n == 30 * (n / 30) + n % 30;
  }

  lemma Row5(n: nat)
    requires 174 <= n <= 223
    ensures Sieved(n) <==> InRow(5, n)
  {
    if Sieved(n) && n > 5 { SievedOnWheel(n); }
    assert n == 30 * (n / 30) + n % 30;
  }

  lemma Row6(n: nat)
    requires 224 <= n <= 263
    ensures Sieved(n) <==> InRow(6, n)
  {
    if Sieved(n) && n > 5 { SievedOnWheel(n); }
    assert n == 30 * (n / 30) + n % 30;
  }

  lemma Row7(n: nat)
    requires 264 <= n <= 311
    ensures Sieved(n) <==> InRow(7, n)
  {
    if Sieved(n) && n > 5 { SievedOnWheel(n); }
    assert n == 30 * (n / 30) + n % 30;
  }

  /** The table holds n. */
  ghost predicate InTable(n: nat)
  {
    exists t: nat :: t < 64 && Prime(t) == n
  }

  lemma RowsAreTable(n: nat)
    ensures InTable(n) <==> exists r: nat :: r < 8 && InRow(r, n)
  {
    hide PrimeRow;
    if InTable(n) {
      var t: nat :| t < 64 && Prime(t) == n;
      assert InRow(t / 8, n);
    }
    if r: nat :| r < 8 && InRow(r, n) {
      var k: nat :| k < 8 && n == PrimeRow(r)[k];
      var t := 8 * r + k;
      assert t / 8 == r && t % 8 == k;
      assert Prime(t) == n;
    }
  }

  /** The row that a number up to 311 would be in. */
  function RowOf(n: nat): (r: nat)
    ensures r < 8
  {
    if n <= 19 then 0 else if n <= 53 then 1 else if n <= 89 then 2 else if n <= 131 then 3
    else if n <= 173 then 4 else if n <= 223 then 5 else if n <= 263 then 6 else 7
  }

  lemma InRowOf(r: nat, n: nat)
    requires r < 8 && InRow(r, n)
    ensures r == RowOf(n)
  {
  }

  lemma SieveLeavesRow(n: nat)
    requires 2 <= n <= 311
    ensures Sieved(n) <==> InRow(RowOf(n), n)
  {
    hide Sieved, InRow;
    match RowOf(n)
    case 0 => Row0(n);
    case 1 => Row1(n);
    case 2 => Row2(n);
    case 3 => Row3(n);
    case 4 => Row4(n);
    case 5 => Row5(n);
    case 6 => Row6(n);
    case _ => Row7(n);
  }

  /** Up to 311 the primes are the numbers of the table. */
  lemma TableIsPrimes(n: nat)
    requires n <= 311
    ensures IsPrime(n) <==> InTable(n)
  {
    hide Sieved, IsPrime, InTable, InRow;
    RowsAreTable(n);
    if r: nat :| r < 8 && InRow(r, n) { InRowOf(r, n); }
    if n >= 2 {
      SieveLeavesRow(n);
      if IsPrime(n) { PrimeIsSieved(n); }
      if Sieved(n) { SievedIsPrime(n); }
    } else {
      TooSmall(n);
    }
  }

  lemma TooSmall(n: nat)
    requires n < 2
    ensures !IsPrime(n) && forall r: nat :: r < 8 ==> !InRow(r, n)
  {
  }

  /** The table is increasing, so that entry t is prime number t, and 311 is the last. */
  lemma TableIncreases(t: nat)
    requires t < 63
    ensures Prime(t) < Prime(t + 1) <= 311
  {
    hide PrimeRow;
    var r, k := t / 8, t % 8;
    if k < 7 {
      assert (t + 1) / 8 == r && (t + 1) % 8 == k + 1;
      RowIncreases(r, k);
    } else {
      assert (t + 1) / 8 == r + 1 && (t + 1) % 8 == 0;
      RowsIncrease(r);
    }
  }

  lemma RowIncreases(r: nat, k: nat)
    requires r < 8 && k < 7
    ensures PrimeRow(r)[k] < PrimeRow(r)[k + 1] <= 311
  {
  }

  lemma RowsIncrease(r: nat)
    requires r < 7
    ensures PrimeRow(r)[7] < PrimeRow(r + 1)[0] <= 311
  {
  }

  /** Round constant t and, for t < 8, word t of the initial hash value come from prime
      number t: it is prime, and the primes below it are the earlier entries. */
  lemma ConstantsComeFromFirstPrimes(t: nat, n: nat)
    requires t < 64
    ensures IsPrime(Prime(t)) && IsCubeRootFraction(Prime(t), K(t))
    ensures t < 8 ==> |H0| == 8 && IsSquareRootFraction(Prime(t), H0[t])
    ensures n < Prime(t) ==> (IsPrime(n) <==> exists s: nat :: s < t && Prime(s) == n)
  {
    hide Prime, IsPrime, K, H0, IsCubeRootFraction, IsSquareRootFraction;
    KIsCubeRootOfPrime(t);
    if t < 8 { H0IsSquareRootOfPrime(t); }
    TableBelow(t, 63);
    TableIsPrimes(Prime(t));
    assert InTable(Prime(t));
    if n < Prime(t) {
      TableIsPrimes(n);
      if InTable(n) {
        var s: nat :| s < 64 && Prime(s) == n;
        if s >= t { TableBelow(t, s); }
      }
    }
  }

  lemma {:induction false} TableBelow(s: nat, t: nat)
    requires s <= t < 64
    ensures Prime(s) <= Prime(t) <= 311
    decreases t - s
  {
    hide Prime;
    if s < t {
      TableIncreases(t - 1);
      TableBelow(s, t - 1);
    } else if t < 63 {
      TableIncreases(t);
    } else {
      TableIncreases(t - 1);
    }
  }
}
