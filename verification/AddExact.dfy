/** What the buffer addition of uint256.h computes: a little-endian sum always, and
    the big-endian sum its callers read exactly when no byte position overflows. */
module AddExact {
  import opened Bits
  import opened Bytes
  import opened Uint256

  // ------------------------------------------------------------ little-endian

  lemma {:induction false} LeAddSuffix(a: buffer, b: buffer, i: nat)
    requires i <= 32
    ensures LeVal(a[i..]) + LeVal(b[i..]) + CarryUp(a, b, i)
         == LeVal(AddBytes(a, b)[i..]) + Shl(CarryUp(a, b, 32), 8 * (32 - i))
    decreases 32 - i
  {
    if i < 32 {
      var r, k := AddBytes(a, b), i + 1;
      LeAddSuffix(a, b, k);
      LeCons(a, i);
      LeCons(b, i);
      LeCons(r, i);
      ShlByte(CarryUp(a, b, 32), 8 * (32 - k));
      LeSumStep(LeVal(a[k..]), LeVal(b[k..]), LeVal(r[k..]), a[i], b[i], CarryUp(a, b, i), CarryUp(a, b, k), r[i],
                Shl(CarryUp(a, b, 32), 8 * (32 - k)), Shl(CarryUp(a, b, 32), 8 * (32 - i)));
    }
  }

  lemma LeCons(s: seq<byte>, i: nat)
    requires i < |s|
    ensures LeVal(s[i..]) == s[i] + 256 * LeVal(s[i + 1..])
  {
    assert s[i..][1..] == s[i + 1..];
  }

  lemma LeSumStep(a: nat, b: nat, r: nat, x: nat, y: nat, c: nat, c': nat, z: nat, o: nat, o': nat)
    requires a + b + c' == r + o && x + y + c == z + 256 * c' && o' == 256 * o
    ensures (x + 256 * a) + (y + 256 * b) + c == z + 256 * r + o'
  {
  }

  /** Carrying from index 0 upwards adds the buffers as little-endian integers. */
  lemma AddIsLittleEndian(a: buffer, b: buffer)
    ensures LeVal(AddBytes(a, b)) == (LeVal(a) + LeVal(b)) % TWO_256
  {
    var r := AddBytes(a, b);
    var c := CarryUp(a, b, 32);
    LeAddSuffix(a, b, 0);
    assert a[0..] == a && b[0..] == b && r[0..] == r;
    LeBound(r);
    var n := 8 * |r|;
    Pow2At256(n);
    ShlIsMul(c, n);
    DivModUnique(LeVal(a) + LeVal(b), TWO_256, c, LeVal(r));
  }

  lemma {:induction false} LeBound(s: seq<byte>)
    ensures LeVal(s) < Pow2(8 * |s|)
  {
    if s != [] {
      LeBound(s[1..]);
      Pow2Byte(8 * |s[1..]|);
    }
  }

  // ------------------------------------------------------------ big-endian

  /** Carry out of byte k when carries move towards lower indices, as a sum of
      big-endian integers needs. */
  function CarryDown(a: buffer, b: buffer, k: nat): (c: nat)
    requires k <= 32
    ensures c <= 1
    decreases 32 - k
  {
    if k == 32 then 0 else (a[k] + b[k] + CarryDown(a, b, k + 1)) / 256
  }

  function SumAt(a: buffer, b: buffer, k: nat): (r: byte)
    requires k < 32
  {
    (a[k] + b[k] + CarryDown(a, b, k + 1)) % 256
  }

  function TrueSum(a: buffer, b: buffer): (r: buffer)
  {
    seq(32, k requires 0 <= k < 32 => SumAt(a, b, k))
  }

  lemma ValSnoc(s: seq<byte>, k: nat)
    requires k < |s|
    ensures Val(s[..k + 1]) == 256 * Val(s[..k]) + s[k]
  {
    assert s[..k + 1][..k] == s[..k];
  }

  lemma {:induction false} TrueSumPrefix(a: buffer, b: buffer, k: nat)
    requires k <= 32
    ensures Val(a[..k]) + Val(b[..k]) + CarryDown(a, b, k) == Val(TrueSum(a, b)[..k]) + Shl(CarryDown(a, b, 0), 8 * k)
  {
    if k > 0 {
      var r, i := TrueSum(a, b), k - 1;
      TrueSumPrefix(a, b, i);
      ValSnoc(a, i);
      ValSnoc(b, i);
      ValSnoc(r, i);
      ShlByte(CarryDown(a, b, 0), 8 * i);
      SumStep(Val(a[..i]), Val(b[..i]), Val(r[..i]), a[i], b[i], CarryDown(a, b, k), CarryDown(a, b, i), r[i],
              Shl(CarryDown(a, b, 0), 8 * i), Shl(CarryDown(a, b, 0), 8 * k));
    }
  }

  lemma SumStep(a: nat, b: nat, r: nat, x: nat, y: nat, c: nat, c': nat, z: nat, o: nat, o': nat)
    requires a + b + c' == r + o && x + y + c == z + 256 * c' && o' == 256 * o
    ensures (256 * a + x) + (256 * b + y) + c == 256 * r + z + o'
  {
  }

  lemma ValTrueSum(a: buffer, b: buffer)
    ensures Val(TrueSum(a, b)) == (Val(a) + Val(b)) % TWO_256
  {
    hide Val, TrueSum, Shl, Pow2;
    var r, k := TrueSum(a, b), |a|;
    TrueSumPrefix(a, b, k);
    assert a[..k] == a && b[..k] == b && r[..k] == r;
    ValBound(r);
    Pow2At256(8 * k);
    ShlIsMul(CarryDown(a, b, 0), 8 * k);
    DivModUnique(Val(a) + Val(b), TWO_256, CarryDown(a, b, 0), Val(r));
  }

  /** The two carry directions agree at every byte. */
  predicate CarriesAgree(a: buffer, b: buffer)
  {
    forall i :: 0 <= i < 32 ==> CarryUp(a, b, i) == CarryDown(a, b, i + 1)
  }

  lemma AgreeIffEqual(a: buffer, b: buffer)
    ensures AddBytes(a, b) == TrueSum(a, b) <==> CarriesAgree(a, b)
  {
    var r, f := AddBytes(a, b), TrueSum(a, b);
    forall i | 0 <= i < 32 ensures r[i] == f[i] <==> CarryUp(a, b, i) == CarryDown(a, b, i + 1) {
      assert r[i] == AddAt(a, b, i) && f[i] == SumAt(a, b, i);
    }
  }

  predicate NoByteOverflows(a: buffer, b: buffer)
  {
    forall i :: 0 <= i < 32 ==> a[i] as int + b[i] as int < 256
  }

  lemma {:induction false} NoCarryUp(a: buffer, b: buffer, i: nat)
    requires NoByteOverflows(a, b) && i <= 32
    ensures CarryUp(a, b, i) == 0
  {
    if i > 0 { NoCarryUp(a, b, i - 1); }
  }

  lemma {:induction false} NoCarryDown(a: buffer, b: buffer, i: nat)
    requires NoByteOverflows(a, b) && i <= 32
    ensures CarryDown(a, b, i) == 0
    decreases 32 - i
  {
    if i < 32 { NoCarryDown(a, b, i + 1); }
  }

  /** If the carries agree they also agree two positions apart, so the zeros at
      both ends spread over the even and the odd positions. */
  lemma AgreeStep(a: buffer, b: buffer, i: nat)
    requires CarriesAgree(a, b) && 1 <= i < 32
    ensures CarryUp(a, b, i + 1) == CarryUp(a, b, i - 1)
  {
    assert CarryUp(a, b, i) == CarryDown(a, b, i + 1);
    assert CarryUp(a, b, i - 1) == CarryDown(a, b, i);
  }

  lemma {:induction false} EvenZero(a: buffer, b: buffer, j: nat)
    requires CarriesAgree(a, b) && 2 * j <= 32
    ensures CarryUp(a, b, 2 * j) == 0
  {
    if j > 0 {
      EvenZero(a, b, j - 1);
      AgreeStep(a, b, 2 * j - 1);
    }
  }

  lemma {:induction false} OddZero(a: buffer, b: buffer, j: nat)
    requires CarriesAgree(a, b) && j < 16
    ensures CarryUp(a, b, 2 * j + 1) == 0
    decreases 16 - j
  {
    if j == 15 {
      assert CarryUp(a, b, 31) == CarryDown(a, b, 32);
    } else {
      OddZero(a, b, j + 1);
      AgreeStep(a, b, 2 * j + 2);
    }
  }

  lemma AgreeMeansNoOverflow(a: buffer, b: buffer)
    ensures CarriesAgree(a, b) <==> NoByteOverflows(a, b)
  {
    hide CarryUp, CarryDown, NoByteOverflows;
    if NoByteOverflows(a, b) {
      forall i | 0 <= i < 32 ensures CarryUp(a, b, i) == CarryDown(a, b, i + 1) {
        NoCarryUp(a, b, i);
        NoCarryDown(a, b, i + 1);
      }
    }
    if CarriesAgree(a, b) { AgreeingStaysLow(a, b); }
  }

  lemma AgreeingStaysLow(a: buffer, b: buffer)
    requires CarriesAgree(a, b)
    ensures NoByteOverflows(a, b)
  {
    hide CarriesAgree, CarryDown;
    forall i | 0 <= i < 32 ensures a[i] as int + b[i] as int < 256 {
      if i % 2 == 0 { OddZero(a, b, i / 2); } else { EvenZero(a, b, (i + 1) / 2); }
      assert CarryUp(a, b, i + 1) == 0;
    }
  }

  /** The addition is correct modulo 2^256 for exactly the operands whose byte sums
      all stay below 256. */
  lemma AddExactIff(a: buffer, b: buffer)
    ensures Val(AddBytes(a, b)) == (Val(a) + Val(b)) % TWO_256 <==> NoByteOverflows(a, b)
  {
    ValTrueSum(a, b);
    AgreeIffEqual(a, b);
    AgreeMeansNoOverflow(a, b);
    if Val(AddBytes(a, b)) == Val(TrueSum(a, b)) {
      ValInjective(AddBytes(a, b), TrueSum(a, b));
    }
  }

  /** 255 + 1 in the last byte: the carry leaves the buffer instead of reaching byte 30. */
  lemma CarryIsLost()
    ensures var a: buffer, b: buffer := Zeros(31) + [255], Zeros(31) + [1];
            Val(AddBytes(a, b)) != (Val(a) + Val(b)) % TWO_256
  {
    hide AddBytes, Val;
    var a: buffer, b: buffer := Zeros(31) + [255], Zeros(31) + [1];
    assert a[31] == 255 && b[31] == 1;
    AddExactIff(a, b);
  }
}
