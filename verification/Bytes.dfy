/** Byte sequences and the integers they denote, most significant byte first. */
module Bytes {
  import opened Bits

  type byte = x: int | 0 <= x < 256

  type word = x: int | 0 <= x < 0x1_0000_0000

  /** `x & y` on bytes */
  function And8(x: byte, y: byte): (r: byte)
  {
    Pow2Values();
    BitAnd(8, x, y)
  }

  /** `x | y` on bytes */
  function Or8(x: byte, y: byte): (r: byte)
  {
    Pow2Values();
    BitOr(8, x, y)
  }

  /** The integer that s denotes in big-endian order. */
  function Val(s: seq<byte>): (v: nat)
  {
    if s == [] then 0 else 256 * Val(s[..|s| - 1]) + s[|s| - 1]
  }

  /** The integer that s denotes in little-endian order. */
  function LeVal(s: seq<byte>): (v: nat)
  {
    if s == [] then 0 else s[0] + 256 * LeVal(s[1..])
  }

  /** The k low-order bytes of n, big-endian. */
  function ToBytes(n: nat, k: nat): (s: seq<byte>)
    ensures |s| == k
  {
    if k == 0 then [] else ToBytes(n / 256, k - 1) + [n % 256]
  }

  function Zeros(k: nat): (s: seq<byte>)
    ensures |s| == k
  {
    seq(k, _ => 0)
  }

  /** 2^256, the modulus of the 32-byte buffers */
  const TWO_256: nat := 0x1_00000000_00000000_00000000_00000000_00000000_00000000_00000000_00000000

  // The argument stays symbolic: the verifier unrolls Pow2 on a literal.
  lemma Pow2At256(n: nat)
    requires n == 256
    ensures Pow2(n) == TWO_256
  {
    var k := n / 32;
    Pow2Values();
    Pow2Double(k, 0x100);
    Pow2Double(2 * k, 0x1_0000);
    Pow2Double(4 * k, 0x1_0000_0000);
    Pow2Double(8 * k, 0x1_00000000_00000000);
    Pow2Double(16 * k, 0x1_00000000_00000000_00000000_00000000);
  }

  lemma Pow2Double(n: nat, v: nat)
    requires Pow2(n) == v
    ensures Pow2(2 * n) == v * v
  {
    Pow2Add(n, n);
  }

  lemma Pow2Byte(k: nat)
    ensures Pow2(k + 8) == 256 * Pow2(k)
  {
    Pow2Add(8, k);
    Pow2Values();
  }

  lemma {:induction false} ValBound(s: seq<byte>)
    ensures Val(s) < Pow2(8 * |s|)
  {
    if s != [] {
      ValBound(s[..|s| - 1]);
      Pow2Byte(8 * (|s| - 1));
    }
  }

  /** Shifting eight places further is multiplying by 256. */
  lemma ShlByte(x: nat, k: nat)
    ensures Shl(x, k + 8) == 256 * Shl(x, k)
  {
    ShlShl(x, k, 8);
    Shl8(Shl(x, k));
  }

  lemma {:induction false} ValConcat(s: seq<byte>, t: seq<byte>)
    ensures Val(s + t) == Shl(Val(s), 8 * |t|) + Val(t)
  {
    if t == [] {
      assert s + t == s;
    } else {
      var u := t[..|t| - 1];
      assert (s + t)[..|s + t| - 1] == s + u;
      ValConcat(s, u);
      ShlByte(Val(s), 8 * |u|);
    }
  }

  lemma {:induction false} ValZeros(k: nat)
    ensures Val(Zeros(k)) == 0
  {
    if k > 0 {
      assert Zeros(k)[..k - 1] == Zeros(k - 1);
      ValZeros(k - 1);
    }
  }

  /** A first differing byte decides the comparison of two equally long numbers. */
  lemma {:induction false} ValLess(s: seq<byte>, t: seq<byte>, i: nat)
    requires |s| == |t| && i < |s| && s[..i] == t[..i] && s[i] < t[i]
    ensures Val(s) < Val(t)
  {
    var n := |s| - 1;
    if i == n {
    } else {
      var u, v := s[..n], t[..n];
      assert u[..i] == s[..i] && v[..i] == t[..i];
      ValLess(u, v, i);
    }
  }

  lemma {:induction false} ValInjective(s: seq<byte>, t: seq<byte>)
    requires |s| == |t| && Val(s) == Val(t)
    ensures s == t
  {
    if s != [] {
      var n := |s| - 1;
      ValInjective(s[..n], t[..n]);
      assert s == s[..n] + [s[n]] && t == t[..n] + [t[n]];
    }
  }

  /** Encoding keeps the low bytes of n: what is above them is cut off. */
  lemma {:induction false} ValToBytes(n: nat, k: nat)
    ensures n == Shl(Shr(n, 8 * k), 8 * k) + Val(ToBytes(n, k))
  {
    if k > 0 {
      var b := ToBytes(n, k);
      assert b[..k - 1] == ToBytes(n / 256, k - 1);
      ValToBytes(n / 256, k - 1);
      ShrByte(n, 8 * (k - 1));
      ShlByte(Shr(n, 8 * k), 8 * (k - 1));
    }
  }

  /** Reading back what was encoded. */
  lemma DecodeEncode(n: nat, k: nat)
    requires n < Pow2(8 * k)
    ensures Val(ToBytes(n, k)) == n
  {
    ValToBytes(n, k);
    ShrFits(n, 8 * k, 8 * k);
    ShlZero(8 * k);
  }

  /** Each byte of the encoding is a shift and a mask. */
  lemma {:induction false} ToBytesAt(n: nat, k: nat, i: nat)
    requires i < k
    ensures ToBytes(n, k)[i] == Shr(n, 8 * (k - 1 - i)) % 256
  {
    if i < k - 1 {
      ToBytesAt(n / 256, k - 1, i);
      ShrByte(n, 8 * (k - 2 - i));
    }
  }

  /** Shifting right eight places further is dividing by 256 first. */
  lemma ShrByte(n: nat, k: nat)
    ensures Shr(n, k + 8) == Shr(n / 256, k)
  {
    hide Shr;
    ShrTwo(n, k + 6);
    ShrTwo(n / 4, k + 4);
    ShrTwo(n / 16, k + 2);
    ShrTwo(n / 64, k);
  }

  lemma ShrTwo(n: nat, k: nat)
    ensures Shr(n, k + 2) == Shr(n / 4, k)
  {
    assert Shr(n, k + 2) == Shr(n / 2, k + 1) == Shr(n / 2 / 2, k);
  }
}
