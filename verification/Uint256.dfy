/** The 256-bit buffer arithmetic of uint256.h: 32-byte arrays updated in place,
    byte 0 most significant as the callers read them. Each method is tied to a
    function on the buffer contents; what those functions mean as integer
    arithmetic is proved in ShiftExact, AddExact and PowerExact. */
module Uint256 {
  import opened Bits
  import opened Bytes

  type buffer = s: seq<byte> | |s| == 32 witness Zeros(32)

  // ---------------------------------------------------------------- shift

  /** `(BYTE)(x << m)` */
  function Lo(x: byte, m: nat): (r: byte)
  {
    Shl(x, m) % 256
  }

  /** `(BYTE)(0xff << (8 - m))` */
  function Mask(m: nat): (r: byte)
    requires m < 8
  {
    Shl(255, 8 - m) % 256
  }

  /** The bits that a byte hands to its left neighbour. */
  function Carry(x: byte, m: nat): (r: byte)
    requires m < 8
  {
    Shr(And8(x, Mask(m)), m)
  }

  /** One output byte: x is shifted left, y is the byte to its right. */
  function ShiftByte(x: byte, y: byte, m: nat): (r: byte)
    requires m < 8
  {
    Or8(Lo(x, m), Carry(y, m))
  }

  /** Byte i of `a`, and 0 past its least significant end. */
  function At(a: seq<byte>, i: nat): (r: byte)
  {
    if i < |a| then a[i] else 0
  }

  /** Byte i of the destination after a shift by a non-zero amount. */
  function ShlAt(dst: buffer, a: buffer, shift: byte, i: nat): (r: byte)
    requires i < 32
  {
    if i + shift / 8 < 32 then ShiftByte(a[i + shift / 8], At(a, i + shift / 8 + 1), shift % 8) else dst[i]
  }

  /** Contents of the destination after the shift, given what it held before. */
  function ShlBytes(dst: buffer, a: buffer, shift: byte): (r: buffer)
  {
    if shift == 0 then a else seq(32, i requires 0 <= i < 32 => ShlAt(dst, a, shift, i))
  }

  /** Byte i after a shift by a non-zero amount within one buffer, where the bytes to
      the right have already been overwritten when they are read. */
  function InPlaceAt(a: buffer, shift: byte, i: nat): (r: byte)
    requires i < 32 && shift > 0
    decreases 32 - i
  {
    var b, m := shift / 8, shift % 8;
    if i + b >= 32 then a[i]
    else
      var x := if b == 0 then a[i] else InPlaceAt(a, shift, i + b);
      var y := if i + b + 1 < 32 then InPlaceAt(a, shift, i + b + 1) else 0;
      ShiftByte(x, y, m)
  }

  function ShlInPlace(a: buffer, shift: byte): (r: buffer)
  {
    if shift == 0 then a else seq(32, i requires 0 <= i < 32 => InPlaceAt(a, shift, i))
  }

  /** Byte i of the destination, whether or not it is also the operand. */
  function ShiftedAt(dst: buffer, a: buffer, shift: byte, aliased: bool, i: nat): (r: byte)
    requires i < 32 && shift > 0
  {
    if aliased then InPlaceAt(a, shift, i) else ShlAt(dst, a, shift, i)
  }

  /** What the loop reads at index j: past the right end there is nothing. */
  function ReadAt(a: buffer, shift: byte, aliased: bool, j: nat): (r: byte)
    requires shift > 0
  {
    if j >= 32 then 0 else if aliased then InPlaceAt(a, shift, j) else a[j]
  }

  /** One iteration: x is what the loop finds at index i + shift / 8. */
  lemma IterationIs(dst: buffer, a: buffer, shift: byte, aliased: bool, i: nat, x: byte)
    requires shift > 0 && i + shift / 8 < 32
    requires x == if aliased && shift >= 8 then ShiftedAt(dst, a, shift, aliased, i + shift / 8) else a[i + shift / 8]
    ensures ShiftedAt(dst, a, shift, aliased, i) ==
              Or8(Lo(x, shift % 8), Carry(ReadAt(a, shift, aliased, i + shift / 8 + 1), shift % 8))
    ensures ReadAt(a, shift, aliased, i + shift / 8) ==
              if aliased && shift < 8 then ShiftedAt(dst, a, shift, aliased, i) else x
  {
    hide Or8, Lo, Carry;
    CarryZero(shift % 8);
  }

  method ShiftLeft(res: array<byte>, a: array<byte>, shift: byte)
    requires res.Length == 32 && a.Length == 32
    modifies res
    ensures res != a ==> res[..] == ShlBytes(old(res[..]), a[..], shift)
    ensures res == a ==> res[..] == ShlInPlace(old(a[..]), shift)
  {
    var b: nat, m: nat := shift / 8, shift % 8;
    if shift == 0 {
      forall k | 0 <= k < 32 { res[k] := a[k]; }
      return;
    }
    ghost var dst: buffer, src: buffer, aliased := res[..], a[..], res == a;
    ShiftLoop(res, a, shift, b, m);
    assert forall k :: 0 <= k < 32 ==> res[k] == ShiftedAt(dst, src, shift, aliased, k);
  }

  /** The loop at uint256.h:38-42. */
  method ShiftLoop(res: array<byte>, a: array<byte>, shift: byte, b: nat, m: nat)
    requires res.Length == 32 && a.Length == 32 && shift > 0 && b == shift / 8 && m == shift % 8
    modifies res
    ensures forall k :: 0 <= k < 32 ==>
              res[k] == ShiftedAt(old(res[..]), old(a[..]), shift, res == a, k)
  {
    hide And8, Or8, Shl, Shr, Lo, Mask, ReadAt, ShiftedAt;
    var mask: byte := Mask(m);
    var carry: byte := 0;
    ghost var dst: buffer, src: buffer, aliased := res[..], a[..], res == a;
    RightEnd(dst, src, shift, aliased);
    var i, j := 31 - b, 31;
    while i > -1
      invariant -1 <= i <= 31 - b && j == i + b
      invariant carry == Carry(ReadAt(src, shift, aliased, j + 1), m)
      invariant !aliased ==> a[..] == src
      invariant forall k :: 0 <= k <= i ==> res[k] == dst[k]
      invariant forall k :: i < k < 32 ==> res[k] == ShiftedAt(dst, src, shift, aliased, k)
    {
      IterationIs(dst, src, shift, aliased, i, a[j]);
      res[i] := Or8(Lo(a[j], m), carry);
      carry := Shr(And8(a[j], mask), m);
      i, j := i - 1, j - 1;
    }
  }

  /** The low bytes are not written, and nothing enters from the right. */
  lemma RightEnd(dst: buffer, a: buffer, shift: byte, aliased: bool)
    requires shift > 0 && (aliased ==> dst == a)
    ensures forall k :: 32 - shift / 8 <= k < 32 ==> ShiftedAt(dst, a, shift, aliased, k) == dst[k]
    ensures Carry(ReadAt(a, shift, aliased, 32), shift % 8) == 0
  {
    CarryZero(shift % 8);
  }

  lemma CarryZero(m: nat)
    requires m < 8
    ensures Carry(0, m) == 0
  {
    Pow2Values();
    AndZero(8, Mask(m));
    ShrZero(m);
  }

  lemma {:induction false} ShrZero(k: nat)
    ensures Shr(0, k) == 0
  {
    if k > 0 { ShrZero(k - 1); }
  }

  // ---------------------------------------------------------------- add

  /** Carry into byte i when carries move towards higher indices. */
  function CarryUp(a: seq<byte>, b: seq<byte>, i: nat): (c: nat)
    requires |a| == |b| && i <= |a|
    ensures c <= 1
  {
    if i == 0 then 0 else (a[i - 1] + b[i - 1] + CarryUp(a, b, i - 1)) / 256
  }

  function AddAt(a: seq<byte>, b: seq<byte>, i: nat): (r: byte)
    requires |a| == |b| && i < |a|
  {
    (a[i] + b[i] + CarryUp(a, b, i)) % 256
  }

  function AddBytes(a: buffer, b: buffer): (r: buffer)
  {
    seq(32, i requires 0 <= i < 32 => AddAt(a, b, i))
  }

  method Add(res: array<byte>, a: array<byte>, b: array<byte>)
    requires res.Length == 32 && a.Length == 32 && b.Length == 32
    modifies res
    ensures res[..] == AddBytes(old(a[..]), old(b[..]))
  {
    var aa: buffer, bb: buffer := a[..], b[..]; // the local copies
    var temp: nat := 0; // uint16_t: never above 255 + 255 + 1
    for i := 0 to 32
      invariant temp / 256 == CarryUp(aa, bb, i)
      invariant forall k :: 0 <= k < i ==> res[k] == AddAt(aa, bb, k)
    {
      temp := temp / 256;
      temp := temp + aa[i] + bb[i];
      res[i] := temp % 256;
    }
  }

  // ---------------------------------------------------------------- mul

  /** `1 << k` */
  function OneBitByte(k: nat): (r: byte)
    requires k < 8
  {
    Pow2Values();
    Pow2(k)
  }

  /** `(b[i / 8] & (1 << (7 - i % 8))) > 0` */
  predicate BitSet(b: buffer, i: nat)
    requires i < 256
  {
    And8(b[i / 8], OneBitByte(7 - i % 8)) > 0
  }

  /** The rest of the shift-and-add loop from bit index i downwards; the shifted
      copy is written over `temp`, whose low bytes keep what they held. */
  function MulFrom(a: buffer, b: buffer, temp: buffer, acc: buffer, i: int): (r: buffer)
    requires -1 <= i < 256
    decreases i + |a|
  {
    if i == -1 then acc
    else if BitSet(b, i) then
      var shifted := ShlBytes(temp, a, 255 - i);
      MulFrom(a, b, shifted, AddBytes(acc, shifted), i - 1)
    else MulFrom(a, b, temp, acc, i - 1)
  }

  function MulBytes(a: buffer, b: buffer): (r: buffer)
  {
    MulFrom(a, b, Zeros(32), Zeros(32), 8 * |b| - 1)
  }

  method Mul(res: array<byte>, a: array<byte>, b: array<byte>)
    requires res.Length == 32 && a.Length == 32 && b.Length == 32
    modifies res
    ensures res[..] == MulBytes(old(a[..]), old(b[..]))
  {
    hide ShlBytes, AddBytes, And8, OneBitByte;
    ghost var A: buffer, B: buffer := a[..], b[..];
    var temp := new byte[32](_ => 0);
    var acc := new byte[32](_ => 0);
    var aa := Copy(a);
    var bb: buffer := b[..];
    assert temp[..] == Zeros(32) && acc[..] == Zeros(32);
    var i := 255;
    while i > -1
      invariant -1 <= i <= 255
      invariant aa[..] == A
      invariant MulFrom(A, B, temp[..], acc[..], i) == MulBytes(A, B)
      modifies temp, acc
    {
      if And8(bb[i / 8], OneBitByte(7 - i % 8)) > 0 {
        AddShifted(acc, temp, aa, 255 - i);
      }
      i := i - 1;
    }
    Load(res, acc);
  }

  /** One partial product: the loop body at uint256.h:81-82. */
  method AddShifted(acc: array<byte>, temp: array<byte>, aa: array<byte>, shift: byte)
    requires acc.Length == 32 && temp.Length == 32 && aa.Length == 32
    requires acc != temp && aa != temp && aa != acc
    modifies acc, temp
    ensures temp[..] == ShlBytes(old(temp[..]), aa[..], shift)
    ensures acc[..] == AddBytes(old(acc[..]), temp[..])
  {
    ShiftLeft(temp, aa, shift);
    Add(acc, acc, temp);
  }

  /** `memcpy (dst, src, 32)` */
  method Load(dst: array<byte>, src: array<byte>)
    requires dst.Length == 32 && src.Length == 32
    modifies dst
    ensures dst[..] == old(src[..])
  {
    forall k | 0 <= k < 32 { dst[k] := src[k]; }
  }

  method Copy(src: array<byte>) returns (c: array<byte>)
    requires src.Length == 32
    ensures fresh(c) && c.Length == 32 && c[..] == src[..]
  {
    c := new byte[32];
    Load(c, src);
  }

  // ---------------------------------------------------------------- exp

  const ONE: buffer := Zeros(31) + [1]

  /** The square-and-multiply loop of the exponentiation. */
  function ExpFrom(acc: buffer, temp: buffer, exp: nat): (r: buffer)
    requires exp > 0
    decreases exp
  {
    if exp == 1 then MulBytes(acc, temp)
    else if exp % 2 == 0 then ExpFrom(MulBytes(acc, acc), temp, exp / 2)
    else ExpFrom(MulBytes(acc, acc), MulBytes(acc, temp), (exp - 1) / 2)
  }

  /** `aliased` says that the result buffer is the base buffer, in which case the
      code never loads the base. */
  function ExpBytes(base: buffer, exp: nat, aliased: bool): (r: buffer)
  {
    if exp == 0 then ONE
    else ExpFrom(if aliased then Zeros(32) else base, ONE, exp)
  }

  method Exp(res: array<byte>, base: array<byte>, e: nat)
    requires res.Length == 32 && base.Length == 32
    modifies res
    ensures res[..] == ExpBytes(old(base[..]), e, res == base)
  {
    if e == 0 {
      forall k | 0 <= k < 31 { res[k] := 0; }
      res[31] := 1;
      return;
    }
    var temp := new byte[32](i => if i == 31 then 1 else 0);
    var acc := new byte[32](_ => 0);
    assert temp[..] == ONE && acc[..] == Zeros(32);
    if res != base {
      Load(acc, base);
    }
    SquareAndMultiply(acc, temp, e);
    Mul(res, acc, temp);
  }

  /** The loop of the exponentiation (uint256.h:110-120). */
  method SquareAndMultiply(acc: array<byte>, temp: array<byte>, e: nat)
    requires acc.Length == 32 && temp.Length == 32 && acc != temp && e > 0
    modifies acc, temp
    ensures MulBytes(acc[..], temp[..]) == ExpFrom(old(acc[..]), old(temp[..]), e)
  {
    ghost var goal := ExpFrom(acc[..], temp[..], e);
    var exp := e;
    while exp > 1
      invariant exp >= 1
      invariant ExpFrom(acc[..], temp[..], exp) == goal
    {
      if exp % 2 == 0 {
        Mul(acc, acc, acc);
        exp := exp / 2;
      } else {
        Mul(temp, acc, temp);
        Mul(acc, acc, acc);
        exp := (exp - 1) / 2;
      }
    }
  }
}
