/** The 256-bit target of a compact difficulty word (handler_helper.c). */
module Target {
  import opened Bits
  import opened Bytes
  import opened Uint256
  import opened PowerExact

  /** `(x >> 8 * i) & 0xff` for i = 0, 1, 2, 3 */
  function Byte0(x: word): (r: byte) { x % 256 }
  function Byte1(x: word): (r: byte) { x / 256 % 256 }
  function Byte2(x: word): (r: byte) { x / 256 / 256 % 256 }
  function Byte3(x: word): (r: byte) { x / 256 / 256 / 256 }

  function Pack(b3: byte, b2: byte, b1: byte, b0: byte): (x: word)
    ensures Byte0(x) == b0 && Byte1(x) == b1 && Byte2(x) == b2 && Byte3(x) == b3
  {
    256 * (256 * (256 * b3 + b2) + b1) + b0
  }

  lemma Unpack(x: word)
    ensures x == Pack(Byte3(x), Byte2(x), Byte1(x), Byte0(x))
    ensures Byte3(x) == x / 0x100_0000
    ensures x % 0x100_0000 == 256 * (256 * Byte2(x) + Byte1(x)) + Byte0(x)
  {
  }

  /** `ntohl` on a little-endian host: the four bytes reversed. */
  function Ntohl(x: word): (r: word)
  {
    Pack(Byte0(x), Byte1(x), Byte2(x), Byte3(x))
  }

  lemma NtohlTwice(x: word)
    ensures Ntohl(Ntohl(x)) == x
  {
    Unpack(x);
  }

  /** The mantissa buffer: bytes 1, 2 and 3 of the host-order word. */
  function Beta(d: word): (r: buffer)
  {
    Zeros(29) + [Byte1(d), Byte2(d), Byte3(d)]
  }

  /** `8 * (alpha - 3)` converted to uint32_t: negative for alpha < 3, so it wraps. */
  function Exponent(d: word): (r: word)
  {
    (8 * (Byte0(d) - 3)) % 0x1_0000_0000
  }

  function TargetBytes(d: word): (r: buffer)
  {
    MulBytes(Beta(d), ExpBytes(TWO, Exponent(d), false))
  }

  method GetTarget(difficulty: word) returns (target: array<byte>)
    ensures fresh(target) && target.Length == 32
    ensures target[..] == TargetBytes(difficulty)
  {
    var alpha: int := Byte0(difficulty);
    var beta := new byte[32](_ => 0);
    beta[29] := Byte1(difficulty);
    beta[30] := Byte2(difficulty);
    beta[31] := Byte3(difficulty);
    assert beta[..] == Beta(difficulty);
    target := new byte[32](_ => 0);
    var twoExp := new byte[32](_ => 0);
    var two := new byte[32](i => if i == 31 then 2 else 0);
    assert two[..] == TWO;
    Exp(twoExp, two, (8 * (alpha - 3)) % 0x1_0000_0000);
    Mul(target, beta, twoExp);
  }

  /** What the wire word v encodes: its low three bytes times 256^(top byte - 3). */
  function TargetValue(v: word): (t: nat)
  {
    if v / 0x100_0000 >= 3 then ((v % 0x100_0000) * Pow2(8 * (v / 0x100_0000 - 3))) % TWO_256 else 0
  }

  lemma ValThreeBytes(k: nat, x: byte, y: byte, z: byte)
    ensures Val(Zeros(k) + [x, y, z]) == 256 * (256 * x + y) + z
  {
    var b := Zeros(k) + [x, y, z];
    ValLastByte(k, x);
    assert b[..k + 2] == Zeros(k) + [x, y];
    assert (Zeros(k) + [x, y])[..k + 1] == Zeros(k) + [x];
  }

  lemma ValBeta(v: word)
    ensures Val(Beta(Ntohl(v))) == v % 0x100_0000
  {
    hide Val;
    var d := Ntohl(v);
    ValThreeBytes(29, Byte1(d), Byte2(d), Byte3(d));
    Unpack(v);
  }

  lemma LargeExponentVanishes(a: buffer, e: nat)
    requires e >= 256
    ensures Val(MulBytes(a, PowBytes(e))) == 0
  {
    MulByZero(a);
    ValZeros(32);
  }

  /** For every difficulty word the target comes out right, although the operations
      it is made of are not correct in general. */
  lemma TargetExact(v: word)
    ensures Val(TargetBytes(Ntohl(v))) == TargetValue(v)
  {
    hide Beta, MulBytes, ExpBytes, PowBytes, Val, Pow2, Ntohl;
    var d, e, alpha := Ntohl(v), Exponent(Ntohl(v)), v / 0x100_0000;
    ExpTwoExact(e);
    ValBeta(v);
    ExponentOf(v);
    if alpha >= 3 {
      MulByBytePower(Beta(d), alpha - 3);
    } else {
      LargeExponentVanishes(Beta(d), e);
    }
  }

  lemma ExponentOf(v: word)
    ensures var e, alpha := Exponent(Ntohl(v)), v / 0x100_0000;
            if alpha >= 3 then e == 8 * (alpha - 3) else e >= 256
  {
    Unpack(v);
  }
}
