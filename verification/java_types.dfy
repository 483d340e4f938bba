/**
 * The Java primitive conversions the modem relies on: narrowing casts to
 * `short` and `byte`, the big-endian packing of a 16-bit sample into two
 * bytes, the truncating `(int)` cast of a `double`, and the error outcomes
 * a Java method can end in.
 */
module JavaTypes {

  datatype Option<T> = None | Some(value: T)

  /** The checked exceptions and runtime exceptions the modelled code throws on purpose. */
  datatype Exception = IOException | IllegalArgumentException | RuntimeException

  datatype Result<T> = Success(value: T) | Failure(error: Exception)
  {
    predicate IsFailure() { Failure? }
  }

  /** Values of a Java `short`. */
  type Short = x: int | -0x8000 <= x < 0x8000

  /** Values of a Java `byte`. */
  type Byte = x: int | -0x80 <= x < 0x80

  /** Values of a Java `int`. */
  type Int32 = x: int | -0x8000_0000 <= x < 0x8000_0000

  /** The narrowing cast `(short) x`: keep the low 16 bits, two's complement. */
  function ToShort(x: int): (s: Short)
    ensures (s - x) % 0x1_0000 == 0
    ensures -0x8000 <= x < 0x8000 ==> s == x
  {
    var m := x % 0x1_0000;
    if m < 0x8000 then m else m - 0x1_0000
  }

  /** The narrowing cast `(byte) x`: keep the low 8 bits, two's complement. */
  function ToByte(x: int): (b: Byte)
    ensures (b - x) % 0x100 == 0
    ensures -0x80 <= x < 0x80 ==> b == x
  {
    var m := x % 0x100;
    if m < 0x80 then m else m - 0x100
  }

  /** `(byte)((s >> 8) & 0xff)`: the high byte of a sample. */
  function HighByte(s: Short): Byte
  {
    ToByte((s / 0x100) % 0x100)
  }

  /** `(byte)(s & 0xff)`: the low byte of a sample. */
  function LowByte(s: Short): Byte
  {
    ToByte(s % 0x100)
  }

  /**
   * `(short)(((hi << 8) & 0xff00) | (lo & 0xff))`: the sample a big-endian
   * byte pair stands for. The two masked parts share no bit, so the `|` is a sum.
   */
  function Unpack(hi: Byte, lo: Byte): Short
  {
    ToShort((hi % 0x100) * 0x100 + lo % 0x100)
  }

  /** A byte is determined by its residue modulo 256. */
  lemma ToByteResidue(b: Byte, x: int)
    requires x % 0x100 == (b as int) % 0x100
    ensures ToByte(x) == b
  {
  }

  /** Division by 256 with a remainder in 0..255 is unique. */
  lemma DivMod256(x: int, q: int, r: int)
    requires 0 <= r < 0x100 && x == q * 0x100 + r
    ensures x / 0x100 == q && x % 0x100 == r
  {
  }

  /** Unpacking the two bytes of a packed sample gives the sample back. */
  lemma UnpackPack(s: Short)
    ensures Unpack(HighByte(s), LowByte(s)) == s
  {
    var q, r := (s as int) / 0x100, (s as int) % 0x100;
    var a := q % 0x100;
    DivMod256(q, q / 0x100, a);
    assert (HighByte(s) as int) % 0x100 == a;
    assert (LowByte(s) as int) % 0x100 == r;
    var u := a * 0x100 + r;
    if q < 0 {
      assert q / 0x100 == -1 && u == s + 0x1_0000;
    } else {
      assert q / 0x100 == 0 && u == s;
    }
  }

  /** Packing the sample a byte pair stands for gives the same byte pair back. */
  lemma PackUnpack(hi: Byte, lo: Byte)
    ensures HighByte(Unpack(hi, lo)) == hi && LowByte(Unpack(hi, lo)) == lo
  {
    var a, b := (hi as int) % 0x100, (lo as int) % 0x100;
    var u := a * 0x100 + b;
    var s := Unpack(hi, lo);
    if u < 0x8000 {
      assert s == u;
      DivMod256(s, a, b);
      DivMod256(a, 0, a);
    } else {
      assert s == (a - 0x100) * 0x100 + b;
      DivMod256(s, a - 0x100, b);
      DivMod256(a - 0x100, -1, a);
    }
    ToByteResidue(hi, a);
    ToByteResidue(lo, b);
  }

  /** Two samples with the same big-endian bytes are the same sample. */
  lemma PackInjective(s: Short, t: Short)
    requires HighByte(s) == HighByte(t) && LowByte(s) == LowByte(t)
    ensures s == t
  {
    UnpackPack(s);
    UnpackPack(t);
  }

  /** The truncation toward zero that `(int)` and `(long)` apply to a `double`. */
  function TruncReal(x: real): (n: int)
    ensures 0.0 <= x ==> n as real <= x < n as real + 1.0
    ensures x <= 0.0 ==> n as real - 1.0 < x <= n as real
  {
    if x >= 0.0 then x.Floor else -((-x).Floor)
  }

  /**
   * The Java cast `(int) x` of a `double` (ignoring NaN): truncate toward
   * zero, then saturate to the `int` range.
   */
  function DoubleToInt(x: real): (r: Int32)
    ensures 0.0 <= x < 2147483648.0 ==> r as real <= x < r as real + 1.0
    ensures -2147483649.0 < x <= 0.0 ==> r as real - 1.0 < x <= r as real
    ensures x >= 2147483648.0 ==> r == 0x7fff_ffff
    ensures x <= -2147483648.0 ==> r == -0x8000_0000
  {
    var n := TruncReal(x);
    if n < -0x8000_0000 then -0x8000_0000 else if n >= 0x8000_0000 then 0x7fff_ffff else n
  }

  /** The Java cast `(short) x` of a `double`: `(short)(int) x`. */
  function DoubleToShort(x: real): (s: Short)
    ensures -32768.0 <= x < 32768.0 ==> s == TruncReal(x)
  {
    ToShort(DoubleToInt(x))
  }

  /** `Math.abs` of a `short`, computed in `int`. */
  function Abs(x: int): nat
  {
    if x < 0 then -x else x
  }

  function AbsReal(x: real): real
  {
    if x < 0.0 then -x else x
  }

  /** The value Java stores for `Math.PI`. */
  const PI: real := 3.141592653589793
}
