/** Java's fixed-width integers, two's complement and the big-endian byte order
    that java.io.DataOutputStream and java.nio.ByteBuffer both use, over
    unbounded ints. Floats and doubles are carried as their bit patterns. */
module Wire {

  /** One octet on the wire. */
  type uint8 = x: int | 0 <= x < 0x100
  type int8 = x: int | -0x80 <= x < 0x80
  type int16 = x: int | -0x8000 <= x < 0x8000
  type int32 = x: int | -0x8000_0000 <= x < 0x8000_0000
  type int64 = x: int | -0x8000_0000_0000_0000 <= x < 0x8000_0000_0000_0000

  /** A Java float, as its raw bit pattern (Float.floatToRawIntBits). */
  type FloatBits = int32
  /** A Java double, as its raw bit pattern (Double.doubleToRawLongBits). */
  type DoubleBits = int64

  /** The Java exceptions the modelled code throws or catches. */
  datatype Exception =
    | EOFException
    | BufferUnderflowException
    | BufferOverflowException
    | IOException(unsupportedType: int)
    | IllegalArgumentException
    | IllegalStateException
    | UnsupportedOperationException
    | NullPointerException
    | ArrayIndexOutOfBoundsException
    | NegativeArraySizeException
    | InterruptedException
    | ArithmeticException
    | SocketException

  /** A value, or the exception thrown instead of returning it. */
  datatype Result<+T> = Ok(value: T) | Err(error: Exception) {
    predicate IsFailure() { Err? }
    function PropagateFailure<U>(): Result<U> requires Err? { Err(error) }
    function Extract(): T requires Ok? { value }
  }

  /** A value that may be absent: Java's null. */
  datatype Option<+T> = None | Some(value: T)

  /** A value read from the front of a byte sequence, and the bytes after it. */
  datatype Parsed<+T> = Parsed(value: T, rest: seq<uint8>)

  function Pow256(n: nat): (p: nat)
    ensures p >= 1
  {
    if n == 0 then 1 else 256 * Pow256(n - 1)
  }

  /** The bound of an n-byte signed integer: values lie in [-Half(n), Half(n)). */
  function Half(n: nat): nat
    requires n > 0
  {
    128 * Pow256(n - 1)
  }

  predicate InSigned(n: nat, v: int)
    requires n > 0
  {
    -(Half(n) as int) <= v < Half(n)
  }

  lemma WidthBounds()
    ensures Half(1) == 0x80 && Half(2) == 0x8000
    ensures Half(4) == 0x8000_0000 && Half(8) == 0x8000_0000_0000_0000
    ensures Pow256(1) == 0x100 && Pow256(4) == 0x1_0000_0000
    ensures Pow256(8) == 0x1_0000_0000_0000_0000
  {
  }

  /** The low n bytes of u, most significant first. */
  function BigEndian(n: nat, u: nat): (s: seq<uint8>)
    ensures |s| == n
  {
    if n == 0 then [] else BigEndian(n - 1, u / 256) + [u % 256]
  }

  /** The unsigned value of a big-endian byte sequence. */
  function FromBigEndian(s: seq<uint8>): nat
  {
    if s == [] then 0 else FromBigEndian(s[..|s| - 1]) * 256 + s[|s| - 1]
  }

  lemma {:induction false} FromBigEndianBound(s: seq<uint8>)
    ensures FromBigEndian(s) < Pow256(|s|)
  {
    if s != [] {
      FromBigEndianBound(s[..|s| - 1]);
    }
  }

  /** Reading back n big-endian bytes gives the number that was written. */
  lemma {:induction false} FromToBigEndian(n: nat, u: nat)
    requires u < Pow256(n)
    ensures FromBigEndian(BigEndian(n, u)) == u
  {
    if n > 0 {
      var s := BigEndian(n, u);
      assert s[..n - 1] == BigEndian(n - 1, u / 256);
      FromToBigEndian(n - 1, u / 256);
    }
  }

  /** Every byte sequence is the big-endian form of its own value. */
  lemma {:induction false} ToFromBigEndian(s: seq<uint8>)
    ensures BigEndian(|s|, FromBigEndian(s)) == s
  {
    if s != [] {
      var p, last := s[..|s| - 1], s[|s| - 1];
      ToFromBigEndian(p);
      var u := FromBigEndian(s);
      assert u == FromBigEndian(p) * 256 + last;
      assert u / 256 == FromBigEndian(p) && u % 256 == last;
      assert BigEndian(|s|, u) == BigEndian(|p|, FromBigEndian(p)) + [last];
      assert s == p + [last];
    }
  }

  /** The two's complement pattern of a signed n-byte value. */
  function TwosComplement(n: nat, v: int): (u: nat)
    requires n > 0 && InSigned(n, v)
    ensures u < Pow256(n)
  {
    if v < 0 then v + Pow256(n) else v
  }

  /** The signed value of an n-byte two's complement pattern. */
  function FromTwosComplement(n: nat, u: nat): (v: int)
    requires n > 0 && u < Pow256(n)
    ensures InSigned(n, v)
    ensures TwosComplement(n, v) == u
  {
    if u < Half(n) then u else u - Pow256(n)
  }

  /** What DataOutputStream.writeByte/Short/Int/Long and ByteBuffer.put/putShort/
      putInt/putLong write for an n-byte value. */
  function EncodeSigned(n: nat, v: int): (s: seq<uint8>)
    requires n > 0 && InSigned(n, v)
    ensures |s| == n
  {
    BigEndian(n, TwosComplement(n, v))
  }

  /** The signed value of |s| big-endian bytes. */
  function DecodeSigned(s: seq<uint8>): (v: int)
    requires |s| > 0
    ensures InSigned(|s|, v)
  {
    FromBigEndianBound(s);
    FromTwosComplement(|s|, FromBigEndian(s))
  }

  /** Decoding inverts encoding for every value of the width. */
  lemma DecodeEncodeSigned(n: nat, v: int)
    requires n > 0 && InSigned(n, v)
    ensures DecodeSigned(EncodeSigned(n, v)) == v
  {
    FromToBigEndian(n, TwosComplement(n, v));
  }

  /** Encoding inverts decoding: the codec is a bijection on n-byte sequences. */
  lemma EncodeDecodeSigned(s: seq<uint8>)
    requires |s| > 0
    ensures EncodeSigned(|s|, DecodeSigned(s)) == s
  {
    FromBigEndianBound(s);
    ToFromBigEndian(s);
  }

  function EncodeByte(v: int8): (s: seq<uint8>)
    ensures |s| == 1
  {
    WidthBounds();
    DecodeEncodeSigned(1, v);
    EncodeSigned(1, v)
  }

  function EncodeShort(v: int16): (s: seq<uint8>)
    ensures |s| == 2
  {
    WidthBounds();
    DecodeEncodeSigned(2, v);
    EncodeSigned(2, v)
  }

  function EncodeInt(v: int32): (s: seq<uint8>)
    ensures |s| == 4
  {
    WidthBounds();
    DecodeEncodeSigned(4, v);
    EncodeSigned(4, v)
  }

  function EncodeLong(v: int64): (s: seq<uint8>)
    ensures |s| == 8
  {
    WidthBounds();
    DecodeEncodeSigned(8, v);
    EncodeSigned(8, v)
  }

  /** The (byte) cast of a Java int: its low 8 bits as a signed byte. */
  function LowByte(v: int): (b: int8)
  {
    var u := v % 0x100;
    if u < 0x80 then u else u - 0x100
  }

  /** The byte as an unsigned value 0..255. */
  function Unsigned(b: int8): uint8
  {
    if b < 0 then b + 0x100 else b
  }

  /** `(mask & flag) != 0` for a single-bit flag: the flag's bit is set in
      the mask. */
  predicate Selects(mask: int8, flag: int8)
  {
    flag > 0 && (Unsigned(mask) / flag) % 2 == 1
  }

  /** The (int) cast of a Java long. */
  function Wrap32(v: int): (r: int32)
    ensures -0x8000_0000 <= v < 0x8000_0000 ==> r == v
  {
    var u := v % 0x1_0000_0000;
    if u < 0x8000_0000 then u else u - 0x1_0000_0000
  }

  /** Java long arithmetic: the result modulo 2^64, as a signed long. */
  function Wrap64(v: int): (r: int64)
    ensures -0x8000_0000_0000_0000 <= v < 0x8000_0000_0000_0000 ==> r == v
  {
    var u := v % 0x1_0000_0000_0000_0000;
    if u < 0x8000_0000_0000_0000 then u else u - 0x1_0000_0000_0000_0000
  }

  /** Java's integer division, which truncates toward zero (Dafny's `/` is
      Euclidean). */
  function JavaDiv(a: int, b: int): (q: int)
    requires b != 0
    ensures 0 <= a && 0 < b ==> q == a / b
  {
    var m := (if a < 0 then -a else a) / (if b < 0 then -b else b);
    if (a < 0) == (b < 0) then m else -m
  }

  /** The IEEE 754 single-precision NaN test on a bit pattern: exponent all
      ones and a nonzero fraction. */
  predicate IsNaNFloat(f: FloatBits)
  {
    var u := if f < 0 then f + 0x1_0000_0000 else f;
    (u / 0x80_0000) % 0x100 == 0xFF && u % 0x80_0000 != 0
  }

  /** The IEEE 754 double-precision NaN test on a bit pattern. */
  predicate IsNaNDouble(d: DoubleBits)
  {
    var u := if d < 0 then d + 0x1_0000_0000_0000_0000 else d;
    (u / 0x10_0000_0000_0000) % 0x800 == 0x7FF && u % 0x10_0000_0000_0000 != 0
  }

  const CANONICAL_FLOAT_NAN: FloatBits := 0x7fc0_0000
  const CANONICAL_DOUBLE_NAN: DoubleBits := 0x7ff8_0000_0000_0000

  /** Float.floatToIntBits: the raw bits, except that every NaN becomes the
      canonical NaN. */
  function FloatToIntBits(f: FloatBits): (r: FloatBits)
  {
    if IsNaNFloat(f) then CANONICAL_FLOAT_NAN else f
  }

  /** Double.doubleToLongBits: the raw bits, every NaN made canonical. */
  function DoubleToLongBits(d: DoubleBits): (r: DoubleBits)
  {
    if IsNaNDouble(d) then CANONICAL_DOUBLE_NAN else d
  }

  /** floatToIntBits changes only NaNs, and only into a NaN, so applying it
      twice is applying it once. */
  lemma FloatToIntBitsCanonical(f: FloatBits)
    ensures !IsNaNFloat(f) ==> FloatToIntBits(f) == f
    ensures IsNaNFloat(f) <==> IsNaNFloat(FloatToIntBits(f))
    ensures FloatToIntBits(FloatToIntBits(f)) == FloatToIntBits(f)
  {
    assert IsNaNFloat(CANONICAL_FLOAT_NAN);
  }

  lemma DoubleToLongBitsCanonical(d: DoubleBits)
    ensures !IsNaNDouble(d) ==> DoubleToLongBits(d) == d
    ensures IsNaNDouble(d) <==> IsNaNDouble(DoubleToLongBits(d))
    ensures DoubleToLongBits(DoubleToLongBits(d)) == DoubleToLongBits(d)
  {
    assert IsNaNDouble(CANONICAL_DOUBLE_NAN);
  }

  /** Reading an n-byte signed value from the front of s: what
      DataInputStream.readByte/readShort/readInt/readLong do (EOFException on a
      short input) and what ByteBuffer's relative gets do. */
  function ReadSigned(n: nat, s: seq<uint8>): (r: Result<Parsed<int>>)
    requires n > 0
    ensures r.Ok? <==> |s| >= n
    ensures r.Ok? ==> InSigned(n, r.value.value)
    ensures r.Ok? ==> EncodeSigned(n, r.value.value) + r.value.rest == s
    ensures r.Err? ==> r.error == EOFException
  {
    if |s| < n then Err(EOFException)
    else
      EncodeDecodeSigned(s[..n]);
      assert s[..n] + s[n..] == s;
      Ok(Parsed(DecodeSigned(s[..n]), s[n..]))
  }

  /** Whatever follows an encoded value is left in place by reading it. */
  lemma ReadEncoded(n: nat, v: int, rest: seq<uint8>)
    requires n > 0 && InSigned(n, v)
    ensures ReadSigned(n, EncodeSigned(n, v) + rest) == Ok(Parsed(v, rest))
  {
    var s := EncodeSigned(n, v) + rest;
    assert s[..n] == EncodeSigned(n, v);
    assert s[n..] == rest;
    DecodeEncodeSigned(n, v);
  }
}
