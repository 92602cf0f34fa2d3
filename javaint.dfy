/** Java's fixed-width integers as they appear in the correlator: data bytes,
    the wrapping `byte` ring pointer and the 32-bit `int` built by byte4ToInt. */
module JavaInt {

  /** A byte of a data file, read as its unsigned value. The Java code keeps
      bytes signed and converts them with `b >= 0 ? b : 256 + b`, which gives
      exactly this value back. */
  type Byte = b: int | 0 <= b < 256

  const Two32: int := 0x1_0000_0000
  const MinInt32: int := -0x8000_0000
  const MaxInt32: int := 0x7fff_ffff

  /** The value a Java `byte` holds for the file byte b (two's complement). */
  function Signed(b: Byte): (v: int)
    ensures -128 <= v < 128
    ensures v == b || v == b - 256
    ensures v < 0 <==> b >= 128
  {
    if b < 128 then b else b - 256
  }

  /** The value of a signed Java byte back as a file byte: `v >= 0 ? v : 256 + v`. */
  function Unsigned(v: int): (b: Byte)
    requires -128 <= v < 128
    ensures Signed(b) == v
  {
    if v >= 0 then v else 256 + v
  }

  /** Wrap-around of a Java `byte` variable: `x` reduced into [-128, 127]. */
  function WrapByte(x: int): (r: int)
    ensures -128 <= r < 128
    ensures (x - r) % 256 == 0
    ensures -128 <= x < 128 ==> r == x
  {
    (x + 128) % 256 - 128
  }

  /** `b--` and `b++` on a Java byte b: one step down or up, -128 and 127
      wrapping to each other. */
  function ByteDec(x: int): (r: int)
    ensures -128 <= x < 128 ==> -128 <= r < 128
  {
    if x <= -128 then 127 else x - 1
  }

  function ByteInc(x: int): (r: int)
    ensures -128 <= x < 128 ==> -128 <= r < 128
  {
    if x >= 127 then -128 else x + 1
  }

  /** Both are the byte wrap-around of x - 1 and x + 1. */
  lemma ByteDecWraps(x: int)
    requires -128 <= x < 128
    ensures ByteDec(x) == WrapByte(x - 1)
  {
    if x == -128 {
      assert WrapByte(-129) == (-1) % 256 - 128;
    }
  }

  lemma ByteIncWraps(x: int)
    requires -128 <= x < 128
    ensures ByteInc(x) == WrapByte(x + 1)
  {
    if x == 127 {
      assert WrapByte(128) == 256 % 256 - 128;
    }
  }

  /** Wrap-around of a Java `int`: `x` reduced into [-2^31, 2^31). */
  function ToInt32(x: int): (r: int)
    ensures MinInt32 <= r <= MaxInt32
    ensures (x - r) % Two32 == 0
    ensures MinInt32 <= x <= MaxInt32 ==> r == x
  {
    (x - MinInt32) % Two32 + MinInt32
  }

  /** Values that agree modulo 2^32 wrap to the same Java `int`. */
  lemma ToInt32Same(x: int, y: int)
    requires (x - y) % Two32 == 0
    ensures ToInt32(x) == ToInt32(y)
  {
    var k := (x - y) / Two32;
    assert x - MinInt32 == (y - MinInt32) + Two32 * k;
  }

  /** A difference made of two multiples of 2^32 is one. */
  lemma Congruent(total: int, span: int, a: int, b: int)
    requires a % Two32 == 0 && b % Two32 == 0 && (total - span == a + b || total - span == a - b)
    ensures (total - span) % Two32 == 0
  {
    var i, j := a / Two32, b / Two32;
    if total - span == a + b {
      assert total - span == Two32 * (i + j);
    } else {
      assert total - span == Two32 * (i - j);
    }
  }

  /** Java wraps a product of ints after every multiplication; wrapping
      once, at the end, gives the same value. So the source's
      `w * w * w` is ToInt32(w * w * w), and every product of weights in
      the model is written that way. */
  lemma WrapProduct(a: int, b: int)
    ensures ToInt32(ToInt32(a) * b) == ToInt32(a * b)
  {
    var r := ToInt32(a);
    var k := (a - r) / Two32;
    assert a == r + Two32 * k;
    assert a * b - r * b == Two32 * (k * b);
    ToInt32Same(r * b, a * b);
  }

  /** The little-endian unsigned value of four bytes. */
  function LittleEndian(b0: Byte, b1: Byte, b2: Byte, b3: Byte): (u: int)
    ensures 0 <= u < Two32
  {
    b0 + 256 * b1 + 65536 * b2 + 16777216 * b3
  }

  /** byte4ToInt: four bytes, least significant first, as a Java `int`.
      The four additions of the source are done in 32-bit arithmetic, so a top
      byte of 128 or more gives a negative value. */
  function Byte4ToInt(byte4: seq<Byte>): (r: int)
    requires |byte4| == 4
    ensures MinInt32 <= r <= MaxInt32
    ensures byte4[3] < 128 ==> r == LittleEndian(byte4[0], byte4[1], byte4[2], byte4[3])
    ensures byte4[3] >= 128 ==> r == LittleEndian(byte4[0], byte4[1], byte4[2], byte4[3]) - Two32
  {
    ToInt32(LittleEndian(byte4[0], byte4[1], byte4[2], byte4[3]))
  }

  /** The four bytes, least significant first, of a Java `int` (two's complement). */
  function IntToByte4(x: int): (byte4: seq<Byte>)
    requires MinInt32 <= x <= MaxInt32
    ensures |byte4| == 4
  {
    var u := if x >= 0 then x else x + Two32;
    [u % 256, u / 256 % 256, u / 65536 % 256, u / 16777216]
  }

  /** byte4ToInt inverts the little-endian layout of every Java `int`. */
  lemma Byte4RoundTrip(x: int)
    requires MinInt32 <= x <= MaxInt32
    ensures Byte4ToInt(IntToByte4(x)) == x
  {
    var u := if x >= 0 then x else x + Two32;
    var b := IntToByte4(x);
    DigitsCompose(u);
    assert LittleEndian(b[0], b[1], b[2], b[3]) == u;
  }

  /** And byte4ToInt loses nothing: the bytes come back from the value. */
  lemma Byte4Injective(byte4: seq<Byte>)
    requires |byte4| == 4
    ensures IntToByte4(Byte4ToInt(byte4)) == byte4
  {
    var r := Byte4ToInt(byte4);
    var u := LittleEndian(byte4[0], byte4[1], byte4[2], byte4[3]);
    assert (if r >= 0 then r else r + Two32) == u;
    DigitsOf(byte4[0], byte4[1], byte4[2], byte4[3]);
  }

  /** A value below 2^32 is the little-endian value of its base-256 digits. */
  lemma DigitsCompose(u: int)
    requires 0 <= u < Two32
    ensures 0 <= u / 16777216 < 256
    ensures u == (u % 256) + 256 * (u / 256 % 256) + 65536 * (u / 65536 % 256) + 16777216 * (u / 16777216)
  {
    var q1 := u / 256;
    var q2 := q1 / 256;
    var q3 := q2 / 256;
    assert u == u % 256 + 256 * q1;
    assert q1 == q1 % 256 + 256 * q2;
    assert q2 == q2 % 256 + 256 * q3;
    assert q2 == u / 65536;
    assert q3 == u / 16777216;
  }

  /** The base-256 digits of a little-endian value are its bytes. */
  lemma DigitsOf(b0: Byte, b1: Byte, b2: Byte, b3: Byte)
    ensures var u := LittleEndian(b0, b1, b2, b3);
      u % 256 == b0 && u / 256 % 256 == b1 && u / 65536 % 256 == b2 && u / 16777216 == b3
  {
    var u := LittleEndian(b0, b1, b2, b3);
    var q1: int := b1 as int + 256 * b2 as int + 65536 * b3 as int;
    var q2: int := b2 as int + 256 * b3 as int;
    assert u == b0 as int + 256 * q1;
    assert u % 256 == b0 && u / 256 == q1;
    assert q1 == b1 as int + 256 * q2;
    assert q1 % 256 == b1 && q1 / 256 == q2;
    assert q2 % 256 == b2 && q2 / 256 == b3;
    assert u / 65536 == q2;
    assert u / 16777216 == b3;
  }
}
