/** C-level value types the VFS adapter traffics in: signed `char`, 32- and
    64-bit `int`s, raw bytes, NUL-terminated strings and nullable pointers.
    The target is wasm32, where `char` is signed and `int` is 32 bits. */
module CTypes {

  /** A C `char` on wasm32 (signed, 8 bits). */
  type CChar = c: int | -0x80 <= c < 0x80

  /** The NUL character that terminates a C string. */
  const NUL: CChar := 0

  /** A C `int`. */
  type Int32 = x: int | -0x8000_0000 <= x < 0x8000_0000

  /** A `sqlite_int64`. */
  type Int64 = x: int | -0x8000_0000_0000_0000 <= x < 0x8000_0000_0000_0000

  /** One byte of file data. */
  type Byte = b: int | 0 <= b < 0x100

  /** A readable C string as the bytes from its first character up to and
      including (at least) its terminator: there is always a first byte to
      look at, even for the empty string. */
  type CStr = s: seq<CChar> | |s| > 0 witness [NUL]

  /** A C pointer that may be NULL. */
  datatype Nullable<+T> = Null | Ref(target: T)

  const TWO_32: int := 0x1_0000_0000

  /** The `(int)` cast of a 64-bit value: keeps the low 32 bits and reads them
      as two's complement, which is what clang does for wasm32. The result is
      the one C `int` congruent to the input modulo 2^32. */
  function NarrowToInt(x: Int64): (r: Int32)
    ensures (x - r) % TWO_32 == 0
    ensures -0x8000_0000 <= x < 0x8000_0000 ==> r == x
  {
    (x + 0x8000_0000) % TWO_32 - 0x8000_0000
  }

  /** Two 64-bit values narrow to the same `int` exactly when they agree
      modulo 2^32. */
  lemma NarrowAgreesModulo32(x: Int64, y: Int64)
    ensures NarrowToInt(x) == NarrowToInt(y) <==> (x - y) % TWO_32 == 0
  {
    var rx, ry := NarrowToInt(x), NarrowToInt(y);
    var qx, qy := (x - rx) / TWO_32, (y - ry) / TWO_32;
    assert x == rx + qx * TWO_32;
    assert y == ry + qy * TWO_32;
    assert x - y == (rx - ry) + (qx - qy) * TWO_32;
    if (x - y) % TWO_32 == 0 {
      var k := (x - y) / TWO_32;
      assert rx - ry == (k - qx + qy) * TWO_32;
      assert -TWO_32 < rx - ry < TWO_32;
    }
  }

  /** The characters a C string denotes: everything before its first NUL. */
  function StringValue(s: seq<CChar>): (v: seq<CChar>)
    ensures |v| <= |s| && v == s[..|v|]
    ensures NUL !in v
    ensures |v| < |s| ==> s[|v|] == NUL
  {
    if |s| == 0 || s[0] == NUL then [] else [s[0]] + StringValue(s[1..])
  }
}
