/** Little-endian byte encodings of the fixed-width integers. */
module LittleEndian {
  import opened FixedWidth

  function U16Bytes(x: uint16): (b: seq<byte>)
    ensures |b| == 2
  {
    [x % 256, x / 256]
  }

  function U16(lo: byte, hi: byte): uint16 {
    lo + 256 * hi
  }

  function U32Bytes(x: uint32): (b: seq<byte>)
    ensures |b| == 4
  {
    var x1 := x / 256;
    var x2 := x1 / 256;
    [x % 256, x1 % 256, x2 % 256, x2 / 256]
  }

  function U32(a: byte, b: byte, c: byte, d: byte): uint32 {
    a + 256 * (b + 256 * (c + 256 * d))
  }

  lemma U16RoundTrip(x: uint16)
    ensures var b := U16Bytes(x); U16(b[0], b[1]) == x
  {
  }

  lemma U32RoundTrip(x: uint32)
    ensures var b := U32Bytes(x); U32(b[0], b[1], b[2], b[3]) == x
  {
    var x1 := x / 256;
    var x2 := x1 / 256;
    assert x2 % 256 + 256 * (x2 / 256) == x2;
    assert x1 % 256 + 256 * x2 == x1;
  }
}
