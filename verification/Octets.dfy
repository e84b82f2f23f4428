/** A sixteen-bit length as two bytes, low byte first; bytes are bit vectors, lengths are numbers. */
module Octets {
  import opened FixedWidth

  function Mask(on: bool, mask: bv8): bv8 { if on then mask else 0 }
  predicate Odd(n: nat) { n % 2 == 1 }
  function Half(n: nat): nat { n / 2 }
  function Join(bit: bool, n: nat): nat { 2 * n + (if bit then 1 else 0) }

  datatype Bits8 = Bits8(a: bool, b: bool, c: bool, d: bool, e: bool, f: bool, g: bool, h: bool)

  function BitsOfNumber(n: nat): Bits8 {
    var n1 := Half(n);
    var n2 := Half(n1);
    var n3 := Half(n2);
    var n4 := Half(n3);
    var n5 := Half(n4);
    var n6 := Half(n5);
    var n7 := Half(n6);
    Bits8(Odd(n7), Odd(n6), Odd(n5), Odd(n4), Odd(n3), Odd(n2), Odd(n1), Odd(n))
  }

  function NumberOfBits(x: Bits8): nat {
    Join(x.h, Join(x.g, Join(x.f, Join(x.e, Join(x.d, Join(x.c, Join(x.b, Join(x.a, 0))))))))
  }

  lemma NumberIsSmall(x: Bits8)
    ensures NumberOfBits(x) < 256
  {
  }

  function ByteOfBits(x: Bits8): bv8 {
    Mask(x.a, 0x80) | Mask(x.b, 0x40) | Mask(x.c, 0x20) | Mask(x.d, 0x10)
      | Mask(x.e, 8) | Mask(x.f, 4) | Mask(x.g, 2) | Mask(x.h, 1)
  }

  function BitsOfByte(v: bv8): Bits8 {
    Bits8(v & 0x80 != 0, v & 0x40 != 0, v & 0x20 != 0, v & 0x10 != 0, v & 8 != 0, v & 4 != 0, v & 2 != 0, v & 1 != 0)
  }

  lemma Joined(n: nat)
    ensures Join(Odd(n), Half(n)) == n
  {
  }

  lemma Parted(bit: bool, n: nat)
    ensures Half(Join(bit, n)) == n && Odd(Join(bit, n)) == bit
  {
  }

  lemma Halves(n: nat, k: nat)
    requires n < 2 * k
    ensures Half(n) < k
  {
  }

  lemma NumberRoundTrip(n: nat)
    requires n < 256
    ensures NumberOfBits(BitsOfNumber(n)) == n
  {
    hide Odd, Half, Join;
    var n1 := Half(n);
    var n2 := Half(n1);
    var n3 := Half(n2);
    var n4 := Half(n3);
    var n5 := Half(n4);
    var n6 := Half(n5);
    var n7 := Half(n6);
    Halves(n, 128);
    Halves(n1, 64);
    Halves(n2, 32);
    Halves(n3, 16);
    Halves(n4, 8);
    Halves(n5, 4);
    Halves(n6, 2);
    Halves(n7, 1);
    Joined(n);
    Joined(n1);
    Joined(n2);
    Joined(n3);
    Joined(n4);
    Joined(n5);
    Joined(n6);
    Joined(n7);
  }

  lemma BitsRoundTrip(x: Bits8)
    ensures BitsOfNumber(NumberOfBits(x)) == x
  {
    hide Odd, Half, Join;
    var m8 := Join(x.a, 0);
    var m7 := Join(x.b, m8);
    var m6 := Join(x.c, m7);
    var m5 := Join(x.d, m6);
    var m4 := Join(x.e, m5);
    var m3 := Join(x.f, m4);
    var m2 := Join(x.g, m3);
    Parted(x.h, m2);
    Parted(x.g, m3);
    Parted(x.f, m4);
    Parted(x.e, m5);
    Parted(x.d, m6);
    Parted(x.c, m7);
    Parted(x.b, m8);
    Parted(x.a, 0);
  }

  lemma ByteRoundTrip(v: bv8)
    ensures ByteOfBits(BitsOfByte(v)) == v
  {
  }

  lemma MaskRoundTrip(x: Bits8)
    ensures BitsOfByte(ByteOfBits(x)) == x
  {
  }

  function Low(n: uint16): bv8 { ByteOfBits(BitsOfNumber(n % 256)) }
  function High(n: uint16): bv8 { ByteOfBits(BitsOfNumber(n / 256)) }

  function Length(lo: bv8, hi: bv8): uint16 {
    NumberIsSmall(BitsOfByte(lo));
    NumberIsSmall(BitsOfByte(hi));
    NumberOfBits(BitsOfByte(lo)) + 256 * NumberOfBits(BitsOfByte(hi))
  }

  lemma LengthRoundTrip(n: uint16)
    ensures Length(Low(n), High(n)) == n
  {
    hide BitsOfNumber, NumberOfBits, ByteOfBits, BitsOfByte;
    MaskRoundTrip(BitsOfNumber(n % 256));
    MaskRoundTrip(BitsOfNumber(n / 256));
    NumberRoundTrip(n % 256);
    NumberRoundTrip(n / 256);
  }

  lemma SplitLength(a: nat, b: nat)
    requires a < 256 && b < 256
    ensures (a + 256 * b) % 256 == a && (a + 256 * b) / 256 == b
  {
  }

  lemma LengthOfBytes(lo: bv8, hi: bv8)
    ensures Low(Length(lo, hi)) == lo && High(Length(lo, hi)) == hi
  {
    hide BitsOfNumber, NumberOfBits, ByteOfBits, BitsOfByte;
    NumberIsSmall(BitsOfByte(lo));
    NumberIsSmall(BitsOfByte(hi));
    SplitLength(NumberOfBits(BitsOfByte(lo)), NumberOfBits(BitsOfByte(hi)));
    BitsRoundTrip(BitsOfByte(lo));
    BitsRoundTrip(BitsOfByte(hi));
    ByteRoundTrip(lo);
    ByteRoundTrip(hi);
  }

  lemma HighByteMatters(lo: bv8, hi: bv8, other: bv8)
    requires Length(lo, hi) == 0 && other != hi
    ensures Length(lo, other) >= 256
  {
    hide BitsOfNumber, NumberOfBits, ByteOfBits, BitsOfByte;
    if NumberOfBits(BitsOfByte(other)) == 0 {
      BitsRoundTrip(BitsOfByte(hi));
      BitsRoundTrip(BitsOfByte(other));
      ByteRoundTrip(hi);
      ByteRoundTrip(other);
    }
  }
}
