/** The sixteen-bit register of CRC-16/CCITT-FALSE: shifting it, adding to it, and undoing both. */
module CrcRegister {
  const START: bv16 := 0xFFFF

  /** One shift, reduced by the generator of section 2 of ITU-T V.41. */
  function Shift(c: bv16): bv16 {
    if c & 0x8000 != 0 then (c << 1) ^ 0x1021 else c << 1
  }

  function Unshift(c: bv16): bv16 {
    if c & 1 != 0 then ((c ^ 0x1021) >> 1) | 0x8000 else c >> 1
  }

  function Add(x: bv16, y: bv16): bv16 { x ^ y }

  function Half(x: bv16): bv16 { x >> 1 }

  function Top(bit: bool): bv16 { if bit then 0x8000 else 0 }

  function TopByte(b: bv8): bv16 { (b as bv16) << 8 }

  lemma ReverseClear(c: bv16)
    requires c & 0x8000 == 0
    ensures (c << 1) & 1 == 0 && (c << 1) >> 1 == c
  {
  }

  lemma ReverseSet(c: bv16)
    requires c & 0x8000 != 0
    ensures ((c << 1) ^ 0x1021) & 1 != 0 && ((((c << 1) ^ 0x1021) ^ 0x1021) >> 1) | 0x8000 == c
  {
  }

  lemma UnshiftClear(c: bv16)
    requires c & 1 == 0
    ensures Unshift(c) == c >> 1
  {
  }

  lemma UnshiftSet(c: bv16)
    requires c & 1 != 0
    ensures Unshift(c) == ((c ^ 0x1021) >> 1) | 0x8000
  {
  }

  lemma ShiftReverses(c: bv16)
    ensures Unshift(Shift(c)) == c
  {
    hide Unshift;
    if c & 0x8000 == 0 {
      ReverseClear(c);
      UnshiftClear(c << 1);
    } else {
      ReverseSet(c);
      UnshiftSet((c << 1) ^ 0x1021);
    }
  }

  lemma AddTwice(t: bv16, x: bv16)
    ensures Add(t, Add(t, x)) == x
  {
  }

  lemma AddCancels(t: bv16, x: bv16, y: bv16)
    requires Add(t, x) == Add(t, y)
    ensures x == y
  {
    AddTwice(t, x);
    AddTwice(t, y);
    hide Add;
  }

  lemma AddCommutes(x: bv16, y: bv16)
    ensures Add(x, y) == Add(y, x)
  {
  }

  lemma AddAssociates(a: bv16, b: bv16, c: bv16)
    ensures Add(Add(a, b), c) == Add(a, Add(b, c))
  {
  }

  lemma AddZero(a: bv16)
    ensures Add(a, 0) == a
  {
  }

  // ---------------------------------------------------------------- registers with only their top bits in use

  /** All but the top `n` bits. */
  function Below(n: nat): bv16
    requires n <= 16
  {
    match n
    case 0 => 0xFFFF case 1 => 0x7FFF case 2 => 0x3FFF case 3 => 0x1FFF
    case 4 => 0xFFF case 5 => 0x7FF case 6 => 0x3FF case 7 => 0x1FF
    case 8 => 0xFF case 9 => 0x7F case 10 => 0x3F case 11 => 0x1F
    case 12 => 0xF case 13 => 7 case 14 => 3 case 15 => 1 case _ => 0
  }

  lemma BelowStep(n: nat)
    requires n < 16
    ensures Below(n + 1) == Half(Below(n)) && Below(n) & 1 == 1
  {
  }

  /** At most the top `n` bits are set. */
  predicate OnlyTop(r: bv16, n: nat)
    requires n <= 16
  {
    r & Below(n) == 0
  }

  lemma ZeroOnlyTop()
    ensures OnlyTop(0, 0)
  {
  }

  lemma HalfClear(p: bv16, m: bv16, bit: bool)
    requires p & m == 0
    ensures Add(Top(bit), Half(p)) & Half(m) == 0
  {
  }

  lemma PushOnTop(bit: bool, p: bv16, n: nat)
    requires n < 16 && OnlyTop(p, n)
    ensures OnlyTop(Add(Top(bit), Half(p)), n + 1)
  {
    HalfClear(p, Below(n), bit);
    BelowStep(n);
    hide Add, Half, Top, Below;
  }

  /** The lowest bit is clear. */
  predicate Even(p: bv16) {
    Half(p) << 1 == p
  }

  lemma ClearIsEven(p: bv16, m: bv16)
    requires p & m == 0 && m & 1 == 1
    ensures Even(p)
  {
  }

  lemma OnlyTopIsEven(p: bv16, n: nat)
    requires n < 16 && OnlyTop(p, n)
    ensures Even(p)
  {
    BelowStep(n);
    ClearIsEven(p, Below(n));
    hide Even, Below, Half;
  }

  lemma AddBelowClear(c: bv16, h: bv16)
    requires h & 0x8000 == 0 && c & 0x8000 == 0
    ensures (c ^ h) & 0x8000 == 0 && (c ^ h) << 1 == (c << 1) ^ (h << 1)
  {
  }

  lemma AddBelowSet(c: bv16, h: bv16)
    requires h & 0x8000 == 0 && c & 0x8000 != 0
    ensures (c ^ h) & 0x8000 != 0 && ((c ^ h) << 1) ^ 0x1021 == ((c << 1) ^ 0x1021) ^ (h << 1)
  {
  }

  lemma ShiftClear(c: bv16)
    requires c & 0x8000 == 0
    ensures Shift(c) == c << 1
  {
  }

  lemma ShiftSet(c: bv16)
    requires c & 0x8000 != 0
    ensures Shift(c) == (c << 1) ^ 0x1021
  {
  }

  lemma AddBothSet(c: bv16, h: bv16)
    requires h & 0x8000 != 0 && c & 0x8000 != 0
    ensures (c ^ h) & 0x8000 == 0 && (c ^ h) << 1 == ((c << 1) ^ 0x1021) ^ ((h << 1) ^ 0x1021)
  {
  }

  lemma ShiftLinearBelow(c: bv16, h: bv16)
    requires h & 0x8000 == 0
    ensures Shift(Add(c, h)) == Add(Shift(c), Shift(h))
  {
    hide Shift;
    ShiftClear(h);
    if c & 0x8000 == 0 {
      AddBelowClear(c, h);
      ShiftClear(c);
      ShiftClear(c ^ h);
    } else {
      AddBelowSet(c, h);
      ShiftSet(c);
      ShiftSet(c ^ h);
    }
  }

  lemma ShiftLinearBoth(c: bv16, h: bv16)
    requires h & 0x8000 != 0 && c & 0x8000 != 0
    ensures Shift(Add(c, h)) == Add(Shift(c), Shift(h))
  {
    hide Shift;
    AddBothSet(c, h);
    ShiftSet(c);
    ShiftSet(h);
    ShiftClear(c ^ h);
  }

  lemma ShiftLinear(c: bv16, h: bv16)
    ensures Shift(Add(c, h)) == Add(Shift(c), Shift(h))
  {
    hide Shift;
    if h & 0x8000 == 0 {
      ShiftLinearBelow(c, h);
    } else if c & 0x8000 == 0 {
      ShiftLinearBelow(h, c);
      AddCommutes(h, c);
      AddCommutes(Shift(h), Shift(c));
    } else {
      ShiftLinearBoth(c, h);
    }
  }

  lemma ShiftHalf(p: bv16)
    requires Even(p)
    ensures Half(p) & 0x8000 == 0 && Shift(Half(p)) == p
  {
  }

  /** What is added below the top bit is merely moved up. */
  lemma ShiftMovesUp(c: bv16, p: bv16)
    requires Even(p)
    ensures Shift(Add(c, Half(p))) == Add(Shift(c), p)
  {
    ShiftHalf(p);
    ShiftLinear(c, Half(p));
    hide Shift, Add, Half, Even;
  }

  lemma PushInjective(a: bool, p: bv16, b: bool, q: bv16)
    requires Even(p) && Even(q) && Add(Top(a), Half(p)) == Add(Top(b), Half(q))
    ensures a == b && p == q
  {
  }

  lemma TopByteBits(b: bv8)
    ensures TopByte(b)
      == Add(Top(b & 0x80 != 0), Half(Add(Top(b & 0x40 != 0), Half(Add(Top(b & 0x20 != 0), Half(Add(Top(b & 0x10 != 0),
         Half(Add(Top(b & 8 != 0), Half(Add(Top(b & 4 != 0),
                                            Half(Add(Top(b & 2 != 0), Half(Add(Top(b & 1 != 0), Half(0))))))))))))))))
  {
  }

  // ---------------------------------------------------------------- the register as two bytes

  function LowByte(r: bv16): bv8 { (r & 0xFF) as bv8 }
  function HighByte(r: bv16): bv8 { ((r >> 8) & 0xFF) as bv8 }
  function FromBytes(lo: bv8, hi: bv8): bv16 { (lo as bv16) | ((hi as bv16) << 8) }

  lemma BytesOfRegister(r: bv16)
    ensures FromBytes(LowByte(r), HighByte(r)) == r
  {
  }

  lemma RegisterOfBytes(lo: bv8, hi: bv8)
    ensures LowByte(FromBytes(lo, hi)) == lo && HighByte(FromBytes(lo, hi)) == hi
  {
  }
}
