/**
 CRC-16/CCITT-FALSE, a byte at a time, and why it notices damage: fed bit by bit, its register never forgets a
 difference within any sixteen consecutive bits.
*/
module Crc16 {
  import opened CrcRegister

  function Shifts(c: bv16, n: nat): bv16 {
    if n == 0 then c else Shift(Shifts(c, n - 1))
  }

  function Absorb(c: bv16, b: bv8): bv16 {
    Shifts(Add(c, TopByte(b)), 8)
  }

  function CrcFrom(c: bv16, data: seq<bv8>): bv16 {
    if data == [] then c else Absorb(CrcFrom(c, data[..|data| - 1]), data[|data| - 1])
  }

  // ---------------------------------------------------------------- the values it is known by

  lemma {:induction false} EightShifts(c0: bv16, c1: bv16, c2: bv16, c3: bv16, c4: bv16, c5: bv16, c6: bv16, c7: bv16,
                                       c8: bv16)
    requires Shift(c0) == c1 && Shift(c1) == c2 && Shift(c2) == c3 && Shift(c3) == c4
    requires Shift(c4) == c5 && Shift(c5) == c6 && Shift(c6) == c7 && Shift(c7) == c8
    ensures Shifts(c0, 8) == c8
  {
    hide Shift;
    assert Shifts(c0, 1) == c1;
    assert Shifts(c0, 2) == c2;
    assert Shifts(c0, 4) == c4;
    assert Shifts(c0, 6) == c6;
  }

  lemma Digit1()
    ensures Absorb(0xFFFF, 0x31) == 0xC782
  {
    assert Add(0xFFFF, TopByte(0x31)) == 0xCEFF;
    hide Shifts;
    EightShifts(0xCEFF, 0x8DDF, 0x0B9F, 0x173E, 0x2E7C,
                0x5CF8, 0xB9F0, 0x63C1, 0xC782);
  }

  lemma Digit2()
    ensures Absorb(0xC782, 0x32) == 0x3DBA
  {
    assert Add(0xC782, TopByte(0x32)) == 0xF582;
    hide Shifts;
    EightShifts(0xF582, 0xFB25, 0xE66B, 0xDCF7, 0xA9CF,
                0x43BF, 0x877E, 0x1EDD, 0x3DBA);
  }

  lemma Digit3()
    ensures Absorb(0x3DBA, 0x33) == 0x5BCE
  {
    assert Add(0x3DBA, TopByte(0x33)) == 0x0EBA;
    hide Shifts;
    EightShifts(0x0EBA, 0x1D74, 0x3AE8, 0x75D0, 0xEBA0,
                0xC761, 0x9EE3, 0x2DE7, 0x5BCE);
  }

  lemma Digit4()
    ensures Absorb(0x5BCE, 0x34) == 0x5349
  {
    assert Add(0x5BCE, TopByte(0x34)) == 0x6FCE;
    hide Shifts;
    EightShifts(0x6FCE, 0xDF9C, 0xAF19, 0x4E13, 0x9C26,
                0x286D, 0x50DA, 0xA1B4, 0x5349);
  }

  lemma Digit5()
    ensures Absorb(0x5349, 0x35) == 0x4560
  {
    assert Add(0x5349, TopByte(0x35)) == 0x6649;
    hide Shifts;
    EightShifts(0x6649, 0xCC92, 0x8905, 0x022B, 0x0456,
                0x08AC, 0x1158, 0x22B0, 0x4560);
  }

  lemma Digit6()
    ensures Absorb(0x4560, 0x36) == 0x2EF4
  {
    assert Add(0x4560, TopByte(0x36)) == 0x7360;
    hide Shifts;
    EightShifts(0x7360, 0xE6C0, 0xDDA1, 0xAB63, 0x46E7,
                0x8DCE, 0x0BBD, 0x177A, 0x2EF4);
  }

  lemma Digit7()
    ensures Absorb(0x2EF4, 0x37) == 0x7718
  {
    assert Add(0x2EF4, TopByte(0x37)) == 0x19F4;
    hide Shifts;
    EightShifts(0x19F4, 0x33E8, 0x67D0, 0xCFA0, 0x8F61,
                0x0EE3, 0x1DC6, 0x3B8C, 0x7718);
  }

  lemma Digit8()
    ensures Absorb(0x7718, 0x38) == 0xA12B
  {
    assert Add(0x7718, TopByte(0x38)) == 0x4F18;
    hide Shifts;
    EightShifts(0x4F18, 0x9E30, 0x2C41, 0x5882, 0xB104,
                0x7229, 0xE452, 0xD885, 0xA12B);
  }

  lemma Digit9()
    ensures Absorb(0xA12B, 0x39) == 0x29B1
  {
    assert Add(0xA12B, TopByte(0x39)) == 0x982B;
    hide Shifts;
    EightShifts(0x982B, 0x2077, 0x40EE, 0x81DC, 0x1399,
                0x2732, 0x4E64, 0x9CC8, 0x29B1);
  }

  /** The digits 1 to 9 in ASCII. */
  const DIGITS: seq<bv8> := [0x31, 0x32, 0x33, 0x34, 0x35, 0x36, 0x37, 0x38, 0x39]

  lemma {:induction false} OneMoreByte(c: bv16, data: seq<bv8>, b: bv8)
    ensures CrcFrom(c, data + [b]) == Absorb(CrcFrom(c, data), b)
  {
    hide Absorb;
    assert (data + [b])[..|data|] == data;
  }

  /** From all ones, the digits leave the check value of CRC-16/CCITT-FALSE; an empty message leaves all ones. */
  lemma {:induction false} CheckValue()
    ensures CrcFrom(0xFFFF, []) == 0xFFFF
    ensures CrcFrom(0xFFFF, DIGITS) == 0x29B1
  {
    hide Absorb;
    Digit1();
    Digit2();
    Digit3();
    Digit4();
    Digit5();
    Digit6();
    Digit7();
    Digit8();
    Digit9();
    OneMoreByte(0xFFFF, DIGITS[..0], DIGITS[0]);
    assert DIGITS[..0] + [DIGITS[0]] == DIGITS[..1];
    OneMoreByte(0xFFFF, DIGITS[..1], DIGITS[1]);
    assert DIGITS[..1] + [DIGITS[1]] == DIGITS[..2];
    OneMoreByte(0xFFFF, DIGITS[..2], DIGITS[2]);
    assert DIGITS[..2] + [DIGITS[2]] == DIGITS[..3];
    OneMoreByte(0xFFFF, DIGITS[..3], DIGITS[3]);
    assert DIGITS[..3] + [DIGITS[3]] == DIGITS[..4];
    OneMoreByte(0xFFFF, DIGITS[..4], DIGITS[4]);
    assert DIGITS[..4] + [DIGITS[4]] == DIGITS[..5];
    OneMoreByte(0xFFFF, DIGITS[..5], DIGITS[5]);
    assert DIGITS[..5] + [DIGITS[5]] == DIGITS[..6];
    OneMoreByte(0xFFFF, DIGITS[..6], DIGITS[6]);
    assert DIGITS[..6] + [DIGITS[6]] == DIGITS[..7];
    OneMoreByte(0xFFFF, DIGITS[..7], DIGITS[7]);
    assert DIGITS[..7] + [DIGITS[7]] == DIGITS[..8];
    OneMoreByte(0xFFFF, DIGITS[..8], DIGITS[8]);
    assert DIGITS[..8] + [DIGITS[8]] == DIGITS[..9];
    assert DIGITS[..0] == [] && DIGITS[..9] == DIGITS;
  }

  method Crc16CcittFalse(data: seq<bv8>) returns (crc: bv16)
    ensures crc == CrcFrom(START, data)
    ensures data == [] ==> crc == 0xFFFF
    ensures data == DIGITS ==> crc == 0x29B1
  {
    hide Shift, Add, TopByte;
    CheckValue();
    crc := START;
    for i := 0 to |data|
      invariant crc == CrcFrom(START, data[..i])
    {
      crc := AddByte(crc, data[i]);
      ghost var c := crc;
      for b := 0 to 8
        invariant crc == Shifts(c, b)
      {
        crc := ShiftOnce(crc);
      }
      assert data[..i + 1][..i] == data[..i];
    }
    assert data[..|data|] == data;
  }

  method AddByte(c: bv16, b: bv8) returns (r: bv16)
    ensures r == Add(c, TopByte(b))
  {
    r := c ^ ((b as bv16) << 8);
  }

  method ShiftOnce(c: bv16) returns (r: bv16)
    ensures r == Shift(c)
  {
    if c & 0x8000 != 0 {
      r := (c << 1) ^ 0x1021;
    } else {
      r := c << 1;
    }
  }

  lemma {:induction false} ShiftsInjective(x: bv16, y: bv16, n: nat)
    requires Shifts(x, n) == Shifts(y, n)
    ensures x == y
  {
    hide Shift, Unshift;
    if n > 0 {
      ShiftReverses(Shifts(x, n - 1));
      ShiftReverses(Shifts(y, n - 1));
      ShiftsInjective(x, y, n - 1);
    }
  }

  // ---------------------------------------------------------------- bit by bit

  function Feed(c: bv16, bits: seq<bool>): bv16 {
    if bits == [] then c else Shift(Add(Feed(c, bits[..|bits| - 1]), Top(bits[|bits| - 1])))
  }

  function BitsOf(b: bv8): (r: seq<bool>)
    ensures |r| == 8
  {
    Eight(b & 0x80 != 0, b & 0x40 != 0, b & 0x20 != 0, b & 0x10 != 0, b & 8 != 0, b & 4 != 0, b & 2 != 0, b & 1 != 0)
  }

  function Eight(a: bool, b: bool, c: bool, d: bool, e: bool, f: bool, g: bool, h: bool): (r: seq<bool>)
    ensures |r| == 8
  {
    [a] + ([b] + ([c] + ([d] + ([e] + ([f] + ([g] + ([h] + [])))))))
  }

  function Bits(data: seq<bv8>): (r: seq<bool>)
    ensures |r| == 8 * |data|
  {
    if data == [] then [] else Bits(data[..|data| - 1]) + BitsOf(data[|data| - 1])
  }

  lemma {:induction false} FeedAppend(c: bv16, a: seq<bool>, b: seq<bool>)
    ensures Feed(c, a + b) == Feed(Feed(c, a), b)
    decreases |b|
  {
    hide Shift, Top, Add;
    if b == [] {
      assert a + b == a;
    } else {
      var n := |b| - 1;
      FeedAppend(c, a, b[..n]);
      assert (a + b)[..|a + b| - 1] == a + b[..n];
    }
  }

  lemma {:induction false} FeedInjective(c: bv16, d: bv16, bits: seq<bool>)
    requires Feed(c, bits) == Feed(d, bits)
    ensures c == d
    decreases |bits|
  {
    hide Shift, Unshift, Top, Add;
    if bits != [] {
      var n := |bits| - 1;
      var x, y, t := Feed(c, bits[..n]), Feed(d, bits[..n]), Top(bits[n]);
      ShiftReverses(Add(x, t));
      ShiftReverses(Add(y, t));
      AddCommutes(x, t);
      AddCommutes(y, t);
      AddCancels(t, x, y);
      FeedInjective(c, d, bits[..n]);
    }
  }

  /** A run of at most sixteen bits as they enter the register, the first at the top. */
  function Pack(w: seq<bool>): bv16 {
    if w == [] then 0 else Add(Top(w[0]), Half(Pack(w[1..])))
  }

  lemma {:induction false} PackClear(w: seq<bool>)
    requires |w| <= 16
    ensures OnlyTop(Pack(w), |w|)
    decreases |w|
  {
    hide Top, Add, Half, OnlyTop;
    if w == [] {
      ZeroOnlyTop();
    } else {
      PackClear(w[1..]);
      PushOnTop(w[0], Pack(w[1..]), |w| - 1);
    }
  }

  lemma {:induction false} PackEven(w: seq<bool>)
    requires |w| < 16
    ensures Even(Pack(w))
  {
    hide OnlyTop, Even, Pack;
    PackClear(w);
    OnlyTopIsEven(Pack(w), |w|);
  }

  lemma {:induction false} ShiftsFirst(c: bv16, n: nat)
    ensures Shifts(Shift(c), n) == Shifts(c, n + 1)
  {
    hide Shift;
    if n > 0 {
      ShiftsFirst(c, n - 1);
    }
  }

  lemma {:induction false} FeedFirst(c: bv16, w: seq<bool>)
    requires w != []
    ensures Feed(c, w) == Feed(Shift(Add(c, Top(w[0]))), w[1..])
  {
    hide Shift, Top, Add;
    assert w == [w[0]] + w[1..];
    FeedAppend(c, [w[0]], w[1..]);
    assert [w[0]][..0] == [];
  }

  /** Up to sixteen bits may be added to the register at once and shifted afterwards. */
  lemma {:induction false} FeedIsPacked(c: bv16, w: seq<bool>)
    requires |w| <= 16
    ensures Feed(c, w) == Shifts(Add(c, Pack(w)), |w|)
    decreases |w|
  {
    hide Shift, Top, Add, Half, Even;
    if w == [] {
      AddZero(c);
    } else {
      var p, t := Pack(w[1..]), Top(w[0]);
      FeedFirst(c, w);
      hide Feed;
      FeedIsPacked(Shift(Add(c, t)), w[1..]);
      PackEven(w[1..]);
      ShiftMovesUp(Add(c, t), p);
      AddAssociates(c, t, Half(p));
      ShiftsFirst(Add(c, Pack(w)), |w| - 1);
    }
  }

  lemma {:induction false} PackInjective(w: seq<bool>, v: seq<bool>)
    requires |w| == |v| <= 16 && Pack(w) == Pack(v)
    ensures w == v
    decreases |w|
  {
    hide Top, Add, Half, Even;
    if w != [] {
      PackEven(w[1..]);
      PackEven(v[1..]);
      PushInjective(w[0], Pack(w[1..]), v[0], Pack(v[1..]));
      PackInjective(w[1..], v[1..]);
      assert w == [w[0]] + w[1..] && v == [v[0]] + v[1..];
    }
  }

  /** A burst of damage spanning at most sixteen bits always shows in the register. */
  lemma {:induction false} BurstShows(c: bv16, pre: seq<bool>, w: seq<bool>, v: seq<bool>, post: seq<bool>)
    requires |w| == |v| <= 16 && w != v
    ensures Feed(c, pre + w + post) != Feed(c, pre + v + post)
  {
    hide Feed, Shifts, Pack, Add;
    FeedAppend(c, pre + w, post);
    FeedAppend(c, pre + v, post);
    FeedAppend(c, pre, w);
    FeedAppend(c, pre, v);
    var d := Feed(c, pre);
    if Feed(c, pre + w + post) == Feed(c, pre + v + post) {
      FeedInjective(Feed(d, w), Feed(d, v), post);
      FeedIsPacked(d, w);
      FeedIsPacked(d, v);
      ShiftsInjective(Add(d, Pack(w)), Add(d, Pack(v)), |w|);
      AddCancels(d, Pack(w), Pack(v));
      PackInjective(w, v);
    }
  }

  // ---------------------------------------------------------------- bytes are runs of eight bits

  lemma {:induction false} PackOne(a: bool, rest: seq<bool>)
    ensures Pack([a] + rest) == Add(Top(a), Half(Pack(rest)))
  {
    hide Top, Add, Half;
    assert ([a] + rest)[1..] == rest;
  }

  lemma PackEight(a: bool, b: bool, c: bool, d: bool, e: bool, f: bool, g: bool, h: bool)
    ensures Pack(Eight(a, b, c, d, e, f, g, h))
         == Add(Top(a), Half(Add(Top(b), Half(Add(Top(c), Half(Add(Top(d), Half(Add(Top(e), Half(Add(Top(f),
              Half(Add(Top(g), Half(Add(Top(h), Half(0))))))))))))))))
  {
    assert Pack([]) == 0;
    hide Pack, Top, Add, Half;
    PackOne(h, []);
    PackOne(g, [h] + []);
    PackOne(f, [g] + ([h] + []));
    PackOne(e, [f] + ([g] + ([h] + [])));
    PackOne(d, [e] + ([f] + ([g] + ([h] + []))));
    PackOne(c, [d] + ([e] + ([f] + ([g] + ([h] + [])))));
    PackOne(b, [c] + ([d] + ([e] + ([f] + ([g] + ([h] + []))))));
    PackOne(a, [b] + ([c] + ([d] + ([e] + ([f] + ([g] + ([h] + [])))))));
  }

  lemma PackOfByte(b: bv8)
    ensures Pack(BitsOf(b)) == TopByte(b)
  {
    TopByteBits(b);
    hide Pack, Top, Add, Half, TopByte, Eight;
    PackEight(b & 0x80 != 0, b & 0x40 != 0, b & 0x20 != 0, b & 0x10 != 0, b & 8 != 0, b & 4 != 0, b & 2 != 0,
              b & 1 != 0);
  }

  lemma {:induction false} AbsorbIsFeed(c: bv16, b: bv8)
    ensures Absorb(c, b) == Feed(c, BitsOf(b))
  {
    hide Feed, BitsOf, Shifts, Pack, Add, TopByte;
    FeedIsPacked(c, BitsOf(b));
    PackOfByte(b);
  }

  lemma {:induction false} CrcIsFeed(c: bv16, data: seq<bv8>)
    ensures CrcFrom(c, data) == Feed(c, Bits(data))
    decreases |data|
  {
    hide Absorb, Feed, BitsOf;
    if data == [] {
      FeedNothing(c);
    } else {
      var n := |data| - 1;
      CrcIsFeed(c, data[..n]);
      AbsorbIsFeed(Feed(c, Bits(data[..n])), data[n]);
      FeedAppend(c, Bits(data[..n]), BitsOf(data[n]));
    }
  }

  lemma {:induction false} FeedNothing(c: bv16)
    ensures Feed(c, []) == c
  {
  }
}
