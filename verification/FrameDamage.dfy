/**
 What the trailer catches: every burst of at most sixteen bits in front of it, and every change confined to two
 adjacent bytes anywhere, with one exception that is spelled out.
*/
module FrameDamage {
  import opened Options
  import opened CrcRegister
  import opened Crc16
  import opened FrameCodec
  import opened Octets

  function BodyOf(data: seq<bv8>): seq<bv8>
    requires |data| >= CRC_BYTES
  {
    data[..|data| - CRC_BYTES]
  }

  function Trailer(data: seq<bv8>): seq<bv8>
    requires |data| >= CRC_BYTES
  {
    data[|data| - CRC_BYTES..]
  }

  lemma AcceptedMatches(data: seq<bv8>)
    requires Decode(data).Some?
    ensures |data| >= HEADER_BYTES + CRC_BYTES && CrcMatches(data)
  {
  }

  lemma EncodedMatches(h: Header, payload: seq<bv8>, f: seq<bv8>)
    requires Encode(h, payload) == Some(f)
    ensures |f| == HEADER_BYTES + |payload| + CRC_BYTES && CrcMatches(f)
  {
    hide CrcFrom, CrcMatches;
    SealedMatches(Body(h, ToWire(h.kind).value, payload));
  }

  /** Two frames that both pass the check and share the trailer have bodies with the same register. */
  lemma SameTrailerSameCrc(f: seq<bv8>, g: seq<bv8>)
    requires |f| == |g| >= CRC_BYTES && CrcMatches(f) && CrcMatches(g) && Trailer(f) == Trailer(g)
    ensures CrcFrom(START, BodyOf(f)) == CrcFrom(START, BodyOf(g))
  {
    hide CrcFrom, FromBytes;
    var n := |f| - CRC_BYTES;
    assert f[n] == Trailer(f)[0] && f[n + 1] == Trailer(f)[1];
  }

  /** A frame whose damage lies within sixteen consecutive bits before the trailer is rejected. */
  lemma BurstRejected(h: Header, payload: seq<bv8>, f: seq<bv8>, g: seq<bv8>,
                      pre: seq<bool>, w: seq<bool>, v: seq<bool>, post: seq<bool>)
    requires Encode(h, payload) == Some(f) && |g| == |f| >= CRC_BYTES && Trailer(g) == Trailer(f)
    requires Bits(BodyOf(f)) == pre + w + post && Bits(BodyOf(g)) == pre + v + post
    requires |w| == |v| <= 16 && w != v
    ensures Decode(g) == None
  {
    hide CrcFrom, Bits, CrcMatches, Feed, BodyOf, Trailer, Encode, Decode;
    EncodedMatches(h, payload, f);
    if Decode(g).Some? {
      AcceptedMatches(g);
      SameTrailerSameCrc(f, g);
      CrcIsFeed(START, BodyOf(f));
      CrcIsFeed(START, BodyOf(g));
      BurstShows(START, pre, w, v, post);
    }
  }

  // ---------------------------------------------------------------- two adjacent bytes

  /** Equal everywhere except at bytes `i` and `i + 1`. */
  ghost predicate DiffersWithin(f: seq<bv8>, g: seq<bv8>, i: nat) {
    && |f| == |g| && i + 2 <= |f|
    && f[..i] == g[..i] && f[i + 2..] == g[i + 2..]
  }

  lemma {:induction false} BitsAppend(a: seq<bv8>, b: seq<bv8>)
    ensures Bits(a + b) == Bits(a) + Bits(b)
    decreases |b|
  {
    hide BitsOf;
    if b == [] {
      assert a + b == a;
    } else {
      var n := |b| - 1;
      assert (a + b)[..|a + b| - 1] == a + b[..n];
      BitsAppend(a, b[..n]);
    }
  }

  lemma BitsApart(b: bv8, c: bv8)
    requires Eight(b & 0x80 != 0, b & 0x40 != 0, b & 0x20 != 0, b & 0x10 != 0, b & 8 != 0, b & 4 != 0, b & 2 != 0,
                   b & 1 != 0)
          == Eight(c & 0x80 != 0, c & 0x40 != 0, c & 0x20 != 0, c & 0x10 != 0, c & 8 != 0, c & 4 != 0, c & 2 != 0,
                   c & 1 != 0)
    ensures b == c
  {
    var x, y := BitsOf(b), BitsOf(c);
    assert x[0] == y[0] && x[1] == y[1] && x[2] == y[2] && x[3] == y[3];
    assert x[4] == y[4] && x[5] == y[5] && x[6] == y[6] && x[7] == y[7];
  }

  lemma BitsOfPair(b: bv8, c: bv8)
    ensures Bits([b, c]) == BitsOf(b) + BitsOf(c)
  {
    hide BitsOf;
    assert [b, c][..1] == [b] && [b][..0] == [];
  }

  lemma PairApart(b: bv8, c: bv8, d: bv8, e: bv8)
    requires Bits([b, c]) == Bits([d, e])
    ensures b == d && c == e
  {
    BitsOfPair(b, c);
    BitsOfPair(d, e);
    hide Bits, Eight;
    var x, y := BitsOf(b) + BitsOf(c), BitsOf(d) + BitsOf(e);
    assert x[..8] == BitsOf(b) && y[..8] == BitsOf(d) && x[8..] == BitsOf(c) && y[8..] == BitsOf(e);
    BitsApart(b, d);
    BitsApart(c, e);
  }

  /** Bodies that differ only within two adjacent bytes, and have the same register, are the same. */
  lemma {:induction false} PairShows(c: bv16, pre: seq<bv8>, b0: bv8, b1: bv8, d0: bv8, d1: bv8, post: seq<bv8>)
    requires CrcFrom(c, pre + [b0, b1] + post) == CrcFrom(c, pre + [d0, d1] + post)
    ensures b0 == d0 && b1 == d1
  {
    hide CrcFrom, Feed, Bits;
    CrcIsFeed(c, pre + [b0, b1] + post);
    CrcIsFeed(c, pre + [d0, d1] + post);
    BitsAppend(pre + [b0, b1], post);
    BitsAppend(pre + [d0, d1], post);
    BitsAppend(pre, [b0, b1]);
    BitsAppend(pre, [d0, d1]);
    if Bits([b0, b1]) != Bits([d0, d1]) {
      BurstShows(c, Bits(pre), Bits([b0, b1]), Bits([d0, d1]), Bits(post));
    } else {
      PairApart(b0, b1, d0, d1);
    }
  }

  lemma PairInBody(f: seq<bv8>, g: seq<bv8>, i: nat)
    requires DiffersWithin(f, g, i) && i + 2 + CRC_BYTES <= |f| && CrcMatches(f) && CrcMatches(g)
    ensures f == g
  {
    hide CrcFrom, CrcMatches;
    var n := |f| - CRC_BYTES;
    assert f[i + 2..][n - i - 2..] == Trailer(f) && g[i + 2..][n - i - 2..] == Trailer(g);
    SameTrailerSameCrc(f, g);
    var post := f[i + 2..][..n - i - 2];
    assert BodyOf(f) == f[..i] + [f[i], f[i + 1]] + post;
    assert BodyOf(g) == f[..i] + [g[i], g[i + 1]] + post;
    PairShows(START, f[..i], f[i], f[i + 1], g[i], g[i + 1], post);
    assert f == f[..i] + [f[i], f[i + 1]] + f[i + 2..];
    assert g == g[..i] + [g[i], g[i + 1]] + g[i + 2..];
  }

  /** The trailer alone is determined by the body. */
  lemma TrailerOnly(f: seq<bv8>, g: seq<bv8>)
    requires |f| == |g| >= CRC_BYTES && BodyOf(f) == BodyOf(g) && CrcMatches(f) && CrcMatches(g)
    ensures f == g
  {
    hide CrcFrom, FromBytes, LowByte, HighByte;
    var n := |f| - CRC_BYTES;
    RegisterOfBytes(f[n], f[n + 1]);
    RegisterOfBytes(g[n], g[n + 1]);
    assert f == BodyOf(f) + [f[n], f[n + 1]];
    assert g == BodyOf(g) + [g[n], g[n + 1]];
  }

  // ---------------------------------------------------------------- across the trailer's edge

  /** The one change of the last body byte that leaves the register's high byte alone. */
  const BLIND_BYTE: bv8 := 0x89
  const BLIND_LOW: bv8 := 0xA1

  lemma {:induction false} ShiftsLinear(x: bv16, y: bv16, n: nat)
    ensures Shifts(Add(x, y), n) == Add(Shifts(x, n), Shifts(y, n))
  {
    hide Shift, Add;
    if n > 0 {
      ShiftsLinear(x, y, n - 1);
      ShiftLinear(Shifts(x, n - 1), Shifts(y, n - 1));
    }
  }

  function EightShifts(c: bv16): bv16 {
    Shift(Shift(Shift(Shift(Shift(Shift(Shift(Shift(c))))))))
  }

  lemma {:induction false} ShiftsUnroll(c: bv16)
    ensures Shifts(c, 8) == EightShifts(c)
  {
    hide Shift;
    assert Shifts(c, 0) == c && Shifts(c, 1) == Shift(Shifts(c, 0));
    assert Shifts(c, 2) == Shift(Shifts(c, 1)) && Shifts(c, 3) == Shift(Shifts(c, 2));
    assert Shifts(c, 4) == Shift(Shifts(c, 3)) && Shifts(c, 5) == Shift(Shifts(c, 4));
    assert Shifts(c, 6) == Shift(Shifts(c, 5)) && Shifts(c, 7) == Shift(Shifts(c, 6));
  }

  lemma BlindSpot(e: bv8)
    requires e != 0
    ensures HighByte(EightShifts(TopByte(e))) == 0 <==> e == BLIND_BYTE
  {
  }

  lemma BlindValue()
    ensures EightShifts(TopByte(BLIND_BYTE)) == 0xA1
  {
  }

  lemma SumOfBytes(x: bv16, y: bv16)
    ensures HighByte(Add(x, y)) == Xor8(HighByte(x), HighByte(y)) && LowByte(Add(x, y)) == Xor8(LowByte(x), LowByte(y))
  {
  }

  lemma TopByteSum(b: bv8, e: bv8)
    ensures TopByte(Xor8(b, e)) == Add(TopByte(b), TopByte(e))
  {
  }

  /** Changing the absorbed byte by `e` changes the register by what `e` alone would leave. */
  lemma AbsorbChanged(c: bv16, b: bv8, e: bv8)
    ensures Absorb(c, Xor8(b, e)) == Add(Absorb(c, b), EightShifts(TopByte(e)))
  {
    TopByteSum(b, e);
    hide TopByte, Add, Shifts, Shift, EightShifts, Xor8;
    AddAssociates(c, TopByte(b), TopByte(e));
    ShiftsLinear(Add(c, TopByte(b)), TopByte(e), 8);
    ShiftsUnroll(TopByte(e));
  }

  function Xor8(x: bv8, y: bv8): bv8 { x ^ y }

  lemma XorFacts(x: bv8, y: bv8)
    ensures Xor8(x, Xor8(x, y)) == y
    ensures Xor8(x, y) == 0 <==> x == y
    ensures x == Xor8(x, y) <==> y == 0
  {
  }

  lemma LowOfBlind()
    ensures LowByte(0xA1) == BLIND_LOW
  {
  }

  lemma EdgeChange(c: bv16, b: bv8, d: bv8)
    requires b != d
    ensures HighByte(Absorb(c, d)) == HighByte(Absorb(c, b)) <==> d == Xor8(b, BLIND_BYTE)
    ensures d == Xor8(b, BLIND_BYTE) ==> LowByte(Absorb(c, d)) == Xor8(LowByte(Absorb(c, b)), BLIND_LOW)
  {
    hide Absorb, EightShifts, TopByte, Add, HighByte, LowByte, Xor8;
    var e := Xor8(b, d);
    XorFacts(b, d);
    XorFacts(b, BLIND_BYTE);
    AbsorbChanged(c, b, e);
    var x, y := Absorb(c, b), EightShifts(TopByte(e));
    SumOfBytes(x, y);
    XorFacts(HighByte(x), HighByte(y));
    BlindSpot(e);
    BlindValue();
    LowOfBlind();
  }

  lemma CrcLast(f: seq<bv8>, n: nat)
    requires 0 < n <= |f|
    ensures CrcFrom(START, f[..n]) == Absorb(CrcFrom(START, f[..n - 1]), f[n - 1])
  {
    hide Absorb;
    assert f[..n][..n - 1] == f[..n - 1];
  }

  lemma CrcAtEdge(f: seq<bv8>, n: nat)
    requires n > 0 && |f| == n + CRC_BYTES
    ensures var r := Absorb(CrcFrom(START, f[..n - 1]), f[n - 1]);
            CrcMatches(f) <==> f[n] == LowByte(r) && f[n + 1] == HighByte(r)
  {
    hide CrcFrom, Absorb, FromBytes, LowByte, HighByte;
    var r := Absorb(CrcFrom(START, f[..n - 1]), f[n - 1]);
    CrcLast(f, n);
    BytesOfRegister(r);
    RegisterOfBytes(f[n], f[n + 1]);
  }

  /** The last body byte and the trailer's first byte change together in the one way the check cannot see. */
  predicate BlindChange(f: seq<bv8>, g: seq<bv8>)
    requires |f| == |g| > CRC_BYTES
  {
    var n := |f| - CRC_BYTES;
    g[n - 1] == Xor8(f[n - 1], BLIND_BYTE) && g[n] == Xor8(f[n], BLIND_LOW)
  }

  lemma EdgeDamage(f: seq<bv8>, g: seq<bv8>, n: nat)
    requires n > 0 && |f| == |g| == n + CRC_BYTES && f[..n - 1] == g[..n - 1] && f[n + 1] == g[n + 1]
    requires CrcMatches(f) && f[n - 1] != g[n - 1]
    ensures CrcMatches(g) <==> BlindChange(f, g)
  {
    hide CrcMatches, CrcFrom, Absorb, LowByte, HighByte, Xor8;
    CrcAtEdge(f, n);
    CrcAtEdge(g, n);
    EdgeChange(CrcFrom(START, f[..n - 1]), f[n - 1], g[n - 1]);
  }

  /** With the header untouched, only the check decides. */
  lemma SameHeaderAccepted(f: seq<bv8>, g: seq<bv8>)
    requires Decode(f).Some? && |g| == |f| && g[..HEADER_BYTES] == f[..HEADER_BYTES]
    ensures Decode(g).Some? <==> CrcMatches(g)
  {
    hide CrcMatches, FromWire, From32, Length;
    assert forall k :: 0 <= k < HEADER_BYTES ==> g[k] == f[..HEADER_BYTES][k];
  }

  lemma EmptyPayloadLength(f: seq<bv8>, g: seq<bv8>)
    requires Decode(f).Some? && |g| == |f| == HEADER_BYTES + CRC_BYTES && g[11] == f[11] && g[12] != f[12]
    ensures Decode(g) == None
  {
    hide CrcMatches, FromWire, From32, Length;
    assert LengthField(f) == 0;
    HighByteMatters(f[11], f[12], g[12]);
  }

  lemma SplitBody(f: seq<bv8>, g: seq<bv8>, n: nat)
    requires n > 0 && |f| == |g| == n + CRC_BYTES && f[..n - 1] == g[..n - 1] && f[n - 1] == g[n - 1]
    ensures BodyOf(f) == BodyOf(g)
  {
    assert BodyOf(f) == f[..n - 1] + [f[n - 1]];
    assert BodyOf(g) == g[..n - 1] + [g[n - 1]];
  }

  lemma SameBodies(f: seq<bv8>, g: seq<bv8>)
    requires |f| == |g| >= CRC_BYTES && f[..|f| - CRC_BYTES] == g[..|f| - CRC_BYTES]
    ensures BodyOf(f) == BodyOf(g)
  {
  }

  /**
   A frame whose bytes differ from an accepted one's only at two adjacent places is rejected, except when
   exactly the last payload byte changes by 0x89 and the first trailer byte by 0xA1.
  */
  lemma AdjacentDamageRejected(f: seq<bv8>, g: seq<bv8>, i: nat)
    requires Decode(f).Some? && DiffersWithin(f, g, i) && g != f
    ensures Decode(g).Some? <==> i == |f| - CRC_BYTES - 1 >= HEADER_BYTES && BlindChange(f, g)
  {
    hide CrcMatches, BlindChange, BodyOf, Trailer, Decode;
    AcceptedMatches(f);
    if Decode(g).Some? {
      AcceptedMatches(g);
    }
    var n := |f| - CRC_BYTES;
    if i + 1 < n {
      if CrcMatches(g) {
        PairInBody(f, g, i);
      }
    } else if i == n {
      SameBodies(f, g);
      if CrcMatches(g) {
        TrailerOnly(f, g);
      }
    } else {
      EdgeTheorem(f, g, n);
    }
  }

  lemma EdgeTheorem(f: seq<bv8>, g: seq<bv8>, n: nat)
    requires Decode(f).Some? && CrcMatches(f) && |f| == n + CRC_BYTES && n >= HEADER_BYTES && DiffersWithin(f, g, n - 1)
        && g != f
    requires Decode(g).Some? ==> CrcMatches(g)
    ensures Decode(g).Some? <==> n > HEADER_BYTES && BlindChange(f, g)
  {
    hide Decode, CrcMatches, BlindChange, BodyOf;
    assert f[n + 1..][0] == f[n + 1] && g[n + 1..][0] == g[n + 1];
    if f[n - 1] == g[n - 1] {
      SplitBody(f, g, n);
      if CrcMatches(g) {
        TrailerOnly(f, g);
      }
      NotBlind(f, g);
    } else {
      EdgeDamage(f, g, n);
      if n > HEADER_BYTES {
        assert g[..HEADER_BYTES] == g[..n - 1][..HEADER_BYTES] && f[..HEADER_BYTES] == f[..n - 1][..HEADER_BYTES];
        SameHeaderAccepted(f, g);
      } else {
        assert f[..n - 1][11] == f[11] && g[..n - 1][11] == g[11];
        EmptyPayloadLength(f, g);
      }
    }
  }

  lemma NotBlind(f: seq<bv8>, g: seq<bv8>)
    requires |f| == |g| > CRC_BYTES && f[|f| - CRC_BYTES - 1] == g[|f| - CRC_BYTES - 1]
    ensures !BlindChange(f, g)
  {
    XorFacts(f[|f| - CRC_BYTES - 1], BLIND_BYTE);
    hide Xor8;
  }
}
