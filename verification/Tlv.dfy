/**
 Tag-type-length-value lists: how the descriptor and telemetry codecs append them and scan them. Up to three
 trailing bytes are ignored; a value reaching past the end fails the scan.
*/
module Tlv {
  import opened FixedWidth
  import opened LittleEndian
  import opened Options

  datatype Tlv = Tlv(tag: byte, kind: byte, value: seq<byte>)

  const U8: byte := 0x01
  const U16_KIND: byte := 0x02
  const U32_KIND: byte := 0x03
  const BOOL: byte := 0x06
  const F32: byte := 0x07
  const BYTES: byte := 0x08
  const UTF8: byte := 0x09

  const MAX_VALUE: nat := 65535

  predicate Fits(t: Tlv) { |t.value| <= MAX_VALUE }

  predicate AllFit(ts: seq<Tlv>) { forall i :: 0 <= i < |ts| ==> Fits(ts[i]) }

  function U8Of(tag: byte, v: byte): Tlv { Tlv(tag, U8, [v]) }
  function BoolOf(tag: byte, v: bool): Tlv { Tlv(tag, BOOL, [if v then 1 else 0]) }
  function U16Of(tag: byte, v: uint16): Tlv { Tlv(tag, U16_KIND, U16Bytes(v)) }
  function U32Of(tag: byte, v: uint32): Tlv { Tlv(tag, U32_KIND, U32Bytes(v)) }
  function Utf8Of(tag: byte, s: seq<byte>): Tlv { Tlv(tag, UTF8, s) }

  function Bytes(t: Tlv): (b: seq<byte>)
    requires Fits(t)
    ensures |b| == 4 + |t.value|
  {
    [t.tag, t.kind] + U16Bytes(|t.value|) + t.value
  }

  function AllBytes(ts: seq<Tlv>): seq<byte>
    requires AllFit(ts)
  {
    if ts == [] then [] else Bytes(ts[0]) + AllBytes(ts[1..])
  }

  function ValueLength(b: seq<byte>, off: nat): nat
    requires off + 4 <= |b|
  {
    U16(b[off + 2], b[off + 3])
  }

  /** The scan from an offset on. */
  function ScanFrom(b: seq<byte>, off: nat): Option<seq<Tlv>>
    decreases |b| - off
  {
    if off + 4 > |b| then Some([])
    else
      var n := ValueLength(b, off);
      if off + 4 + n > |b| then None
      else
        match ScanFrom(b, off + 4 + n)
        case None => None
        case Some(rest) => Some([Tlv(b[off], b[off + 1], b[off + 4..off + 4 + n])] + rest)
  }

  function Scan(b: seq<byte>): Option<seq<Tlv>> {
    ScanFrom(b, 0)
  }

  lemma BytesAt(t: Tlv, pre: seq<byte>, post: seq<byte>)
    requires Fits(t)
    ensures var b := pre + Bytes(t) + post;
            && |pre| + 4 <= |b| && ValueLength(b, |pre|) == |t.value| && |pre| + 4 + |t.value| <= |b|
            && Tlv(b[|pre|], b[|pre| + 1], b[|pre| + 4..|pre| + 4 + |t.value|]) == t
  {
    U16RoundTrip(|t.value|);
    var b := pre + Bytes(t) + post;
    assert forall k :: 0 <= k < |Bytes(t)| ==> b[|pre| + k] == Bytes(t)[k];
    assert Bytes(t)[2] == U16Bytes(|t.value|)[0] && Bytes(t)[3] == U16Bytes(|t.value|)[1];
    assert b[|pre| + 4..|pre| + 4 + |t.value|] == t.value;
  }

  lemma Regrouped(pre: seq<byte>, head: seq<byte>, rest: seq<byte>, tail: seq<byte>)
    ensures pre + (head + rest) + tail == pre + head + (rest + tail)
    ensures pre + (head + rest) + tail == (pre + head) + rest + tail
  {
  }

  lemma ScanStep(b: seq<byte>, off: nat)
    ensures off + 4 > |b| ==> ScanFrom(b, off) == Some([])
    ensures off + 4 <= |b| && off + 4 + ValueLength(b, off) > |b| ==> ScanFrom(b, off) == None
    ensures off + 4 <= |b| && off + 4 + ValueLength(b, off) <= |b| ==>
              var n := ValueLength(b, off);
              var rest := ScanFrom(b, off + 4 + n);
              && (rest.None? ==> ScanFrom(b, off) == None)
              && (rest.Some? ==>
                    ScanFrom(b, off) == Some([Tlv(b[off], b[off + 1], b[off + 4..off + 4 + n])] + rest.value))
  {
    hide ValueLength;
  }

  /** Scanning what was appended finds it again, in order. */
  lemma {:induction false} ScanAfter(ts: seq<Tlv>, pre: seq<byte>, tail: seq<byte>)
    requires AllFit(ts) && |tail| < 4
    ensures ScanFrom(pre + AllBytes(ts) + tail, |pre|) == Some(ts)
    decreases |ts|
  {
    hide Bytes, ValueLength, ScanFrom;
    var b := pre + AllBytes(ts) + tail;
    ScanStep(b, |pre|);
    if ts != [] {
      var t := ts[0];
      Regrouped(pre, Bytes(t), AllBytes(ts[1..]), tail);
      BytesAt(t, pre, AllBytes(ts[1..]) + tail);
      ScanAfter(ts[1..], pre + Bytes(t), tail);
      assert ts == [t] + ts[1..];
    }
  }

  lemma {:induction false} ScanInverts(ts: seq<Tlv>, tail: seq<byte>)
    requires AllFit(ts) && |tail| < 4
    ensures Scan(AllBytes(ts) + tail) == Some(ts)
  {
    hide ScanFrom, AllBytes;
    ScanAfter(ts, [], tail);
    assert [] + AllBytes(ts) + tail == AllBytes(ts) + tail;
  }

  lemma {:induction false} AllBytesAppend(a: seq<Tlv>, b: seq<Tlv>)
    requires AllFit(a) && AllFit(b)
    ensures AllFit(a + b) && AllBytes(a + b) == AllBytes(a) + AllBytes(b)
    decreases |a|
  {
    hide Bytes;
    if a == [] {
      assert a + b == b;
    } else {
      AllBytesAppend(a[1..], b);
      assert (a + b)[0] == a[0] && (a + b)[1..] == a[1..] + b;
    }
  }

  lemma BytesOfOne(t: Tlv)
    requires Fits(t)
    ensures AllBytes([t]) == Bytes(t)
  {
    hide Bytes;
    assert [t][1..] == [];
    assert Bytes(t) + [] == Bytes(t);
  }

  lemma {:induction false} AllBytesLength(ts: seq<Tlv>)
    requires AllFit(ts)
    ensures |AllBytes(ts)| >= 4 * |ts|
    decreases |ts|
  {
    hide Bytes;
    if ts != [] {
      AllBytesLength(ts[1..]);
    }
  }

  lemma {:induction false} LongerWith(a: seq<Tlv>, t: Tlv, b: seq<Tlv>)
    requires AllFit(a) && Fits(t) && AllFit(b) && AllFit(a + b) && AllFit(a + [t] + b)
    ensures |AllBytes(a + [t] + b)| >= |AllBytes(a + b)|
  {
    hide AllBytes;
    AllBytesAppend(a, b);
    AllBytesAppend(a + [t], b);
    AllBytesAppend(a, [t]);
  }
}
