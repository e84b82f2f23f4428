/**
 The response codec end to end: decoding an encoded response of each list kind gives the fixed fields, the
 repaired paging metadata and exactly the entries that were written.
*/
module ResponseTheorems {
  import opened FixedWidth
  import opened LittleEndian
  import opened Options
  import opened Tlv
  import opened ResponseEncoding
  import opened ResponseDecoding
  import opened ResponseLists
  import opened ResponseRoundTrip

  type Fields = map<int, seq<byte>>

  // ---------------------------------------------------------------- fixed fields

  /** A tag that only touches the fields: a known field, or the schema version, which nobody reads. */
  predicate Plain(t: Tlv) {
    IsField(t) || t.tag == 1
  }

  predicate AllPlain(ts: seq<Tlv>) {
    forall i :: 0 <= i < |ts| ==> Plain(ts[i])
  }

  function FieldsAfter(m: Fields, ts: seq<Tlv>): Fields
    decreases |ts|
  {
    if ts == [] then m else FieldsAfter(if IsField(ts[0]) then m[ts[0].tag as int := ts[0].value] else m, ts[1..])
  }

  lemma {:induction false} PlainSteps(d: Decoding, ts: seq<Tlv>)
    requires AllPlain(ts)
    ensures Steps(d, ts) == d.(fields := FieldsAfter(d.fields, ts))
    decreases |ts|
  {
    hide IsField, Step;
    if ts != [] {
      assert Plain(ts[0]);
      PlainStep(d, ts[0]);
      PlainSteps(Step(d, ts[0]), ts[1..]);
    }
  }

  lemma PlainStep(d: Decoding, t: Tlv)
    requires Plain(t)
    ensures Step(d, t) == if IsField(t) then d.(fields := d.fields[t.tag as int := t.value]) else d
  {
  }

  lemma {:induction false} FieldsAppend(m: Fields, a: seq<Tlv>, b: seq<Tlv>)
    ensures FieldsAfter(m, a + b) == FieldsAfter(FieldsAfter(m, a), b)
    decreases |a|
  {
    hide IsField;
    if a == [] {
      assert a + b == b;
    } else {
      assert (a + b)[0] == a[0] && (a + b)[1..] == a[1..] + b;
      FieldsAppend(if IsField(a[0]) then m[a[0].tag as int := a[0].value] else m, a[1..], b);
    }
  }

  /** A tag none of `ts` has keeps its value. */
  lemma {:induction false} FieldKept(m: Fields, ts: seq<Tlv>, tag: int)
    requires forall i :: 0 <= i < |ts| ==> ts[i].tag != tag
    ensures (tag in FieldsAfter(m, ts) <==> tag in m) && (tag in m ==> FieldsAfter(m, ts)[tag] == m[tag])
    decreases |ts|
  {
    hide IsField;
    if ts != [] {
      FieldKept(if IsField(ts[0]) then m[ts[0].tag as int := ts[0].value] else m, ts[1..], tag);
    }
  }

  /** A field written once has the value it was written with. */
  lemma {:induction false} FieldWritten(m: Fields, ts: seq<Tlv>, k: nat)
    requires k < |ts| && IsField(ts[k]) && forall i :: k < i < |ts| ==> ts[i].tag != ts[k].tag
    ensures ts[k].tag in FieldsAfter(m, ts) && FieldsAfter(m, ts)[ts[k].tag] == ts[k].value
  {
    assert ts == ts[..k] + ([ts[k]] + ts[k + 1..]);
    FieldsAppend(m, ts[..k], [ts[k]] + ts[k + 1..]);
    FieldsAppend(FieldsAfter(m, ts[..k]), [ts[k]], ts[k + 1..]);
    OneField(FieldsAfter(m, ts[..k]), ts[k]);
    FieldKept(FieldsAfter(FieldsAfter(m, ts[..k]), [ts[k]]), ts[k + 1..], ts[k].tag);
    hide IsField, FieldsAfter;
  }

  lemma {:induction false} OneField(m: Fields, t: Tlv)
    requires IsField(t)
    ensures FieldsAfter(m, [t]) == m[t.tag as int := t.value]
  {
    hide IsField;
    assert [t][1..] == [];
  }

  /** Tags the response itself uses around the type's own fixed fields. */
  predicate ReservedTag(tag: int) {
    tag == 0x10 || tag == 0x11 || tag == 0x59 || 0x18 <= tag <= 0x1E
  }

  /** The fixed fields of a type: known fields, each once, none of the reserved ones. */
  ghost predicate ProperScalars(ts: seq<Tlv>) {
    && (forall i :: 0 <= i < |ts| ==> IsField(ts[i]) && !ReservedTag(ts[i].tag))
    && forall i, j :: 0 <= i < j < |ts| ==> ts[i].tag != ts[j].tag
  }

  function TextField(m: Fields, tag: int): seq<byte> {
    if tag in m then m[tag] else []
  }

  function U16Field(m: Fields, tag: int): uint16 {
    if tag in m && |m[tag]| == 2 then Read16(m[tag]) else 0
  }

  function U32Field(m: Fields, tag: int): uint32 {
    if tag in m && |m[tag]| == 4 then Read32(m[tag]) else 0
  }

  predicate BoolField(m: Fields, tag: int) {
    tag in m && |m[tag]| == 1 && m[tag][0] != 0
  }

  function PageOf(m: Fields): Option<PageMeta> {
    if BoolField(m, 0x18) then
      Some(PageMeta(U32Field(m, 0x19), U16Field(m, 0x1A), U16Field(m, 0x1B), U16Field(m, 0x1C), U16Field(m, 0x1D),
                    BoolField(m, 0x1E)))
    else None
  }

  lemma HeadPlain(r: Response)
    requires ProperScalars(r.scalars)
    ensures AllPlain(HeadTlvs(r))
  {
  }

  lemma MetaPlain(p: PageMeta)
    ensures AllPlain(MetaTlvs(p)) && AllPlain([Utf8Of(0x11, TRUNCATED)])
  {
    hide U16Bytes, U32Bytes;
  }

  /** The head's fields: type, message, and the type's own. */
  ghost predicate HeadRead(r: Response, m: Fields) {
    && 0x10 in m && m[0x10] == [r.kind] && TextField(m, 0x11) == r.message
    && (forall tag :: 0x18 <= tag <= 0x1E ==> tag !in m)
    && forall i :: 0 <= i < |r.scalars| ==> r.scalars[i].tag in m && m[r.scalars[i].tag] == r.scalars[i].value
  }

  lemma HeadFields(r: Response)
    requires ProperScalars(r.scalars)
    ensures HeadRead(r, FieldsAfter(map[], HeadTlvs(r)))
  {
    hide FieldsAfter, IsField;
    var ts := HeadTlvs(r);
    var n := |ts| - |r.scalars|;
    HeadShape(r);
    FieldWritten(map[], ts, 1);
    if r.message != [] {
      FieldWritten(map[], ts, 2);
    } else {
      FieldKept(map[], ts, 0x11);
    }
    forall tag | 0x18 <= tag <= 0x1E ensures tag !in FieldsAfter(map[], ts) {
      FieldKept(map[], ts, tag);
    }
    forall i | 0 <= i < |r.scalars|
      ensures r.scalars[i].tag in FieldsAfter(map[], ts)
          && FieldsAfter(map[], ts)[r.scalars[i].tag] == r.scalars[i].value
    {
      assert ts[n + i] == r.scalars[i];
      FieldWritten(map[], ts, n + i);
    }
  }

  /** Everything of the head but the type's own fields. */
  function HeadStart(r: Response): seq<Tlv> {
    [U8Of(0x01, 1), U8Of(0x10, r.kind)]
      + (if r.message == [] then [] else [Utf8Of(0x11, r.message)])
      + (if r.kind == NODE_BUNDLE || r.mask != 0 then [U8Of(0x59, if r.mask == 0 then BUNDLE_ALL else r.mask)] else [])
  }

  lemma {:induction false} HeadStartShape(r: Response)
    ensures var ts := HeadStart(r);
            && 2 <= |ts| <= 4 && ts[1] == U8Of(0x10, r.kind) && IsField(ts[1]) && ts[0].tag == 1
            && (r.message != [] ==> |ts| >= 3 && ts[2] == Utf8Of(0x11, r.message) && IsField(ts[2]))
            && (forall i :: 2 <= i < |ts| ==> ts[i].tag == 0x59 || (i == 2 && r.message != []))
  {
  }

  lemma {:induction false} HeadShape(r: Response)
    requires ProperScalars(r.scalars)
    ensures var ts := HeadTlvs(r); var n := |ts| - |r.scalars|;
            && 2 <= n <= 4 && ts[n..] == r.scalars && ts[1] == U8Of(0x10, r.kind) && IsField(ts[1]) && ts[0].tag == 1
            && (r.message != [] ==> n >= 3 && ts[2] == Utf8Of(0x11, r.message) && IsField(ts[2]))
            && (forall i :: 0 <= i < |ts| ==>
                i < n || (ts[i] == r.scalars[i - n] && IsField(ts[i]) && !ReservedTag(ts[i].tag)))
            && (forall i :: 2 <= i < n ==> ts[i].tag == 0x59 || (i == 2 && r.message != []))
  {
    hide IsField, ReservedTag, HeadStart;
    HeadStartShape(r);
    HeadIs(r);
  }

  lemma {:induction false} HeadIs(r: Response)
    ensures HeadTlvs(r) == HeadStart(r) + r.scalars
  {
    hide IsField;
  }

  lemma {:induction false} MetaFields(m: Fields, p: PageMeta, tail: seq<Tlv>)
    requires tail == [] || tail == [Utf8Of(0x11, TRUNCATED)]
    ensures PageOf(FieldsAfter(m, MetaTlvs(p) + tail)) == Some(p)
  {
    hide FieldsAfter, IsField, U16, U32, U16Bytes, U32Bytes;
    var ts := MetaTlvs(p) + tail;
    MetaIsFields(p);
    U32RoundTrip(p.snapshotId);
    U16RoundTrip(p.total);
    U16RoundTrip(p.cursor);
    U16RoundTrip(p.returned);
    U16RoundTrip(p.next);
    FieldWritten(m, ts, 0);
    FieldWritten(m, ts, 1);
    FieldWritten(m, ts, 2);
    FieldWritten(m, ts, 3);
    FieldWritten(m, ts, 4);
    FieldWritten(m, ts, 5);
    FieldWritten(m, ts, 6);
  }

  lemma MetaIsFields(p: PageMeta)
    ensures var ts := MetaTlvs(p); forall i :: 0 <= i < 7 ==> IsField(ts[i]) && ts[i].tag == 0x18 + i
  {
    hide U16Bytes, U32Bytes;
  }

  /** What a client reads besides the entries. */
  ghost predicate FrameRead(r: Response, o: Output, m: Fields) {
    && 0x10 in m && m[0x10] == [r.kind]
    && TextField(m, 0x11) == (if o.tail == [] then r.message else TRUNCATED)
    && PageOf(m) == (if r.page.Some? then Some(Repaired(r.kind, r.page.value, Wrap16(o.items.count))) else None)
    && forall i :: 0 <= i < |r.scalars| ==> r.scalars[i].tag in m && m[r.scalars[i].tag] == r.scalars[i].value
  }

  function LastFields(o: Output): Fields {
    FieldsAfter(FieldsAfter(map[], o.head), o.meta + o.tail)
  }

  lemma FrameFields(r: Response)
    requires ProperScalars(r.scalars) && Write(r).Some?
    ensures FrameRead(r, Write(r).value, LastFields(Write(r).value))
  {
    hide FieldsAfter, IsField, HeadTlvs, EmitBlocks, MetaTlvs, Repaired, PageOf;
    var o := Write(r).value;
    var m := FieldsAfter(map[], o.head);
    HeadFields(r);
    var p := if r.page.Some? then Repaired(r.kind, r.page.value, Wrap16(o.items.count))
             else PageMeta(0, 0, 0, 0, 0, false);
    MetaTags(p);
    TailFields(m, o.meta, o.tail);
    if r.page.Some? {
      MetaFields(m, p, o.tail);
    } else {
      NoPage(m, o.tail);
    }
    forall i | 0 <= i < |r.scalars|
      ensures r.scalars[i].tag in LastFields(o) && LastFields(o)[r.scalars[i].tag] == r.scalars[i].value
    {
      FieldKept(m, o.meta + o.tail, r.scalars[i].tag);
    }
    FieldKept(m, o.meta + o.tail, 0x10);
  }

  lemma MetaTags(p: PageMeta)
    ensures forall i :: 0 <= i < |MetaTlvs(p)| ==> 0x18 <= MetaTlvs(p)[i].tag <= 0x1E
  {
  }

  lemma {:induction false} TailFields(m: Fields, meta: seq<Tlv>, tail: seq<Tlv>)
    requires tail == [] || tail == [Utf8Of(0x11, TRUNCATED)]
    requires forall i :: 0 <= i < |meta| ==> 0x18 <= meta[i].tag <= 0x1E
    ensures TextField(FieldsAfter(m, meta + tail), 0x11) == if tail == [] then TextField(m, 0x11) else TRUNCATED
  {
    hide FieldsAfter;
    if tail == [] {
      assert meta + tail == meta;
      FieldKept(m, meta, 0x11);
    } else {
      FieldWritten(m, meta + tail, |meta|);
    }
  }

  lemma {:induction false} NoPage(m: Fields, tail: seq<Tlv>)
    requires (tail == [] || tail == [Utf8Of(0x11, TRUNCATED)]) && 0x18 !in m
    ensures PageOf(FieldsAfter(m, [] + tail)) == None
  {
    hide FieldsAfter;
    assert [] + tail == tail;
    FieldKept(m, tail, 0x18);
  }

  /** Decoding the bytes of a written response: the entry tags are read between the head and the metadata. */
  lemma DecodeWritten(r: Response, x: Decoding)
    requires ProperScalars(r.scalars) && Write(r).Some? && r.kind != 0
    requires var o := Write(r).value;
             var d := FRESH.(fields := FieldsAfter(map[], o.head));
             Steps(Steps(d, o.before.tlvs), o.items.tlvs) == x && x.fields == d.fields
    ensures Encode(r).Some? && FrameRead(r, Write(r).value, LastFields(Write(r).value))
    ensures Decode(Encode(r).value) == Finish(x.(fields := LastFields(Write(r).value)))
    ensures Decode(Encode(r).value).Some?
  {
    hide FieldsAfter, IsField, HeadTlvs, EmitBlocks, MetaTlvs, Repaired, Steps, AllBytes, Scan, AllPlain, TextField,
      PageOf;
    var o := Write(r).value;
    WrittenFits(r);
    ScanInverts(OutputTlvs(o), []);
    assert AllBytes(OutputTlvs(o)) + [] == AllBytes(OutputTlvs(o));
    HeadPlain(r);
    var p := if r.page.Some? then Repaired(r.kind, r.page.value, Wrap16(o.items.count))
             else PageMeta(0, 0, 0, 0, 0, false);
    MetaPlain(p);
    BothPlain(o.meta, o.tail, p);
    PlainSteps(FRESH, o.head);
    PlainSteps(x, o.meta + o.tail);
    SplitOutput(o);
    StepsAppend(FRESH, o.head + o.before.tlvs + o.items.tlvs, o.meta + o.tail);
    StepsAppend(FRESH, o.head + o.before.tlvs, o.items.tlvs);
    StepsAppend(FRESH, o.head, o.before.tlvs);
    FrameFields(r);
    LongEnough(r);
  }

  lemma SplitOutput(o: Output)
    ensures OutputTlvs(o) == o.head + o.before.tlvs + o.items.tlvs + (o.meta + o.tail)
  {
  }

  lemma BothPlain(meta: seq<Tlv>, tail: seq<Tlv>, p: PageMeta)
    requires (meta == [] || meta == MetaTlvs(p)) && (tail == [] || tail == [Utf8Of(0x11, TRUNCATED)])
    ensures AllPlain(meta + tail)
  {
    hide MetaTlvs, Plain;
    MetaPlain(p);
  }

  lemma LongEnough(r: Response)
    requires Write(r).Some?
    ensures Encode(r).Some? && |Encode(r).value| >= 8
  {
    hide EmitBlocks, MetaTlvs, Repaired, AllBytes;
    WrittenFits(r);
    AllBytesLength(OutputTlvs(Write(r).value));
  }

  // ---------------------------------------------------------------- the list kinds

  predicate Only(d: Decoded, caps: bool, metrics: bool, samples: bool, settings: bool, files: bool, images: bool) {
    && (caps || d.capabilities == []) && (metrics || d.metrics == []) && (samples || d.samples == [])
    && (settings || d.settings == []) && (files || d.files == []) && (images || d.images == [])
  }

  /** `n` is the length of the longest prefix of the entries that fits after `o`'s head and preceding entries. */
  ghost predicate LongestPrefix(bs: seq<Block>, size: nat, reserve: nat, n: nat) {
    && n <= |bs| && CanFit(size, Size(BaseTlvs(bs[..n])), reserve)
    && (n < |bs| ==> !CanFit(size, Size(BaseTlvs(bs[..n])) + Size(bs[n].base), reserve))
  }

  lemma SolidItems(r: Response)
    requires Write(r).Some? && Solid(r.items) && r.before == []
    ensures var o := Write(r).value;
            && o.before.tlvs == [] && !o.before.truncated && o.items.count <= |r.items|
            && o.items.tlvs == BaseTlvs(r.items[..o.items.count])
            && LongestPrefix(r.items, Size(o.head), Reserve(r), o.items.count)
            && (o.items.truncated <==> o.items.count < |r.items|)
  {
    hide HeadTlvs, MetaTlvs, Repaired, EmitBlocks;
    var o := Write(r).value;
    NoBlocks(Size(o.head), Reserve(r));
    SolidPrefix(Size(o.head), r.items, Reserve(r));
    BlocksFit(Size(o.head), r.items, Reserve(r));
  }

  lemma {:induction false} NoBlocks(size: nat, reserve: nat)
    ensures EmitBlocks(size, [], reserve) == Emitted([], 0, false) && Size([]) == 0
  {
  }

  /** Capabilities come back as the longest prefix that fits, every field intact. */
  lemma {:induction false} CapabilitiesRoundTrip(r: Response, xs: seq<Capability>)
    requires r.kind == CAPABILITIES && r.before == [] && r.items == CapabilityBlocks(xs) && ProperScalars(r.scalars)
        && Encode(r).Some?
    ensures var o := Write(r).value; var d := Decode(Encode(r).value);
            && d.Some? && LongestPrefix(r.items, Size(o.head), Reserve(r), o.items.count)
            && d.value.capabilities == xs[..o.items.count] && Only(d.value, true, false, false, false, false, false)
            && FrameRead(r, o, d.value.fields)
  {
    hide HeadTlvs, EmitBlocks, MetaTlvs, Repaired, Steps, Decode, FieldsAfter, CanFit, Encode, CapabilityBlock, Write;
    WriteOf(r);
    var o := Write(r).value;
    PrefixOfCapabilities(xs, 0);
    SolidItems(r);
    var k := o.items.count;
    PrefixOfCapabilities(xs, k);
    var d := FRESH.(fields := FieldsAfter(map[], o.head));
    NoSteps(d);
    CapabilitiesRead(d, xs[..k], []);
    assert [] + xs[..k] == xs[..k];
    DecodeWritten(r, d.(capabilities := Pile(xs[..k], NO_CAPABILITY, false)));
  }

  lemma WriteOf(r: Response)
    ensures Encode(r).Some? <==> Write(r).Some?
  {
  }

  lemma {:induction false} PrefixOfCapabilities(xs: seq<Capability>, k: nat)
    requires k <= |xs|
    ensures CapabilityBlocks(xs)[..k] == CapabilityBlocks(xs[..k]) && Solid(CapabilityBlocks(xs))
  {
  }

  /** Samples likewise. */
  lemma {:induction false} SamplesRoundTrip(r: Response, xs: seq<Sample>)
    requires r.kind == TELEMETRY_SNAPSHOT && r.before == [] && r.items == SampleBlocks(xs) && ProperScalars(r.scalars)
        && Encode(r).Some?
    ensures var o := Write(r).value; var d := Decode(Encode(r).value);
            && d.Some? && LongestPrefix(r.items, Size(o.head), Reserve(r), o.items.count)
            && d.value.samples == xs[..o.items.count] && Only(d.value, false, false, true, false, false, false)
            && FrameRead(r, o, d.value.fields)
  {
    hide HeadTlvs, EmitBlocks, MetaTlvs, Repaired, Steps, Decode, FieldsAfter, CanFit, Encode, SampleBlock, Write;
    WriteOf(r);
    var o := Write(r).value;
    PrefixOfSamples(xs, 0);
    SolidItems(r);
    var k := o.items.count;
    PrefixOfSamples(xs, k);
    var d := FRESH.(fields := FieldsAfter(map[], o.head));
    NoSteps(d);
    SamplesRead(d, xs[..k], []);
    assert [] + xs[..k] == xs[..k];
    DecodeWritten(r, d.(samples := Pile(xs[..k], NO_SAMPLE, false)));
  }

  lemma {:induction false} PrefixOfSamples(xs: seq<Sample>, k: nat)
    requires k <= |xs|
    ensures SampleBlocks(xs)[..k] == SampleBlocks(xs[..k]) && Solid(SampleBlocks(xs))
  {
  }

  /** Settings likewise. */
  lemma {:induction false} SettingsRoundTrip(r: Response, xs: seq<Setting>)
    requires r.kind == SETTINGS && r.before == [] && r.items == SettingBlocks(xs) && ProperScalars(r.scalars)
        && Encode(r).Some?
    ensures var o := Write(r).value; var d := Decode(Encode(r).value);
            && d.Some? && LongestPrefix(r.items, Size(o.head), Reserve(r), o.items.count)
            && d.value.settings == xs[..o.items.count] && Only(d.value, false, false, false, true, false, false)
            && FrameRead(r, o, d.value.fields)
  {
    hide HeadTlvs, EmitBlocks, MetaTlvs, Repaired, Steps, Decode, FieldsAfter, CanFit, Encode, SettingBlock, Write;
    WriteOf(r);
    var o := Write(r).value;
    PrefixOfSettings(xs, 0);
    SolidItems(r);
    var k := o.items.count;
    PrefixOfSettings(xs, k);
    var d := FRESH.(fields := FieldsAfter(map[], o.head));
    NoSteps(d);
    SettingsRead(d, xs[..k], []);
    assert [] + xs[..k] == xs[..k];
    DecodeWritten(r, d.(settings := Pile(xs[..k], NO_SETTING, false)));
  }

  lemma {:induction false} PrefixOfSettings(xs: seq<Setting>, k: nat)
    requires k <= |xs|
    ensures SettingBlocks(xs)[..k] == SettingBlocks(xs[..k]) && Solid(SettingBlocks(xs))
  {
  }

  lemma SolidBefore(r: Response)
    requires Write(r).Some? && Solid(r.before)
    ensures var o := Write(r).value;
            && o.before.count <= |r.before| && o.before.tlvs == BaseTlvs(r.before[..o.before.count])
            && LongestPrefix(r.before, Size(o.head), Reserve(r), o.before.count)
  {
    hide HeadTlvs, MetaTlvs, Repaired, EmitBlocks;
    var o := Write(r).value;
    SolidPrefix(Size(o.head), r.before, Reserve(r));
    BlocksFit(Size(o.head), r.before, Reserve(r));
  }

  lemma SolidAfter(r: Response)
    requires Write(r).Some? && Solid(r.before) && Solid(r.items)
    ensures var o := Write(r).value; var size := Size(o.head) + Size(o.before.tlvs);
            && o.items.count <= |r.items| && o.items.tlvs == BaseTlvs(r.items[..o.items.count])
            && LongestPrefix(r.items, size, Reserve(r), o.items.count)
  {
    hide HeadTlvs, MetaTlvs, Repaired, EmitBlocks;
    var o := Write(r).value;
    var size := Size(o.head) + Size(o.before.tlvs);
    BlocksFit(Size(o.head), r.before, Reserve(r));
    SolidPrefix(size, r.items, Reserve(r));
    BlocksFit(size, r.items, Reserve(r));
  }

  /** A directory listing: the files that fit, beside the two paths. */
  lemma {:induction false} FilesRoundTrip(r: Response, xs: seq<File>)
    requires r.kind == STORAGE_LIST && r.before == FileBlocks(xs) && r.items == [] && ProperScalars(r.scalars)
        && Encode(r).Some?
    ensures var o := Write(r).value; var d := Decode(Encode(r).value);
            && d.Some? && LongestPrefix(r.before, Size(o.head), Reserve(r), o.before.count)
            && d.value.files == xs[..o.before.count] && Only(d.value, false, false, false, false, true, false)
            && FrameRead(r, o, d.value.fields)
  {
    hide HeadTlvs, EmitBlocks, MetaTlvs, Repaired, Steps, Decode, FieldsAfter, CanFit, Encode, FileBlock, Write,
      FilesPile, FrameRead, LongestPrefix, TextField, PageOf;
    WriteOf(r);
    var o := Write(r).value;
    PrefixOfFiles(xs, 0);
    SolidBefore(r);
    SolidAfter(r);
    var k := o.before.count;
    PrefixOfFiles(xs, k);
    var d := FRESH.(fields := FieldsAfter(map[], o.head));
    FilesRead(d, xs[..k]);
    var d1 := d.(files := FilesPile(d.files, xs[..k]));
    NoSteps(d1);
    assert r.items[..o.items.count] == [];
    FilesFlushed(d.files, xs[..k]);
    assert [] + xs[..k] == xs[..k];
    DecodeWritten(r, d1);
  }

  lemma {:induction false} PrefixOfFiles(xs: seq<File>, k: nat)
    requires k <= |xs|
    ensures FileBlocks(xs)[..k] == FileBlocks(xs[..k]) && Solid(FileBlocks(xs)) && Solid([])
  {
  }

  /** A node bundle: the samples that fit, then the settings that fit. */
  lemma {:induction false} BundleRoundTrip(r: Response, xs: seq<Sample>, ys: seq<Setting>)
    requires r.kind == NODE_BUNDLE && r.before == SampleBlocks(xs) && r.items == SettingBlocks(ys)
        && ProperScalars(r.scalars) && Encode(r).Some?
    ensures var o := Write(r).value; var d := Decode(Encode(r).value);
            && d.Some? && LongestPrefix(r.before, Size(o.head), Reserve(r), o.before.count)
            && LongestPrefix(r.items, Size(o.head) + Size(o.before.tlvs), Reserve(r), o.items.count)
            && d.value.samples == xs[..o.before.count] && d.value.settings == ys[..o.items.count]
            && Only(d.value, false, false, true, true, false, false) && FrameRead(r, o, d.value.fields)
  {
    hide HeadTlvs, EmitBlocks, MetaTlvs, Repaired, Steps, Decode, FieldsAfter, CanFit, Encode, SampleBlock,
      SettingBlock, Write;
    WriteOf(r);
    var o := Write(r).value;
    PrefixOfSamples(xs, 0);
    PrefixOfSettings(ys, 0);
    SolidBefore(r);
    SolidAfter(r);
    var j, k := o.before.count, o.items.count;
    PrefixOfSamples(xs, j);
    PrefixOfSettings(ys, k);
    var d := FRESH.(fields := FieldsAfter(map[], o.head));
    SamplesRead(d, xs[..j], []);
    var d1 := d.(samples := Pile(xs[..j], NO_SAMPLE, false));
    SettingsRead(d1, ys[..k], []);
    assert [] + xs[..j] == xs[..j] && [] + ys[..k] == ys[..k];
    DecodeWritten(r, d1.(settings := Pile(ys[..k], NO_SETTING, false)));
  }

  /** A manifest page: every field of every image that fits, but with its ids shifted. */
  lemma {:induction false} ManifestRoundTrip(r: Response, xs: seq<Image>)
    requires r.kind == OTA_MANIFEST && r.before == [] && r.items == ImageBlocks(xs) && ProperScalars(r.scalars)
        && Encode(r).Some?
    ensures var o := Write(r).value; var d := Decode(Encode(r).value);
            && d.Some? && LongestPrefix(r.items, Size(o.head), Reserve(r), o.items.count)
            && d.value.images == ReadImages(xs[..o.items.count])
                 && Only(d.value, false, false, false, false, false, true)
            && FrameRead(r, o, d.value.fields)
  {
    hide HeadTlvs, EmitBlocks, MetaTlvs, Repaired, Steps, Decode, FieldsAfter, CanFit, Encode, ImageBlock, Write,
      ReadImages, ImagesPile;
    WriteOf(r);
    var o := Write(r).value;
    PrefixOfImages(xs, 0);
    SolidItems(r);
    var k := o.items.count;
    PrefixOfImages(xs, k);
    var d := FRESH.(fields := FieldsAfter(map[], o.head));
    NoSteps(d);
    ImagesRead(d, xs[..k]);
    ImagesFlushed(xs[..k]);
    DecodeWritten(r, d.(images := ImagesPile(d.images, xs[..k])));
  }

  lemma {:induction false} PrefixOfImages(xs: seq<Image>, k: nat)
    requires k <= |xs|
    ensures ImageBlocks(xs)[..k] == ImageBlocks(xs[..k]) && Solid(ImageBlocks(xs))
  {
  }

  /** A manifest page comes back whole exactly when at most one image was written or none of those written has an id. */
  lemma {:induction false} ManifestExact(r: Response, xs: seq<Image>)
    requires r.kind == OTA_MANIFEST && r.before == [] && r.items == ImageBlocks(xs) && ProperScalars(r.scalars)
        && Encode(r).Some?
    ensures var k := Write(r).value.items.count; var d := Decode(Encode(r).value);
            k <= |xs| && d.Some? && (d.value.images == xs[..k] <==> k <= 1 || forall i :: 0 <= i < k ==> xs[i].id == 0)
  {
    hide Encode, Decode, Write, ReadImages, FrameRead, LongestPrefix;
    WriteOf(r);
    SolidCount(r);
    ManifestRoundTrip(r, xs);
    var k := Write(r).value.items.count;
    ManifestSurvives(xs[..k]);
    assert forall i :: 0 <= i < k ==> xs[..k][i] == xs[i];
  }

  lemma SolidCount(r: Response)
    requires Write(r).Some?
    ensures Write(r).value.items.count <= |r.items|
  {
    hide HeadTlvs, MetaTlvs, Repaired, EmitBlocks;
    var o := Write(r).value;
    BlocksFit(Size(o.head), r.before, Reserve(r));
    BlocksFit(Size(o.head) + Size(o.before.tlvs), r.items, Reserve(r));
  }

  /** A telemetry schema page: the metrics as far as they were written, ids moved as `ReadId` says. */
  lemma {:induction false} SchemaRoundTrip(r: Response, xs: seq<Metric>)
    requires r.kind == TELEMETRY && r.before == [] && r.items == MetricBlocks(xs) && ProperScalars(r.scalars)
        && Encode(r).Some?
    ensures var o := Write(r).value; var d := Decode(Encode(r).value);
            var ss := SentOf(Size(o.head), xs, Reserve(r));
            && d.Some? && Carries(ss, xs) && |ss| == o.items.count && (!o.items.truncated ==> Complete(ss, xs))
            && d.value.metrics == ReadMetrics(ss, 0) && Only(d.value, false, true, false, false, false, false)
            && FrameRead(r, o, d.value.fields)
  {
    hide HeadTlvs, EmitBlocks, MetaTlvs, Repaired, Steps, Decode, FieldsAfter, CanFit, Encode, MetricBlock, Write,
      SentOf, ReadMetrics, MetricsPile, AllSent, Carries, Complete, MetricBlocks;
    WriteOf(r);
    WriteParts(r);
    var o := Write(r).value;
    var ss := SentOf(Size(o.head), xs, Reserve(r));
    NoBlocks(Size(o.head), Reserve(r));
    MetricsSent(Size(o.head), xs, Reserve(r));
    var d := FRESH.(fields := FieldsAfter(map[], o.head));
    NoSteps(d);
    MetricsRead(d, ss);
    MetricsFlushed(ss);
    DecodeWritten(r, d.(metrics := MetricsPile(d.metrics, ss)));
  }

  lemma WriteParts(r: Response)
    requires Write(r).Some?
    ensures var o := Write(r).value;
            && o.head == HeadTlvs(r) && o.before == EmitBlocks(Size(o.head), r.before, Reserve(r))
            && o.items == EmitBlocks(Size(o.head) + Size(o.before.tlvs), r.items, Reserve(r))
  {
    hide HeadTlvs, EmitBlocks, MetaTlvs, Repaired;
  }
}
