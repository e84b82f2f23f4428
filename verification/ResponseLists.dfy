/**
 The list entries of a response: how each kind is written, and what the decoder assembles from a run of them.
 Capabilities, samples, settings and files come back as they were; the ids of manifest images and of telemetry
 metrics written without a description can move to a neighbour, and exactly when is stated here.
*/
module ResponseLists {
  import opened LittleEndian
  import opened Tlv
  import opened ResponseEncoding
  import opened ResponseDecoding

  // ---------------------------------------------------------------- entries as blocks

  function CapabilityBlock(x: Capability): Block {
    Block([Utf8Of(0x30, x.key), Utf8Of(0x31, x.description)], [])
  }

  function SampleBlock(x: Sample): Block {
    Block([U16Of(0x4F, x.id), Utf8Of(0x50, x.key), Utf8Of(0x51, x.value), Utf8Of(0x52, x.unit)], [])
  }

  function SettingBlock(x: Setting): Block {
    Block([U16Of(0x7F, x.id), Utf8Of(0x80, x.key), U8Of(0x81, x.valueType), BoolOf(0x82, x.writable)]
            + [Utf8Of(0x83, x.nvsKey), Utf8Of(0x84, x.current), Utf8Of(0x85, x.default), Utf8Of(0x86, x.description)],
            [])
  }

  function FileBlock(x: File): Block {
    Block([Utf8Of(0xBA, x.name), BoolOf(0xBB, x.isDir), U32Of(0xBC, x.size)], [])
  }

  function ImageBlock(x: Image): Block {
    Block([U32Of(0xE0, x.id), Utf8Of(0xE1, x.name)]
            + ([U32Of(0xE2, x.size), U32Of(0xE3, x.crc), Utf8Of(0xE4, x.version)]
            + [Utf8Of(0xE5, x.build), U32Of(0xE6, x.created), Utf8Of(0xE7, x.state), U32Of(0xE8, x.required)]), [])
  }

  /** Both zeros of the floating-point format compare equal to zero. */
  predicate IsZero(f: Float32) {
    f == ZERO || f == [0, 0, 0, 0x80]
  }

  function RangeTlvs(x: Metric): seq<Tlv> {
    [Tlv(0x42, F32, x.min), Tlv(0x43, F32, x.max)]
  }

  function MetricBase(x: Metric): seq<Tlv> {
    [U16Of(0x3F, x.id), Utf8Of(0x40, x.key), Utf8Of(0x41, x.unit)]
  }

  function MetricBlock(x: Metric): Block {
    Block(MetricBase(x),
          (if IsZero(x.min) && IsZero(x.max) then [] else [RangeTlvs(x)])
            + (if x.description == [] then [] else [[Utf8Of(0x44, x.description)]]))
  }

  function CapabilityBlocks(xs: seq<Capability>): (bs: seq<Block>)
    ensures |bs| == |xs| && forall i :: 0 <= i < |xs| ==> bs[i] == CapabilityBlock(xs[i])
  {
    if xs == [] then [] else [CapabilityBlock(xs[0])] + CapabilityBlocks(xs[1..])
  }

  function SampleBlocks(xs: seq<Sample>): (bs: seq<Block>)
    ensures |bs| == |xs| && forall i :: 0 <= i < |xs| ==> bs[i] == SampleBlock(xs[i])
  {
    if xs == [] then [] else [SampleBlock(xs[0])] + SampleBlocks(xs[1..])
  }

  function SettingBlocks(xs: seq<Setting>): (bs: seq<Block>)
    ensures |bs| == |xs| && forall i :: 0 <= i < |xs| ==> bs[i] == SettingBlock(xs[i])
  {
    if xs == [] then [] else [SettingBlock(xs[0])] + SettingBlocks(xs[1..])
  }

  function FileBlocks(xs: seq<File>): (bs: seq<Block>)
    ensures |bs| == |xs| && forall i :: 0 <= i < |xs| ==> bs[i] == FileBlock(xs[i])
  {
    if xs == [] then [] else [FileBlock(xs[0])] + FileBlocks(xs[1..])
  }

  function ImageBlocks(xs: seq<Image>): (bs: seq<Block>)
    ensures |bs| == |xs| && forall i :: 0 <= i < |xs| ==> bs[i] == ImageBlock(xs[i])
  {
    if xs == [] then [] else [ImageBlock(xs[0])] + ImageBlocks(xs[1..])
  }

  function MetricBlocks(xs: seq<Metric>): (bs: seq<Block>)
    ensures |bs| == |xs| && forall i :: 0 <= i < |xs| ==> bs[i] == MetricBlock(xs[i])
  {
    if xs == [] then [] else [MetricBlock(xs[0])] + MetricBlocks(xs[1..])
  }

  // ---------------------------------------------------------------- one entry at a time

  lemma {:induction false} Steps1(d: Decoding, a: Tlv)
    ensures Steps(d, [a]) == Step(d, a)
  {
    hide Step;
    assert [a][1..] == [];
  }

  lemma {:induction false} Steps2(d: Decoding, a: Tlv, b: Tlv)
    ensures Steps(d, [a, b]) == Step(Step(d, a), b)
  {
    hide Step, Steps;
    assert [a, b] == [a] + [b];
    StepsAppend(d, [a], [b]);
    Steps1(d, a);
    Steps1(Step(d, a), b);
  }

  lemma {:induction false} Steps3(d: Decoding, a: Tlv, b: Tlv, c: Tlv)
    ensures Steps(d, [a, b, c]) == Step(Step(Step(d, a), b), c)
  {
    hide Step, Steps;
    assert [a, b, c] == [a, b] + [c];
    StepsAppend(d, [a, b], [c]);
    Steps2(d, a, b);
    Steps1(Step(Step(d, a), b), c);
  }

  lemma {:induction false} Steps4(d: Decoding, a: Tlv, b: Tlv, c: Tlv, e: Tlv)
    ensures Steps(d, [a, b, c, e]) == Step(Step(Step(Step(d, a), b), c), e)
  {
    hide Step, Steps;
    assert [a, b, c, e] == [a, b] + [c, e];
    StepsAppend(d, [a, b], [c, e]);
    Steps2(d, a, b);
    Steps2(Step(Step(d, a), b), c, e);
  }

  lemma {:induction false} NoSteps(d: Decoding)
    ensures Steps(d, []) == d
  {
  }

  lemma CapabilityTag(d: Decoding, t: Tlv)
    requires 0x30 <= t.tag <= 0x31
    ensures Step(d, t) == d.(capabilities := OnCapability(d.capabilities, t))
  {
    hide OnCapability;
  }

  lemma SampleTag(d: Decoding, t: Tlv)
    requires 0x4F <= t.tag <= 0x52
    ensures Step(d, t) == d.(samples := OnSample(d.samples, t))
  {
    hide OnSample;
  }

  lemma SettingTag(d: Decoding, t: Tlv)
    requires 0x7F <= t.tag <= 0x86
    ensures Step(d, t) == d.(settings := OnSetting(d.settings, t))
  {
    hide OnSetting;
  }

  lemma FileTag(d: Decoding, t: Tlv)
    requires 0xBA <= t.tag <= 0xBC
    ensures Step(d, t) == d.(files := OnFile(d.files, t))
  {
    hide OnFile;
  }

  lemma ImageTag(d: Decoding, t: Tlv)
    requires 0xE0 <= t.tag <= 0xE8
    ensures Step(d, t) == d.(images := OnImage(d.images, t))
  {
    hide OnImage;
  }

  lemma MetricTag(d: Decoding, t: Tlv)
    requires 0x3F <= t.tag <= 0x44
    ensures Step(d, t) == d.(metrics := OnMetric(d.metrics, t))
  {
    hide OnMetric;
  }

  lemma {:induction false} CapabilityRead(d: Decoding, x: Capability, l: seq<Capability>)
    requires d.capabilities == Pile(l, NO_CAPABILITY, false)
    ensures Steps(d, CapabilityBlock(x).base) == d.(capabilities := Pile(l + [x], NO_CAPABILITY, false))
  {
    hide Step, Steps;
    var a, b := Utf8Of(0x30, x.key), Utf8Of(0x31, x.description);
    Steps2(d, a, b);
    CapabilityTag(d, a);
    CapabilityTag(Step(d, a), b);
  }

  lemma {:induction false} SampleRead(d: Decoding, x: Sample, l: seq<Sample>)
    requires d.samples == Pile(l, NO_SAMPLE, false)
    ensures Steps(d, SampleBlock(x).base) == d.(samples := Pile(l + [x], NO_SAMPLE, false))
  {
    hide Step, Steps, U16, U16Bytes;
    U16RoundTrip(x.id);
    var a, b, c, e := U16Of(0x4F, x.id), Utf8Of(0x50, x.key), Utf8Of(0x51, x.value), Utf8Of(0x52, x.unit);
    Steps4(d, a, b, c, e);
    SampleTag(d, a);
    SampleTag(Step(d, a), b);
    SampleTag(Step(Step(d, a), b), c);
    SampleTag(Step(Step(Step(d, a), b), c), e);
  }

  lemma {:induction false} SettingFirst(d: Decoding, x: Setting, l: seq<Setting>)
    requires d.settings == Pile(l, NO_SETTING, false)
    ensures Steps(d, [U16Of(0x7F, x.id), Utf8Of(0x80, x.key), U8Of(0x81, x.valueType), BoolOf(0x82, x.writable)])
         == d.(settings := Pile(l, Setting(x.id, x.key, x.valueType, x.writable, [], [], [], []), true))
  {
    hide Step, Steps, U16, U16Bytes;
    U16RoundTrip(x.id);
    var a, b, c, e := U16Of(0x7F, x.id), Utf8Of(0x80, x.key), U8Of(0x81, x.valueType), BoolOf(0x82, x.writable);
    Steps4(d, a, b, c, e);
    SettingTag(d, a);
    SettingTag(Step(d, a), b);
    SettingTag(Step(Step(d, a), b), c);
    SettingTag(Step(Step(Step(d, a), b), c), e);
  }

  lemma {:induction false} SettingSecond(d: Decoding, x: Setting, l: seq<Setting>)
    requires d.settings == Pile(l, Setting(x.id, x.key, x.valueType, x.writable, [], [], [], []), true)
    ensures Steps(d, [Utf8Of(0x83, x.nvsKey), Utf8Of(0x84, x.current), Utf8Of(0x85, x.default),
                      Utf8Of(0x86, x.description)])
         == d.(settings := Pile(l + [x], NO_SETTING, false))
  {
    hide Step, Steps;
    var a, b, c, e := Utf8Of(0x83, x.nvsKey), Utf8Of(0x84, x.current), Utf8Of(0x85, x.default),
        Utf8Of(0x86, x.description);
    Steps4(d, a, b, c, e);
    SettingTag(d, a);
    SettingTag(Step(d, a), b);
    SettingTag(Step(Step(d, a), b), c);
    SettingTag(Step(Step(Step(d, a), b), c), e);
  }

  lemma {:induction false} SettingRead(d: Decoding, x: Setting, l: seq<Setting>)
    requires d.settings == Pile(l, NO_SETTING, false)
    ensures Steps(d, SettingBlock(x).base) == d.(settings := Pile(l + [x], NO_SETTING, false))
  {
    hide Steps, U16Of, Utf8Of, U8Of, BoolOf;
    var a := [U16Of(0x7F, x.id), Utf8Of(0x80, x.key), U8Of(0x81, x.valueType), BoolOf(0x82, x.writable)];
    var b := [Utf8Of(0x83, x.nvsKey), Utf8Of(0x84, x.current), Utf8Of(0x85, x.default), Utf8Of(0x86, x.description)];
    StepsAppend(d, a, b);
    SettingFirst(d, x, l);
    SettingSecond(Steps(d, a), x, l);
  }

  /** A held or untouched current entry: what a finished entry leaves behind. */
  predicate Clean<T(==)>(p: Pile<T>, empty: T) {
    p.held || p.cur == empty
  }

  lemma {:induction false} FileRead(d: Decoding, x: File)
    requires Clean(d.files, NO_FILE)
    ensures Steps(d, FileBlock(x).base) == d.(files := Pile(Flush(d.files, NO_FILE).list, x, true))
  {
    hide Step, Steps, U32, U32Bytes;
    U32RoundTrip(x.size);
    var a, b, c := Utf8Of(0xBA, x.name), BoolOf(0xBB, x.isDir), U32Of(0xBC, x.size);
    Steps3(d, a, b, c);
    FileTag(d, a);
    FileTag(Step(d, a), b);
    FileTag(Step(Step(d, a), b), c);
  }

  /** A manifest entry's id tag comes before the tag that flushes: a held entry receives its successor's id. */
  function AfterImage(p: Pile<Image>, x: Image): Pile<Image> {
    if p.held then Pile(p.list + [p.cur.(id := x.id)], x.(id := 0), true) else Pile(p.list, x, true)
  }

  lemma {:induction false} ImageHead(d: Decoding, x: Image)
    requires Clean(d.images, NO_IMAGE)
    ensures Steps(d, [U32Of(0xE0, x.id), Utf8Of(0xE1, x.name)])
         == d.(images := Pile(AfterImage(d.images, x).list,
                              NO_IMAGE.(id := AfterImage(d.images, x).cur.id, name := x.name), true))
  {
    hide Step, Steps, U32, U32Bytes;
    U32RoundTrip(x.id);
    var a, b := U32Of(0xE0, x.id), Utf8Of(0xE1, x.name);
    Steps2(d, a, b);
    ImageTag(d, a);
    ImageTag(Step(d, a), b);
  }

  lemma {:induction false} ImageMiddle(d: Decoding, x: Image)
    requires d.images.held
    ensures Steps(d, [U32Of(0xE2, x.size), U32Of(0xE3, x.crc), Utf8Of(0xE4, x.version)])
         == d.(images := d.images.(cur := d.images.cur.(size := x.size, crc := x.crc, version := x.version)))
  {
    hide Step, Steps, U32, U32Bytes;
    U32RoundTrip(x.size);
    U32RoundTrip(x.crc);
    var a, b, c := U32Of(0xE2, x.size), U32Of(0xE3, x.crc), Utf8Of(0xE4, x.version);
    Steps3(d, a, b, c);
    ImageTag(d, a);
    ImageTag(Step(d, a), b);
    ImageTag(Step(Step(d, a), b), c);
  }

  lemma {:induction false} ImageLast(d: Decoding, x: Image)
    requires d.images.held
    ensures Steps(d, [Utf8Of(0xE5, x.build), U32Of(0xE6, x.created), Utf8Of(0xE7, x.state), U32Of(0xE8, x.required)])
         == d.(images := d.images.(cur := d.images.cur.(build := x.build, created := x.created, state := x.state,
                                                        required := x.required)))
  {
    hide Step, Steps, U32, U32Bytes;
    U32RoundTrip(x.created);
    U32RoundTrip(x.required);
    var a, b, c, e := Utf8Of(0xE5, x.build), U32Of(0xE6, x.created), Utf8Of(0xE7, x.state), U32Of(0xE8, x.required);
    Steps4(d, a, b, c, e);
    ImageTag(d, a);
    ImageTag(Step(d, a), b);
    ImageTag(Step(Step(d, a), b), c);
    ImageTag(Step(Step(Step(d, a), b), c), e);
  }

  lemma {:induction false} ImageRead(d: Decoding, x: Image)
    requires Clean(d.images, NO_IMAGE)
    ensures Steps(d, ImageBlock(x).base) == d.(images := AfterImage(d.images, x))
  {
    hide Steps, U32Of, Utf8Of;
    var a := [U32Of(0xE0, x.id), Utf8Of(0xE1, x.name)];
    var b := [U32Of(0xE2, x.size), U32Of(0xE3, x.crc), Utf8Of(0xE4, x.version)];
    var c := [Utf8Of(0xE5, x.build), U32Of(0xE6, x.created), Utf8Of(0xE7, x.state), U32Of(0xE8, x.required)];
    StepsAppend(d, a, b + c);
    StepsAppend(Steps(d, a), b, c);
    ImageHead(d, x);
    ImageMiddle(Steps(d, a), x);
    ImageLast(Steps(Steps(d, a), b), x);
  }

  /** A metric as written: with or without its range, with or without its description. */
  datatype SentMetric = SentMetric(metric: Metric, ranged: bool, described: bool)

  function SentTlvs(s: SentMetric): seq<Tlv> {
    MetricBase(s.metric)
      + ((if s.ranged then RangeTlvs(s.metric) else [])
      + (if s.described then [Utf8Of(0x44, s.metric.description)] else []))
  }

  /** The metric as far as it was written. */
  function AsSent(s: SentMetric): Metric {
    s.metric.(min := if s.ranged then s.metric.min else ZERO, max := if s.ranged then s.metric.max else ZERO,
              description := if s.described then s.metric.description else [])
  }

  /** As with images, but an entry written with its description is flushed by it. */
  function AfterMetric(p: Pile<Metric>, s: SentMetric): Pile<Metric> {
    var list := if p.held then p.list + [p.cur.(id := s.metric.id)] else p.list;
    var x := if p.held then AsSent(s).(id := 0) else AsSent(s);
    if s.described then Pile(list + [x], NO_METRIC, false) else Pile(list, x, true)
  }

  lemma {:induction false} MetricHead(d: Decoding, x: Metric)
    requires Clean(d.metrics, NO_METRIC)
    ensures var p := d.metrics;
            Steps(d, MetricBase(x))
              == d.(metrics := Pile(if p.held then p.list + [p.cur.(id := x.id)] else p.list,
                                    Metric(if p.held then 0 else x.id, x.key, x.unit, ZERO, ZERO, []), true))
  {
    hide Step, Steps, U16, U16Bytes;
    U16RoundTrip(x.id);
    var a, b, c := U16Of(0x3F, x.id), Utf8Of(0x40, x.key), Utf8Of(0x41, x.unit);
    Steps3(d, a, b, c);
    MetricTag(d, a);
    MetricTag(Step(d, a), b);
    MetricTag(Step(Step(d, a), b), c);
  }

  lemma {:induction false} RangeRead(d: Decoding, x: Metric, on: bool)
    requires d.metrics.held && d.metrics.cur.min == ZERO && d.metrics.cur.max == ZERO
    ensures Steps(d, if on then RangeTlvs(x) else [])
         == d.(metrics := d.metrics.(cur := d.metrics.cur.(min := if on then x.min else ZERO,
                                                           max := if on then x.max else ZERO)))
  {
    hide Step, Steps;
    if on {
      var a, b := Tlv(0x42, F32, x.min), Tlv(0x43, F32, x.max);
      Steps2(d, a, b);
      MetricTag(d, a);
      MetricTag(Step(d, a), b);
    } else {
      NoSteps(d);
    }
  }

  lemma {:induction false} DescriptionRead(d: Decoding, text: Text, on: bool)
    requires d.metrics.held && d.metrics.cur.description == []
    ensures Steps(d, if on then [Utf8Of(0x44, text)] else [])
         == d.(metrics := if on then Pile(d.metrics.list + [d.metrics.cur.(description := text)], NO_METRIC, false)
               else d.metrics)
  {
    hide Step, Steps;
    if on {
      Steps1(d, Utf8Of(0x44, text));
      MetricTag(d, Utf8Of(0x44, text));
    } else {
      NoSteps(d);
    }
  }

  lemma {:induction false} MetricRead(d: Decoding, s: SentMetric)
    requires Clean(d.metrics, NO_METRIC)
    ensures Steps(d, SentTlvs(s)) == d.(metrics := AfterMetric(d.metrics, s))
  {
    hide Steps, MetricBase, RangeTlvs, Utf8Of;
    var a := MetricBase(s.metric);
    var b := if s.ranged then RangeTlvs(s.metric) else [];
    var c := if s.described then [Utf8Of(0x44, s.metric.description)] else [];
    StepsAppend(d, a, b + c);
    StepsAppend(Steps(d, a), b, c);
    MetricHead(d, s.metric);
    RangeRead(Steps(d, a), s.metric, s.ranged);
    DescriptionRead(Steps(Steps(d, a), b), s.metric.description, s.described);
  }
}
