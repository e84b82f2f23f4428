/**
 Decoding an encoded response: the fixed fields and exactly the entries that were written, with the two
 exceptions about ids.
*/
module ResponseRoundTrip {
  import opened FixedWidth
  import opened Tlv
  import opened ResponseEncoding
  import opened ResponseDecoding
  import opened ResponseLists

  // ---------------------------------------------------------------- runs of entries

  lemma {:induction false} FirstCapability(xs: seq<Capability>)
    requires xs != []
    ensures BaseTlvs(CapabilityBlocks(xs)) == CapabilityBlock(xs[0]).base + BaseTlvs(CapabilityBlocks(xs[1..]))
  {
    hide CapabilityBlock;
    assert CapabilityBlocks(xs)[1..] == CapabilityBlocks(xs[1..]);
  }

  lemma {:induction false} NoCapabilities()
    ensures BaseTlvs(CapabilityBlocks([])) == []
  {
  }

  lemma {:induction false} CapabilitiesRead(d: Decoding, xs: seq<Capability>, l: seq<Capability>)
    requires d.capabilities == Pile(l, NO_CAPABILITY, false)
    ensures Steps(d, BaseTlvs(CapabilityBlocks(xs))) == d.(capabilities := Pile(l + xs, NO_CAPABILITY, false))
    decreases |xs|
  {
    hide Steps, CapabilityBlock, BaseTlvs, CapabilityBlocks;
    NoSteps(d);
    NoCapabilities();
    if xs == [] {
      assert l + [] == l;
    } else {
      FirstCapability(xs);
      CapabilityRead(d, xs[0], l);
      var one, rest := CapabilityBlock(xs[0]).base, BaseTlvs(CapabilityBlocks(xs[1..]));
      StepsAppend(d, one, rest);
      CapabilitiesRead(Steps(d, one), xs[1..], l + [xs[0]]);
      assert l + [xs[0]] + xs[1..] == l + xs;
    }
  }

  lemma {:induction false} FirstSample(xs: seq<Sample>)
    requires xs != []
    ensures BaseTlvs(SampleBlocks(xs)) == SampleBlock(xs[0]).base + BaseTlvs(SampleBlocks(xs[1..]))
  {
    hide SampleBlock;
    assert SampleBlocks(xs)[1..] == SampleBlocks(xs[1..]);
  }

  lemma {:induction false} NoSamples()
    ensures BaseTlvs(SampleBlocks([])) == []
  {
  }

  lemma {:induction false} SamplesRead(d: Decoding, xs: seq<Sample>, l: seq<Sample>)
    requires d.samples == Pile(l, NO_SAMPLE, false)
    ensures Steps(d, BaseTlvs(SampleBlocks(xs))) == d.(samples := Pile(l + xs, NO_SAMPLE, false))
    decreases |xs|
  {
    hide Steps, SampleBlock, BaseTlvs, SampleBlocks;
    NoSteps(d);
    NoSamples();
    if xs == [] {
      assert l + [] == l;
    } else {
      FirstSample(xs);
      SampleRead(d, xs[0], l);
      var one, rest := SampleBlock(xs[0]).base, BaseTlvs(SampleBlocks(xs[1..]));
      StepsAppend(d, one, rest);
      SamplesRead(Steps(d, one), xs[1..], l + [xs[0]]);
      assert l + [xs[0]] + xs[1..] == l + xs;
    }
  }

  lemma {:induction false} FirstSetting(xs: seq<Setting>)
    requires xs != []
    ensures BaseTlvs(SettingBlocks(xs)) == SettingBlock(xs[0]).base + BaseTlvs(SettingBlocks(xs[1..]))
  {
    hide SettingBlock;
    assert SettingBlocks(xs)[1..] == SettingBlocks(xs[1..]);
  }

  lemma {:induction false} NoSettings()
    ensures BaseTlvs(SettingBlocks([])) == []
  {
  }

  lemma {:induction false} SettingsRead(d: Decoding, xs: seq<Setting>, l: seq<Setting>)
    requires d.settings == Pile(l, NO_SETTING, false)
    ensures Steps(d, BaseTlvs(SettingBlocks(xs))) == d.(settings := Pile(l + xs, NO_SETTING, false))
    decreases |xs|
  {
    hide Steps, SettingBlock, BaseTlvs, SettingBlocks;
    NoSteps(d);
    NoSettings();
    if xs == [] {
      assert l + [] == l;
    } else {
      FirstSetting(xs);
      SettingRead(d, xs[0], l);
      var one, rest := SettingBlock(xs[0]).base, BaseTlvs(SettingBlocks(xs[1..]));
      StepsAppend(d, one, rest);
      SettingsRead(Steps(d, one), xs[1..], l + [xs[0]]);
      assert l + [xs[0]] + xs[1..] == l + xs;
    }
  }

  function FilesPile(p: Pile<File>, xs: seq<File>): Pile<File>
    decreases |xs|
  {
    if xs == [] then p else FilesPile(Pile(Flush(p, NO_FILE).list, xs[0], true), xs[1..])
  }

  lemma {:induction false} FirstFile(xs: seq<File>)
    requires xs != []
    ensures BaseTlvs(FileBlocks(xs)) == FileBlock(xs[0]).base + BaseTlvs(FileBlocks(xs[1..]))
  {
    hide FileBlock;
    assert FileBlocks(xs)[1..] == FileBlocks(xs[1..]);
  }

  lemma {:induction false} NoFiles()
    ensures BaseTlvs(FileBlocks([])) == []
  {
  }

  lemma {:induction false} FilesRead(d: Decoding, xs: seq<File>)
    requires Clean(d.files, NO_FILE)
    ensures Steps(d, BaseTlvs(FileBlocks(xs))) == d.(files := FilesPile(d.files, xs))
    decreases |xs|
  {
    hide Steps, FileBlock, Flush, BaseTlvs, FileBlocks;
    NoSteps(d);
    NoFiles();
    if xs != [] {
      FirstFile(xs);
      FileRead(d, xs[0]);
      var one, rest := FileBlock(xs[0]).base, BaseTlvs(FileBlocks(xs[1..]));
      StepsAppend(d, one, rest);
      FilesRead(Steps(d, one), xs[1..]);
    }
  }

  lemma {:induction false} FilesFlushed(p: Pile<File>, xs: seq<File>)
    ensures Flush(FilesPile(p, xs), NO_FILE).list == Flush(p, NO_FILE).list + xs
    decreases |xs|
  {
    if xs == [] {
      assert Flush(p, NO_FILE).list + [] == Flush(p, NO_FILE).list;
    } else {
      FilesFlushed(Pile(Flush(p, NO_FILE).list, xs[0], true), xs[1..]);
      assert Flush(p, NO_FILE).list + [xs[0]] + xs[1..] == Flush(p, NO_FILE).list + xs;
    }
  }

  function ImagesPile(p: Pile<Image>, xs: seq<Image>): Pile<Image>
    decreases |xs|
  {
    if xs == [] then p else ImagesPile(AfterImage(p, xs[0]), xs[1..])
  }

  lemma {:induction false} FirstImage(xs: seq<Image>)
    requires xs != []
    ensures BaseTlvs(ImageBlocks(xs)) == ImageBlock(xs[0]).base + BaseTlvs(ImageBlocks(xs[1..]))
  {
    hide ImageBlock;
    assert ImageBlocks(xs)[1..] == ImageBlocks(xs[1..]);
  }

  lemma {:induction false} NoImages()
    ensures BaseTlvs(ImageBlocks([])) == []
  {
  }

  lemma {:induction false} ImagesRead(d: Decoding, xs: seq<Image>)
    requires Clean(d.images, NO_IMAGE)
    ensures Steps(d, BaseTlvs(ImageBlocks(xs))) == d.(images := ImagesPile(d.images, xs))
    decreases |xs|
  {
    hide Steps, ImageBlock, BaseTlvs, ImageBlocks;
    NoSteps(d);
    NoImages();
    if xs != [] {
      FirstImage(xs);
      ImageRead(d, xs[0]);
      var one, rest := ImageBlock(xs[0]).base, BaseTlvs(ImageBlocks(xs[1..]));
      StepsAppend(d, one, rest);
      ImagesRead(Steps(d, one), xs[1..]);
    }
  }

  /** From the second entry on, each id has moved to the entry before; the last has none. */
  function Shifted(xs: seq<Image>): (r: seq<Image>)
    ensures |r| == |xs|
  {
    if xs == [] then []
    else [xs[0].(id := if |xs| > 1 then xs[1].id else 0)] + Shifted(xs[1..])
  }

  lemma {:induction false} HeldImages(l: seq<Image>, x: Image, xs: seq<Image>)
    ensures Flush(ImagesPile(Pile(l, x.(id := 0), true), xs), NO_IMAGE).list == l + Shifted([x] + xs)
    decreases |xs|
  {
    var all := [x] + xs;
    assert all[1..] == xs;
    if xs == [] {
      assert Shifted(all) == [x.(id := 0)] + Shifted([]);
    } else {
      var first := x.(id := xs[0].id);
      HeldImages(l + [first], xs[0], xs[1..]);
      assert [xs[0]] + xs[1..] == xs;
      assert l + [first] + Shifted(xs) == l + ([first] + Shifted(xs));
    }
  }

  /** What the decoder makes of a manifest. */
  function ReadImages(xs: seq<Image>): seq<Image> {
    if |xs| <= 1 then xs else Shifted(xs)
  }

  lemma {:induction false} ShiftedAt(xs: seq<Image>, i: nat)
    requires i < |xs|
    ensures Shifted(xs)[i] == xs[i].(id := if i + 1 < |xs| then xs[i + 1].id else 0)
    decreases i
  {
    if i > 0 {
      ShiftedAt(xs[1..], i - 1);
    }
  }

  lemma {:induction false} ImagesFlushed(xs: seq<Image>)
    ensures Flush(ImagesPile(Pile([], NO_IMAGE, false), xs), NO_IMAGE).list == ReadImages(xs)
  {
    if |xs| == 1 {
      assert xs == [xs[0]] && xs[1..] == [];
    } else if |xs| > 1 {
      var first := xs[0].(id := xs[1].id);
      assert [] + [first] == [first];
      assert ImagesPile(Pile([], NO_IMAGE, false), xs) == ImagesPile(Pile([], xs[0], true), xs[1..]);
      assert ImagesPile(Pile([], xs[0], true), xs[1..])
          == ImagesPile(Pile([first], xs[1].(id := 0), true), xs[1..][1..]);
      HeldImages([first], xs[1], xs[2..]);
      assert [xs[1]] + xs[2..] == xs[1..] && xs[1..][1..] == xs[2..];
    }
  }

  /** Image `i` has the id its successor would hand it. */
  predicate IdAgrees(xs: seq<Image>, i: nat)
    requires i < |xs|
  {
    xs[i].id == if i + 1 < |xs| then xs[i + 1].id else 0
  }

  lemma {:induction false} IdsVanish(xs: seq<Image>, i: nat)
    requires i < |xs| && forall k :: 0 <= k < |xs| ==> IdAgrees(xs, k)
    ensures xs[i].id == 0
    decreases |xs| - i
  {
    assert IdAgrees(xs, i);
    if i + 1 < |xs| {
      IdsVanish(xs, i + 1);
    }
  }

  lemma {:induction false} ShiftedSame(xs: seq<Image>)
    ensures Shifted(xs) == xs <==> forall k :: 0 <= k < |xs| ==> IdAgrees(xs, k)
  {
    hide Shifted;
    forall k | 0 <= k < |xs| ensures IdAgrees(xs, k) <==> Shifted(xs)[k] == xs[k] {
      ShiftedAt(xs, k);
    }
    if forall k :: 0 <= k < |xs| ==> IdAgrees(xs, k) {
      assert forall k :: 0 <= k < |xs| ==> IdAgrees(xs, k) && Shifted(xs)[k] == xs[k];
    } else {
      var k :| 0 <= k < |xs| && !IdAgrees(xs, k);
      assert Shifted(xs)[k] != xs[k];
    }
  }

  /** A manifest survives exactly when it has at most one image or none has an id. */
  lemma ManifestSurvives(xs: seq<Image>)
    ensures ReadImages(xs) == xs <==> |xs| <= 1 || forall i :: 0 <= i < |xs| ==> xs[i].id == 0
  {
    hide Shifted;
    ShiftedSame(xs);
    if forall k :: 0 <= k < |xs| ==> IdAgrees(xs, k) {
      forall i | 0 <= i < |xs| ensures xs[i].id == 0 {
        IdsVanish(xs, i);
      }
    }
  }

  function MetricsPile(p: Pile<Metric>, ss: seq<SentMetric>): Pile<Metric>
    decreases |ss|
  {
    if ss == [] then p else MetricsPile(AfterMetric(p, ss[0]), ss[1..])
  }

  function AllSent(ss: seq<SentMetric>): seq<Tlv> {
    if ss == [] then [] else SentTlvs(ss[0]) + AllSent(ss[1..])
  }

  lemma {:induction false} MetricsRead(d: Decoding, ss: seq<SentMetric>)
    requires Clean(d.metrics, NO_METRIC)
    ensures Steps(d, AllSent(ss)) == d.(metrics := MetricsPile(d.metrics, ss))
    decreases |ss|
  {
    hide Steps, SentTlvs;
    NoSteps(d);
    if ss != [] {
      MetricRead(d, ss[0]);
      StepsAppend(d, SentTlvs(ss[0]), AllSent(ss[1..]));
      MetricsRead(Steps(d, SentTlvs(ss[0])), ss[1..]);
    }
  }

  /** The id the decoder gives entry `i`. */
  function ReadId(ss: seq<SentMetric>, i: nat): uint16
    requires i < |ss|
  {
    if !ss[i].described && i + 1 < |ss| then ss[i + 1].metric.id
    else if i == 0 || ss[i - 1].described then ss[i].metric.id
    else 0
  }

  /** What the decoder makes of the entries from `i` on. */
  function ReadMetrics(ss: seq<SentMetric>, i: nat): (r: seq<Metric>)
    requires i <= |ss|
    ensures |r| == |ss| - i && forall k :: 0 <= k < |r| ==> r[k] == AsSent(ss[i + k]).(id := ReadId(ss, i + k))
    decreases |ss| - i
  {
    if i == |ss| then [] else [AsSent(ss[i]).(id := ReadId(ss, i))] + ReadMetrics(ss, i + 1)
  }

  /** The current entry when entry `i - 1` was written without a description. */
  function HeldMetric(ss: seq<SentMetric>, i: nat): Metric
    requires 0 < i <= |ss|
  {
    AsSent(ss[i - 1]).(id := if i == 1 || ss[i - 2].described then ss[i - 1].metric.id else 0)
  }

  /** The pile before entry `i`, when `l` are the entries finished so far. */
  function PileAt(ss: seq<SentMetric>, i: nat, l: seq<Metric>): Pile<Metric>
    requires i <= |ss|
  {
    if 0 < i && !ss[i - 1].described then Pile(l, HeldMetric(ss, i), true) else Pile(l, NO_METRIC, false)
  }

  /** The first entry not finished before entry `i`. */
  function Unfinished(ss: seq<SentMetric>, i: nat): (k: nat)
    requires i <= |ss|
    ensures k <= i
  {
    if 0 < i && !ss[i - 1].described then i - 1 else i
  }

  function ReadMetric(ss: seq<SentMetric>, i: nat): Metric
    requires i < |ss|
  {
    AsSent(ss[i]).(id := ReadId(ss, i))
  }

  lemma ReadMetricsFirst(ss: seq<SentMetric>, i: nat, l: seq<Metric>)
    requires i < |ss|
    ensures l + ReadMetrics(ss, i) == l + [ReadMetric(ss, i)] + ReadMetrics(ss, i + 1)
  {
    hide AsSent, ReadId;
    assert l + ([ReadMetric(ss, i)] + ReadMetrics(ss, i + 1)) == l + [ReadMetric(ss, i)] + ReadMetrics(ss, i + 1);
  }

  lemma {:induction false} MetricsFlushedFrom(ss: seq<SentMetric>, i: nat, l: seq<Metric>)
    requires i <= |ss|
    ensures Flush(MetricsPile(PileAt(ss, i, l), ss[i..]), NO_METRIC).list == l + ReadMetrics(ss, Unfinished(ss, i))
    decreases |ss| - i
  {
    hide AsSent, ReadMetric, ReadMetrics, HeldMetric, Flush, AfterMetric, PileAt;
    if i == |ss| {
      assert ss[i..] == [];
      LastMetric(ss, l);
    } else {
      assert ss[i..][0] == ss[i] && ss[i..][1..] == ss[i + 1..];
      NextMetric(ss, i, l);
      var l1 := if Unfinished(ss, i) == i then l else l + [ReadMetric(ss, i - 1)];
      if Unfinished(ss, i) != i {
        ReadMetricsFirst(ss, i - 1, l);
      }
      if ss[i].described {
        ReadMetricsFirst(ss, i, l1);
        MetricsFlushedFrom(ss, i + 1, l1 + [ReadMetric(ss, i)]);
      } else {
        MetricsFlushedFrom(ss, i + 1, l1);
      }
    }
  }

  lemma {:induction false} LastMetric(ss: seq<SentMetric>, l: seq<Metric>)
    ensures Flush(PileAt(ss, |ss|, l), NO_METRIC).list == l + ReadMetrics(ss, Unfinished(ss, |ss|))
  {
    hide AsSent;
    assert ReadMetrics(ss, |ss|) == [] && l + [] == l;
    if Unfinished(ss, |ss|) < |ss| {
      assert ReadMetrics(ss, |ss| - 1) == [ReadMetric(ss, |ss| - 1)];
    }
  }

  lemma NextMetric(ss: seq<SentMetric>, i: nat, l: seq<Metric>)
    requires i < |ss|
    ensures var l1 := if Unfinished(ss, i) == i then l else l + [ReadMetric(ss, i - 1)];
            AfterMetric(PileAt(ss, i, l), ss[i])
                == PileAt(ss, i + 1, if ss[i].described then l1 + [ReadMetric(ss, i)] else l1)
  {
  }

  lemma {:induction false} MetricsFlushed(ss: seq<SentMetric>)
    ensures Flush(MetricsPile(Pile([], NO_METRIC, false), ss), NO_METRIC).list == ReadMetrics(ss, 0)
  {
    hide MetricsPile, ReadMetrics, Flush;
    MetricsFlushedFrom(ss, 0, []);
    assert ss[0..] == ss && [] + ReadMetrics(ss, 0) == ReadMetrics(ss, 0);
  }

  /** Every metric comes back with its own id. */
  ghost predicate IdsKept(ss: seq<SentMetric>) {
    forall i :: 0 <= i < |ss| ==> ReadId(ss, i) == ss[i].metric.id
  }

  /** Entry `i` and its successor have no id to confuse. */
  ghost predicate NoIdsAround(ss: seq<SentMetric>, i: nat)
    requires i < |ss|
  {
    !ss[i].described && i + 1 < |ss| ==> ss[i].metric.id == 0 && ss[i + 1].metric.id == 0
  }

  /**
   Ids survive exactly when every entry but the last is written with its description, or neither it nor its
   successor has an id.
  */
  lemma SchemaSurvives(ss: seq<SentMetric>)
    ensures IdsKept(ss) <==> forall i :: 0 <= i < |ss| ==> NoIdsAround(ss, i)
  {
    if IdsKept(ss) {
      forall i | 0 <= i < |ss| ensures NoIdsAround(ss, i) {
        if !ss[i].described && i + 1 < |ss| {
          UndescribedIdsVanish(ss, i + 1);
          assert ReadId(ss, i) == ss[i].metric.id;
        }
      }
    }
    if forall i :: 0 <= i < |ss| ==> NoIdsAround(ss, i) {
      forall i | 0 <= i < |ss| ensures ReadId(ss, i) == ss[i].metric.id {
        assert NoIdsAround(ss, i);
        if i > 0 { assert NoIdsAround(ss, i - 1); }
      }
    }
  }

  lemma {:induction false} UndescribedIdsVanish(ss: seq<SentMetric>, i: nat)
    requires IdsKept(ss) && 0 < i < |ss| && !ss[i - 1].described
    ensures ss[i].metric.id == 0
    decreases |ss| - i
  {
    assert ReadId(ss, i) == ss[i].metric.id;
    if !ss[i].described && i + 1 < |ss| {
      UndescribedIdsVanish(ss, i + 1);
    }
  }

  // ---------------------------------------------------------------- what the encoder wrote of a schema

  predicate HasRange(x: Metric) {
    !(IsZero(x.min) && IsZero(x.max))
  }

  /** The metric with the parts that found room after `size` bytes. */
  function Sent(size: nat, x: Metric, reserve: nat): SentMetric {
    var base := size + Size(MetricBase(x));
    var ranged := HasRange(x) && CanFit(base, Size(RangeTlvs(x)), reserve);
    var size1 := base + (if ranged then Size(RangeTlvs(x)) else 0);
    SentMetric(x, ranged, x.description != [] && CanFit(size1, Size([Utf8Of(0x44, x.description)]), reserve))
  }

  function SentOf(size: nat, xs: seq<Metric>, reserve: nat): seq<SentMetric>
    decreases |xs|
  {
    if xs == [] || !CanFit(size, Size(MetricBase(xs[0])), reserve) then []
    else
      var s := Sent(size, xs[0], reserve);
      [s] + SentOf(size + Size(SentTlvs(s)), xs[1..], reserve)
  }

  lemma {:induction false} OptionOne(size: nat, o: seq<Tlv>, reserve: nat)
    ensures EmitOptions(size, [o], reserve) == if CanFit(size, Size(o), reserve) then (o, false) else ([], true)
  {
    hide Size;
    assert [o][1..] == [];
    assert EmitOptions(size, [o][1..], reserve) == ([], false)
        && EmitOptions(size + Size(o), [o][1..], reserve) == ([], false);
    assert o + [] == o;
  }

  lemma OptionTwo(size: nat, o: seq<Tlv>, u: seq<Tlv>, reserve: nat)
    ensures EmitOptions(size, [o, u], reserve)
         == if CanFit(size, Size(o), reserve) then
              var r := EmitOptions(size + Size(o), [u], reserve);
              (o + r.0, r.1)
            else (EmitOptions(size, [u], reserve).0, true)
  {
    hide Size, CanFit;
    assert [o, u][1..] == [u];
  }

  lemma {:induction false} OptionsSent(size: nat, x: Metric, reserve: nat)
    ensures var s := Sent(size, x, reserve);
            var e := EmitOptions(size + Size(MetricBase(x)), MetricBlock(x).options, reserve);
            && e.0 == (if s.ranged then RangeTlvs(x) else [])
                 + (if s.described then [Utf8Of(0x44, x.description)] else [])
            && (e.1 <==> s.ranged != HasRange(x) || s.described != (x.description != []))
  {
    hide EmitOptions, Size, CanFit, MetricBase, RangeTlvs, Utf8Of, IsZero;
    var base := size + Size(MetricBase(x));
    var o, u := RangeTlvs(x), [Utf8Of(0x44, x.description)];
    OptionOne(base, o, reserve);
    OptionOne(base, u, reserve);
    OptionOne(base + Size(o), u, reserve);
    OptionTwo(base, o, u, reserve);
    NoOptions(base, reserve);
    assert [] + [o] == [o] && [o] + [] == [o] && [o] + [u] == [o, u] && [] + [u] == [u];
    assert o + [] == o && [] + u == u;
  }

  lemma {:induction false} NoOptions(size: nat, reserve: nat)
    ensures EmitOptions(size, [], reserve) == ([], false)
  {
  }

  lemma FirstSent(size: nat, xs: seq<Metric>, reserve: nat)
    requires xs != [] && CanFit(size, Size(MetricBase(xs[0])), reserve)
    ensures var s := Sent(size, xs[0], reserve);
            var e, rest := EmitBlocks(size, MetricBlocks(xs), reserve),
                EmitBlocks(size + Size(SentTlvs(s)), MetricBlocks(xs[1..]), reserve);
            && e.tlvs == SentTlvs(s) + rest.tlvs && e.count == 1 + rest.count && s.metric == xs[0]
            && (!e.truncated ==> !rest.truncated && s == SentMetric(xs[0], HasRange(xs[0]), xs[0].description != []))
  {
    hide EmitOptions, Size, CanFit, MetricBase, RangeTlvs, Utf8Of, Sent, HasRange;
    assert MetricBlocks(xs)[1..] == MetricBlocks(xs[1..]);
    OptionsSent(size, xs[0], reserve);
    SentKeeps(size, xs[0], reserve);
  }

  /** The entries as written carry the metrics in order. */
  ghost predicate Carries(ss: seq<SentMetric>, xs: seq<Metric>) {
    |ss| <= |xs| && forall i :: 0 <= i < |ss| ==> ss[i].metric == xs[i]
  }

  /** Nothing was left out. */
  ghost predicate Complete(ss: seq<SentMetric>, xs: seq<Metric>) {
    |ss| == |xs| && forall i :: 0 <= i < |ss| ==> ss[i] == SentMetric(xs[i], HasRange(xs[i]), xs[i].description != [])
  }

  lemma OneMoreSent(s: SentMetric, ss: seq<SentMetric>, xs: seq<Metric>)
    requires xs != [] && Carries(ss, xs[1..]) && s.metric == xs[0]
    ensures Carries([s] + ss, xs)
    ensures Complete(ss, xs[1..]) && s == SentMetric(xs[0], HasRange(xs[0]), xs[0].description != []) ==>
        Complete([s] + ss, xs)
  {
    hide HasRange;
  }

  /** The schema's entries as written, and whether any part was left out. */
  lemma {:induction false} MetricsSent(size: nat, xs: seq<Metric>, reserve: nat)
    ensures var e, ss := EmitBlocks(size, MetricBlocks(xs), reserve), SentOf(size, xs, reserve);
            e.tlvs == AllSent(ss) && e.count == |ss| && Carries(ss, xs) && (!e.truncated ==> Complete(ss, xs))
    decreases |xs|
  {
    hide EmitOne, Size, CanFit, MetricBase, Sent, HasRange, SentTlvs, Carries, Complete;
    if xs == [] || !CanFit(size, Size(MetricBase(xs[0])), reserve) {
      NothingSent(xs);
    } else {
      var s := Sent(size, xs[0], reserve);
      FirstSent(size, xs, reserve);
      hide EmitBlocks;
      var ss := SentOf(size + Size(SentTlvs(s)), xs[1..], reserve);
      MetricsSent(size + Size(SentTlvs(s)), xs[1..], reserve);
      OneMoreSent(s, ss, xs);
      assert ([s] + ss)[1..] == ss;
    }
  }

  lemma NothingSent(xs: seq<Metric>)
    ensures Carries([], xs) && (xs == [] ==> Complete([], xs))
  {
  }

  lemma SentKeeps(size: nat, x: Metric, reserve: nat)
    ensures Sent(size, x, reserve).metric == x
  {
  }
}
