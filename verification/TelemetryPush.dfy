/**
 The telemetry push command: a stream configuration in which each metric is written as its difference from
 the stream's defaults, and a parser that rebuilds the defaults as it goes.
*/
module TelemetryPush {
  import opened FixedWidth
  import opened LittleEndian
  import opened Options
  import opened Tlv

  const PERIODIC: byte := 1
  const ON_CHANGE: byte := 2
  const HYBRID: byte := 3

  const START: byte := 1
  const UPDATE: byte := 2
  const PAUSE: byte := 3
  const RESUME: byte := 4
  const STOP: byte := 5
  const GET: byte := 6

  const TAG_SCHEMA: byte := 0x01
  const TAG_MAGIC: byte := 0x02
  const TAG_ACTION: byte := 0x10
  const TAG_MODE: byte := 0x11
  const TAG_INTERVAL: byte := 0x12
  const TAG_MIN_GAP: byte := 0x13
  const TAG_STREAM: byte := 0x14
  const TAG_METRIC_KEY: byte := 0x20
  const TAG_METRIC_DELTA: byte := 0x21
  const TAG_METRIC_ENABLE: byte := 0x22
  const TAG_METRIC_MODE: byte := 0x23
  const TAG_METRIC_INTERVAL: byte := 0x24
  const TAG_METRIC_MIN_GAP: byte := 0x25
  const TAG_METRIC_INDEX: byte := 0x26
  const MAGIC_WORD: uint16 := 0x5450

  predicate ValidMode(m: byte) { m == PERIODIC || m == ON_CHANGE || m == HYBRID }
  predicate ValidAction(a: byte) { START <= a <= GET }
  predicate Streams(a: byte) { a == START || a == UPDATE }

  /** A float as its four bytes. */
  type Float32 = f: seq<byte> | |f| == 4 witness [0, 0, 0, 0]

  const ZERO: Float32 := [0, 0, 0, 0]

  datatype Metric = Metric(
    key: seq<byte>,
    hasIndex: bool,
    index: uint16,
    enabled: bool,
    mode: byte,
    interval: uint32,
    minGap: uint32,
    useThreshold: bool,
    delta: Float32)

  /** What a metric inherits. */
  datatype Defaults = Defaults(mode: byte, interval: uint32, minGap: uint32)

  datatype Config = Config(streamId: uint16, enabled: bool, defaults: Defaults, metrics: seq<Metric>)

  datatype Command = Command(action: byte, config: Config)

  const FRESH_CONFIG := Config(1, true, Defaults(HYBRID, 1000, 200), [])

  predicate OneIdentity(m: Metric) {
    (m.key != []) != m.hasIndex
  }

  predicate ValidMetric(m: Metric) {
    OneIdentity(m) && ValidMode(m.mode)
  }

  // ---------------------------------------------------------------- encoding

  function IdentityTlv(m: Metric): Tlv {
    if m.key != [] then Utf8Of(TAG_METRIC_KEY, m.key) else U16Of(TAG_METRIC_INDEX, m.index)
  }

  /** A tag that is written only under a condition. */
  datatype Change = Change(on: bool, t: Tlv)

  /** How a metric may differ from the stream's defaults, in the order the differences are written. */
  function Changes(m: Metric, d: Defaults): seq<Change> {
    [Change(!m.enabled, U8Of(TAG_METRIC_ENABLE, 0))]
      + ([Change(m.mode != d.mode, U8Of(TAG_METRIC_MODE, m.mode))]
      + ([Change(m.interval != 0 && m.interval != d.interval, U32Of(TAG_METRIC_INTERVAL, m.interval))]
      + ([Change(m.minGap != 0 && m.minGap != d.minGap, U32Of(TAG_METRIC_MIN_GAP, m.minGap))]
      + ([Change(m.useThreshold && m.mode != PERIODIC, Tlv(TAG_METRIC_DELTA, F32, m.delta))] + []))))
  }

  function Written(cs: seq<Change>): (ts: seq<Tlv>)
    ensures (forall i :: 0 <= i < |cs| ==> Fits(cs[i].t)) ==> AllFit(ts)
  {
    if cs == [] then [] else (if cs[0].on then [cs[0].t] else []) + Written(cs[1..])
  }

  function ChangeTlvs(m: Metric, d: Defaults): seq<Tlv> {
    Written(Changes(m, d))
  }

  lemma ChangesFit(m: Metric, d: Defaults)
    ensures AllFit(ChangeTlvs(m, d))
  {
  }

  function MetricsTlvs(ms: seq<Metric>, d: Defaults): Option<seq<Tlv>> {
    if ms == [] then Some([])
    else if !ValidMetric(ms[0]) || |ms[0].key| > MAX_VALUE then None
    else
      match MetricsTlvs(ms[1..], d)
      case None => None
      case Some(rest) => Some([IdentityTlv(ms[0])] + ChangeTlvs(ms[0], d) + rest)
  }

  function HeadTlvs(action: byte): (ts: seq<Tlv>)
    ensures AllFit(ts)
  {
    [U8Of(TAG_SCHEMA, 1), U16Of(TAG_MAGIC, MAGIC_WORD), U8Of(TAG_ACTION, action)]
  }

  function StreamTlvs(c: Config): (ts: seq<Tlv>)
    ensures AllFit(ts)
  {
    [U16Of(TAG_STREAM, c.streamId), U8Of(TAG_MODE, c.defaults.mode), U32Of(TAG_INTERVAL, c.defaults.interval),
     U32Of(TAG_MIN_GAP, c.defaults.minGap)]
  }

  function EncodeTlvs(cmd: Command): Option<seq<Tlv>> {
    if !ValidAction(cmd.action) || !ValidMode(cmd.config.defaults.mode) then None
    else if !Streams(cmd.action) then Some(HeadTlvs(cmd.action))
    else
      match MetricsTlvs(cmd.config.metrics, cmd.config.defaults)
      case None => None
      case Some(ts) => Some(HeadTlvs(cmd.action) + StreamTlvs(cmd.config) + ts)
  }

  lemma {:induction false} MetricsFit(ms: seq<Metric>, d: Defaults)
    ensures MetricsTlvs(ms, d).Some? ==> AllFit(MetricsTlvs(ms, d).value)
    decreases |ms|
  {
    hide ChangeTlvs;
    if ms != [] {
      ChangesFit(ms[0], d);
      MetricsFit(ms[1..], d);
    }
  }

  lemma EncodeFits(cmd: Command)
    ensures EncodeTlvs(cmd).Some? ==> AllFit(EncodeTlvs(cmd).value)
  {
    hide MetricsTlvs, HeadTlvs, StreamTlvs;
    MetricsFit(cmd.config.metrics, cmd.config.defaults);
  }

  function Encode(cmd: Command): Option<seq<byte>> {
    match EncodeTlvs(cmd)
    case None => None
    case Some(ts) => EncodeFits(cmd); Some(AllBytes(ts))
  }

  // ---------------------------------------------------------------- parsing

  datatype Parsing = Parsing(magic: bool, hasAction: bool, action: byte, config: Config)

  const FRESH := Parsing(false, false, GET, FRESH_CONFIG)

  function NewMetric(key: seq<byte>, hasIndex: bool, index: uint16, d: Defaults): Metric {
    Metric(key, hasIndex, index, true, d.mode, d.interval, d.minGap, d.mode != PERIODIC, ZERO)
  }

  function AddMetric(p: Parsing, m: Metric): Parsing {
    p.(config := p.config.(metrics := p.config.metrics + [m]))
  }

  predicate ShapedU8(t: Tlv) { t.kind == U8 && |t.value| == 1 }
  predicate ShapedU32(t: Tlv) { t.kind == U32_KIND && |t.value| == 4 }
  predicate ShapedU16(t: Tlv) { t.kind == U16_KIND && |t.value| == 2 }

  function ReadU32(v: seq<byte>): uint32
    requires |v| == 4
  {
    U32(v[0], v[1], v[2], v[3])
  }

  /** The tags that change the metric last announced. */
  function OnMetric(m: Metric, t: Tlv): Metric
    requires ChangesMetric(t)
  {
    if t.tag == TAG_METRIC_ENABLE then m.(enabled := t.value[0] != 0)
    else if t.tag == TAG_METRIC_MODE then
      m.(mode := t.value[0], useThreshold := t.value[0] != PERIODIC,
         delta := if t.value[0] != PERIODIC then m.delta else ZERO)
    else if t.tag == TAG_METRIC_INTERVAL then m.(interval := ReadU32(t.value))
    else if t.tag == TAG_METRIC_MIN_GAP then m.(minGap := ReadU32(t.value))
    else m.(useThreshold := true, delta := t.value)
  }

  predicate ChangesMetric(t: Tlv) {
    || ((t.tag == TAG_METRIC_ENABLE || t.tag == TAG_METRIC_MODE) && ShapedU8(t))
    || ((t.tag == TAG_METRIC_INTERVAL || t.tag == TAG_METRIC_MIN_GAP) && ShapedU32(t))
    || (t.tag == TAG_METRIC_DELTA && t.kind == F32 && |t.value| == 4)
  }

  predicate AnnouncesMetric(t: Tlv) {
    (t.tag == TAG_METRIC_KEY && t.kind == UTF8) || (t.tag == TAG_METRIC_INDEX && ShapedU16(t))
  }

  function Announced(t: Tlv, d: Defaults): Metric
    requires AnnouncesMetric(t)
  {
    if t.tag == TAG_METRIC_KEY then NewMetric(t.value, false, 0, d)
    else NewMetric([], true, U16(t.value[0], t.value[1]), d)
  }

  predicate SetsStream(t: Tlv) {
    || (t.tag == TAG_STREAM && ShapedU16(t))
    || (t.tag == TAG_MODE && ShapedU8(t))
    || ((t.tag == TAG_INTERVAL || t.tag == TAG_MIN_GAP) && ShapedU32(t))
  }

  function OnStream(c: Config, t: Tlv): Config
    requires SetsStream(t)
  {
    if t.tag == TAG_STREAM then c.(streamId := U16(t.value[0], t.value[1]))
    else if t.tag == TAG_MODE then c.(defaults := c.defaults.(mode := t.value[0]))
    else if t.tag == TAG_INTERVAL then c.(defaults := c.defaults.(interval := ReadU32(t.value)))
    else c.(defaults := c.defaults.(minGap := ReadU32(t.value)))
  }

  predicate IsMagic(t: Tlv) { t.tag == TAG_MAGIC && t.kind == U16_KIND }
  predicate IsAction(t: Tlv) { t.tag == TAG_ACTION && ShapedU8(t) }

  function ChangeLast(ms: seq<Metric>, t: Tlv): seq<Metric>
    requires ms != [] && ChangesMetric(t)
  {
    ms[..|ms| - 1] + [OnMetric(ms[|ms| - 1], t)]
  }

  function Step(p: Parsing, t: Tlv): Option<Parsing> {
    if IsMagic(t) then
      if |t.value| == 2 && U16(t.value[0], t.value[1]) == MAGIC_WORD then Some(p.(magic := true)) else None
    else if IsAction(t) then Some(p.(action := t.value[0], hasAction := true))
    else if SetsStream(t) then Some(p.(config := OnStream(p.config, t)))
    else if AnnouncesMetric(t) then Some(AddMetric(p, Announced(t, p.config.defaults)))
    else if ChangesMetric(t) then
      if p.config.metrics == [] then None
      else Some(p.(config := p.config.(metrics := ChangeLast(p.config.metrics, t))))
    else Some(p)
  }

  function Steps(p: Parsing, ts: seq<Tlv>): Option<Parsing>
    decreases |ts|
  {
    if ts == [] then Some(p)
    else match Step(p, ts[0]) case None => None case Some(q) => Steps(q, ts[1..])
  }

  predicate AllValid(ms: seq<Metric>) {
    forall i :: 0 <= i < |ms| ==> ValidMetric(ms[i])
  }

  predicate Accepted(p: Parsing) {
    && p.magic && p.hasAction && ValidAction(p.action)
    && (Streams(p.action) ==> ValidMode(p.config.defaults.mode) && p.config.metrics != [] && AllValid(p.config.metrics))
  }

  function Finish(p: Parsing): Option<Command> {
    if Accepted(p) then Some(Command(p.action, p.config)) else None
  }

  function Parse(b: seq<byte>): Option<Command> {
    if |b| < 12 then None
    else
      match Scan(b)
      case None => None
      case Some(ts) => match Steps(FRESH, ts) case None => None case Some(p) => Finish(p)
  }

  // ---------------------------------------------------------------- what survives

  function NormalMetric(m: Metric, d: Defaults): Metric {
    Metric(m.key, m.hasIndex, if m.hasIndex then m.index else 0, m.enabled, m.mode,
           if m.interval == 0 then d.interval else m.interval,
           if m.minGap == 0 then d.minGap else m.minGap,
           m.mode != PERIODIC,
           if m.useThreshold && m.mode != PERIODIC then m.delta else ZERO)
  }

  function NormalMetrics(ms: seq<Metric>, d: Defaults): (r: seq<Metric>)
    ensures |r| == |ms| && forall i :: 0 <= i < |ms| ==> r[i] == NormalMetric(ms[i], d)
  {
    if ms == [] then [] else [NormalMetric(ms[0], d)] + NormalMetrics(ms[1..], d)
  }

  /** Commands that only name an action lose their configuration; zero periods become the stream's. */
  function Normal(cmd: Command): Command {
    if Streams(cmd.action) then
      Command(cmd.action, cmd.config.(enabled := true,
                                      metrics := NormalMetrics(cmd.config.metrics, cmd.config.defaults)))
    else Command(cmd.action, FRESH_CONFIG)
  }

  // ---------------------------------------------------------------- round trip

  lemma {:induction false} StepsAppend(p: Parsing, a: seq<Tlv>, b: seq<Tlv>)
    ensures Steps(p, a + b) == match Steps(p, a) case None => None case Some(q) => Steps(q, b)
    decreases |a|
  {
    hide Step;
    if a == [] {
      assert a + b == b;
    } else {
      assert (a + b)[0] == a[0] && (a + b)[1..] == a[1..] + b;
      if Step(p, a[0]).Some? {
        StepsAppend(Step(p, a[0]).value, a[1..], b);
      }
    }
  }

  lemma {:induction false} OneStep(p: Parsing, t: Tlv)
    ensures Steps(p, [t]) == Step(p, t)
  {
    hide Step;
    assert [t][1..] == [];
  }

  lemma {:induction false} NoStep(p: Parsing)
    ensures Steps(p, []) == Some(p)
  {
  }

  lemma HeadSteps(action: byte)
    ensures Steps(FRESH, HeadTlvs(action)) == Some(FRESH.(magic := true, action := action, hasAction := true))
  {
    hide Steps;
    var ts := HeadTlvs(action);
    assert ts == [ts[0]] + ([ts[1]] + [ts[2]]);
    var p1 := FRESH.(magic := true);
    U16RoundTrip(MAGIC_WORD);
    StepsAppend(FRESH, [ts[0]], [ts[1]] + [ts[2]]);
    StepsAppend(FRESH, [ts[1]], [ts[2]]);
    OneStep(FRESH, ts[0]);
    OneStep(FRESH, ts[1]);
    OneStep(p1, ts[2]);
  }

  lemma StreamStep(p: Parsing, t: Tlv)
    requires SetsStream(t)
    ensures Step(p, t) == Some(p.(config := OnStream(p.config, t)))
  {
    hide OnStream;
  }

  lemma {:induction false} StreamSteps(p: Parsing, c: Config)
    ensures Steps(p, StreamTlvs(c)) == Some(p.(config := p.config.(streamId := c.streamId, defaults := c.defaults)))
  {
    hide Steps, Step;
    var ts := StreamTlvs(c);
    assert ts == [ts[0]] + ([ts[1]] + ([ts[2]] + [ts[3]]));
    U16RoundTrip(c.streamId);
    U32RoundTrip(c.defaults.interval);
    U32RoundTrip(c.defaults.minGap);
    var p1 := p.(config := OnStream(p.config, ts[0]));
    var p2 := p1.(config := OnStream(p1.config, ts[1]));
    var p3 := p2.(config := OnStream(p2.config, ts[2]));
    StepsAppend(p, [ts[0]], [ts[1]] + ([ts[2]] + [ts[3]]));
    StepsAppend(p1, [ts[1]], [ts[2]] + [ts[3]]);
    StepsAppend(p2, [ts[2]], [ts[3]]);
    OneStep(p, ts[0]);
    OneStep(p1, ts[1]);
    OneStep(p2, ts[2]);
    OneStep(p3, ts[3]);
    StreamStep(p, ts[0]);
    StreamStep(p1, ts[1]);
    StreamStep(p2, ts[2]);
    StreamStep(p3, ts[3]);
  }

  /** One tag that changes the last metric, when present. */
  lemma {:induction false} ChangeStep(p: Parsing, ms: seq<Metric>, m: Metric, t: Tlv)
    requires ChangesMetric(t) && p.config.metrics == ms + [m]
    ensures Steps(p, [t]) == Some(p.(config := p.config.(metrics := ms + [OnMetric(m, t)])))
  {
    hide OnMetric, Steps;
    OneStep(p, t);
    assert (ms + [m])[..|ms|] == ms;
  }

  predicate AllChange(cs: seq<Change>) {
    forall i :: 0 <= i < |cs| ==> ChangesMetric(cs[i].t)
  }

  function Apply(m: Metric, c: Change): Metric
    requires ChangesMetric(c.t)
  {
    if c.on then OnMetric(m, c.t) else m
  }

  function ApplyAll(m: Metric, cs: seq<Change>): Metric
    requires AllChange(cs)
    decreases |cs|
  {
    if cs == [] then m else ApplyAll(Apply(m, cs[0]), cs[1..])
  }

  lemma {:induction false} ChangesApply(p: Parsing, ms: seq<Metric>, m: Metric, cs: seq<Change>)
    requires AllChange(cs) && p.config.metrics == ms + [m]
    ensures Steps(p, Written(cs)) == Some(p.(config := p.config.(metrics := ms + [ApplyAll(m, cs)])))
    decreases |cs|
  {
    hide OnMetric, ChangesMetric, Step, AllChange;
    if cs != [] {
      FirstChange(cs);
      var rest := Written(cs[1..]);
      var p' := p.(config := p.config.(metrics := ms + [Apply(m, cs[0])]));
      if cs[0].on {
        ChangeStep(p, ms, m, cs[0].t);
        StepsAppend(p, [cs[0].t], rest);
      } else {
        assert [] + rest == rest;
      }
      ChangesApply(p', ms, Apply(m, cs[0]), cs[1..]);
    }
  }

  lemma FirstChange(cs: seq<Change>)
    requires AllChange(cs) && cs != []
    ensures ChangesMetric(cs[0].t) && AllChange(cs[1..])
  {
  }

  lemma {:induction false} ApplyFirst(m: Metric, c: Change, rest: seq<Change>)
    requires ChangesMetric(c.t) && AllChange(rest)
    ensures AllChange([c] + rest) && ApplyAll(m, [c] + rest) == ApplyAll(Apply(m, c), rest)
  {
    hide OnMetric, ChangesMetric, Apply;
    assert ([c] + rest)[1..] == rest;
  }

  lemma {:induction false} ApplyNone(m: Metric)
    ensures AllChange([]) && ApplyAll(m, []) == m
  {
  }

  /** The five changes, one after the other. */
  lemma {:induction false} ApplyFive(m: Metric, a: Change, b: Change, c: Change, d: Change, e: Change)
    requires ChangesMetric(a.t) && ChangesMetric(b.t) && ChangesMetric(c.t) && ChangesMetric(d.t) && ChangesMetric(e.t)
    ensures AllChange([a] + ([b] + ([c] + ([d] + ([e] + [])))))
    ensures ApplyAll(m, [a] + ([b] + ([c] + ([d] + ([e] + [])))))
         == Apply(Apply(Apply(Apply(Apply(m, a), b), c), d), e)
  {
    hide Apply, ApplyAll, AllChange, ChangesMetric;
    var m1 := Apply(m, a);
    var m2 := Apply(m1, b);
    var m3 := Apply(m2, c);
    var m4 := Apply(m3, d);
    ApplyNone(Apply(m4, e));
    ApplyFirst(m4, e, []);
    ApplyFirst(m3, d, [e] + []);
    ApplyFirst(m2, c, [d] + ([e] + []));
    ApplyFirst(m1, b, [c] + ([d] + ([e] + [])));
    ApplyFirst(m, a, [b] + ([c] + ([d] + ([e] + []))));
  }

  lemma FiveRebuild(m: Metric, d: Defaults)
    requires ValidMetric(m)
    ensures var m0 := NewMetric(m.key, m.hasIndex, if m.hasIndex then m.index else 0, d);
            var m1 := Apply(m0, Change(!m.enabled, U8Of(TAG_METRIC_ENABLE, 0)));
            var m2 := Apply(m1, Change(m.mode != d.mode, U8Of(TAG_METRIC_MODE, m.mode)));
            var m3 := Apply(m2, Change(m.interval != 0 && m.interval != d.interval,
                                       U32Of(TAG_METRIC_INTERVAL, m.interval)));
            var m4 := Apply(m3, Change(m.minGap != 0 && m.minGap != d.minGap, U32Of(TAG_METRIC_MIN_GAP, m.minGap)));
            Apply(m4, Change(m.useThreshold && m.mode != PERIODIC, Tlv(TAG_METRIC_DELTA, F32, m.delta)))
                == NormalMetric(m, d)
  {
    hide U32, U32Bytes;
    U32RoundTrip(m.interval);
    U32RoundTrip(m.minGap);
  }

  /** The changes rebuild the metric from the defaults it was announced with. */
  lemma ChangesRebuild(m: Metric, d: Defaults)
    requires ValidMetric(m)
    ensures AllChange(Changes(m, d))
    ensures ApplyAll(NewMetric(m.key, m.hasIndex, if m.hasIndex then m.index else 0, d), Changes(m, d))
        == NormalMetric(m, d)
  {
    hide U32Bytes, ApplyAll, AllChange, Apply, NormalMetric, NewMetric, ValidMetric;
    FiveRebuild(m, d);
    ApplyFive(NewMetric(m.key, m.hasIndex, if m.hasIndex then m.index else 0, d),
              Change(!m.enabled, U8Of(TAG_METRIC_ENABLE, 0)),
              Change(m.mode != d.mode, U8Of(TAG_METRIC_MODE, m.mode)),
              Change(m.interval != 0 && m.interval != d.interval, U32Of(TAG_METRIC_INTERVAL, m.interval)),
              Change(m.minGap != 0 && m.minGap != d.minGap, U32Of(TAG_METRIC_MIN_GAP, m.minGap)),
              Change(m.useThreshold && m.mode != PERIODIC, Tlv(TAG_METRIC_DELTA, F32, m.delta)));
  }

  lemma IdentityAnnounces(m: Metric, d: Defaults)
    requires ValidMetric(m)
    ensures AnnouncesMetric(IdentityTlv(m))
    ensures Announced(IdentityTlv(m), d) == NewMetric(m.key, m.hasIndex, if m.hasIndex then m.index else 0, d)
  {
    U16RoundTrip(m.index);
  }

  lemma {:induction false} AnnounceStep(p: Parsing, t: Tlv)
    requires AnnouncesMetric(t)
    ensures Steps(p, [t]) == Some(AddMetric(p, Announced(t, p.config.defaults)))
  {
    hide Announced, Steps;
    OneStep(p, t);
  }

  lemma {:induction false} MetricSteps(p: Parsing, m: Metric)
    requires ValidMetric(m)
    ensures Steps(p, [IdentityTlv(m)] + ChangeTlvs(m, p.config.defaults))
         == Some(AddMetric(p, NormalMetric(m, p.config.defaults)))
  {
    hide Steps, OnMetric, Changes, Written, ApplyAll, AllChange, NormalMetric, Announced, IdentityTlv, NewMetric,
      ValidMetric, AnnouncesMetric;
    var d, ms := p.config.defaults, p.config.metrics;
    IdentityAnnounces(m, d);
    ChangesRebuild(m, d);
    var m0 := NewMetric(m.key, m.hasIndex, if m.hasIndex then m.index else 0, d);
    AnnounceStep(p, IdentityTlv(m));
    StepsAppend(p, [IdentityTlv(m)], ChangeTlvs(m, d));
    ChangesApply(AddMetric(p, m0), ms, m0, Changes(m, d));
  }

  lemma {:induction false} MetricsSteps(p: Parsing, ms: seq<Metric>)
    requires MetricsTlvs(ms, p.config.defaults).Some?
    ensures Steps(p, MetricsTlvs(ms, p.config.defaults).value)
         == Some(p.(config := p.config.(metrics := p.config.metrics + NormalMetrics(ms, p.config.defaults))))
    decreases |ms|
  {
    hide ChangeTlvs, IdentityTlv, NormalMetric, Step, ValidMetric;
    var d := p.config.defaults;
    if ms == [] {
      assert p.config.metrics + [] == p.config.metrics;
    } else {
      var one := [IdentityTlv(ms[0])] + ChangeTlvs(ms[0], d);
      var rest := MetricsTlvs(ms[1..], d).value;
      assert MetricsTlvs(ms, d).value == one + rest;
      MetricSteps(p, ms[0]);
      StepsAppend(p, one, rest);
      MetricsSteps(AddMetric(p, NormalMetric(ms[0], d)), ms[1..]);
      Appended(p.config.metrics, NormalMetric(ms[0], d), NormalMetrics(ms[1..], d));
    }
  }

  lemma Appended(a: seq<Metric>, m: Metric, b: seq<Metric>)
    ensures a + [m] + b == a + ([m] + b)
  {
  }

  lemma EncodedSteps(cmd: Command)
    requires EncodeTlvs(cmd).Some?
    ensures Steps(FRESH, EncodeTlvs(cmd).value) == Some(Parsing(true, true, cmd.action, Normal(cmd).config))
  {
    hide Steps, MetricsTlvs, HeadTlvs, StreamTlvs, NormalMetrics, ValidAction, ValidMode;
    HeadSteps(cmd.action);
    if Streams(cmd.action) {
      var p1 := FRESH.(magic := true, action := cmd.action, hasAction := true);
      var p2 := p1.(config := p1.config.(streamId := cmd.config.streamId, defaults := cmd.config.defaults));
      var ms := MetricsTlvs(cmd.config.metrics, cmd.config.defaults).value;
      StreamSteps(p1, cmd.config);
      MetricsSteps(p2, cmd.config.metrics);
      StepsAppend(FRESH, HeadTlvs(cmd.action) + StreamTlvs(cmd.config), ms);
      StepsAppend(FRESH, HeadTlvs(cmd.action), StreamTlvs(cmd.config));
      assert [] + NormalMetrics(cmd.config.metrics, cmd.config.defaults)
          == NormalMetrics(cmd.config.metrics, cmd.config.defaults);
    }
  }

  lemma {:induction false} EncodedMetricsValid(ms: seq<Metric>, d: Defaults)
    ensures MetricsTlvs(ms, d).Some? <==> AllValid(ms) && forall i :: 0 <= i < |ms| ==> |ms[i].key| <= MAX_VALUE
    decreases |ms|
  {
    hide ChangeTlvs, IdentityTlv, ValidMetric;
    if ms != [] {
      EncodedMetricsValid(ms[1..], d);
      assert forall i :: 0 < i < |ms| ==> ms[i] == ms[1..][i - 1];
      assert forall i :: 0 <= i < |ms| - 1 ==> ms[1..][i] == ms[i + 1];
    }
  }

  /** The encoder refuses exactly unknown actions and modes, and metrics without one identity or with a huge key. */
  lemma EncodesExactly(cmd: Command)
    ensures Encode(cmd).Some? <==>
      && ValidAction(cmd.action) && ValidMode(cmd.config.defaults.mode)
      && (Streams(cmd.action) ==> AllValid(cmd.config.metrics)
                                  && forall i :: 0 <= i < |cmd.config.metrics| ==>
                                       |cmd.config.metrics[i].key| <= MAX_VALUE)
  {
    hide MetricsTlvs, AllBytes, AllValid, ValidAction, ValidMode;
    EncodedMetricsValid(cmd.config.metrics, cmd.config.defaults);
  }

  lemma {:induction false} NormalStaysValid(ms: seq<Metric>, d: Defaults)
    ensures AllValid(ms) <==> AllValid(NormalMetrics(ms, d))
  {
    var r := NormalMetrics(ms, d);
    hide ValidMetric, NormalMetric, NormalMetrics;
    forall i | 0 <= i < |ms| ensures ValidMetric(ms[i]) <==> ValidMetric(r[i]) {
      NormalKeepsValid(ms[i], d);
    }
  }

  lemma NormalKeepsValid(m: Metric, d: Defaults)
    ensures ValidMetric(m) <==> ValidMetric(NormalMetric(m, d))
  {
  }

  lemma EncodedLength(cmd: Command)
    requires EncodeTlvs(cmd).Some?
    ensures AllFit(EncodeTlvs(cmd).value) && |AllBytes(EncodeTlvs(cmd).value)| >= 12
  {
    hide MetricsTlvs, StreamTlvs, AllBytes, ValidAction, ValidMode;
    EncodeFits(cmd);
    AllBytesLength(EncodeTlvs(cmd).value);
  }

  /**
   Parsing an encoded command gives its normal form; only a stream command without metrics is encoded but
   then refused.
  */
  lemma ParseEncoded(cmd: Command)
    requires Encode(cmd).Some?
    ensures Parse(Encode(cmd).value)
         == if Streams(cmd.action) && cmd.config.metrics == [] then None else Some(Normal(cmd))
  {
    hide Steps, MetricsTlvs, HeadTlvs, StreamTlvs, AllBytes, Scan, AllValid, NormalMetrics, ValidMode, ValidAction,
      EncodeTlvs;
    var ts := EncodeTlvs(cmd).value;
    EncodedLength(cmd);
    ScanInverts(ts, []);
    assert AllBytes(ts) + [] == AllBytes(ts);
    EncodedSteps(cmd);
    EncodesExactly(cmd);
    NormalStaysValid(cmd.config.metrics, cmd.config.defaults);
    NormalLength(cmd.config.metrics, cmd.config.defaults);
  }

  lemma {:induction false} NormalLength(ms: seq<Metric>, d: Defaults)
    ensures |NormalMetrics(ms, d)| == |ms|
  {
  }

  /** The normal form is a fixed point. */
  lemma NormalTwice(cmd: Command)
    ensures Normal(Normal(cmd)) == Normal(cmd)
  {
    if Streams(cmd.action) {
      var d, ms := cmd.config.defaults, cmd.config.metrics;
      var once := NormalMetrics(ms, d);
      var twice := NormalMetrics(once, d);
      forall i | 0 <= i < |ms| ensures twice[i] == once[i] {
        assert once[i] == NormalMetric(ms[i], d);
      }
      assert twice == once;
    }
  }

  /** An unknown tag, or a known one of another shape, changes nothing wherever it is inserted. */
  predicate Ignored(t: Tlv) {
    !IsMagic(t) && !IsAction(t) && !SetsStream(t) && !AnnouncesMetric(t) && !ChangesMetric(t)
  }

  lemma {:induction false} IgnoredStep(p: Parsing, t: Tlv)
    requires Ignored(t)
    ensures Steps(p, [t]) == Some(p)
  {
    hide Steps;
    OneStep(p, t);
  }

  lemma {:induction false} IgnoredTagsDoNothing(a: seq<Tlv>, t: Tlv, b: seq<Tlv>)
    requires AllFit(a) && Fits(t) && AllFit(b) && Ignored(t)
    requires AllFit(a + b) && AllFit(a + [t] + b) && |AllBytes(a + b)| >= 12
    ensures Parse(AllBytes(a + [t] + b)) == Parse(AllBytes(a + b))
  {
    hide Step, Steps, AllBytes, Scan, Accepted, Ignored;
    ScanInverts(a + b, []);
    ScanInverts(a + [t] + b, []);
    assert AllBytes(a + b) + [] == AllBytes(a + b) && AllBytes(a + [t] + b) + [] == AllBytes(a + [t] + b);
    LongerWith(a, t, b);
    StepsAppend(FRESH, a, b);
    StepsAppend(FRESH, a + [t], b);
    StepsAppend(FRESH, a, [t]);
    if Steps(FRESH, a).Some? {
      IgnoredStep(Steps(FRESH, a).value, t);
    }
  }

  // ---------------------------------------------------------------- the codec over a byte vector

  /** The parse from an offset on, with what has been parsed so far. */
  ghost function ParseRest(p: Parsing, b: seq<byte>, off: nat): Option<Parsing> {
    match ScanFrom(b, off)
    case None => None
    case Some(ts) => Steps(p, ts)
  }

  lemma ParseOn(p: Parsing, b: seq<byte>, off: nat)
    ensures off + 4 > |b| ==> ParseRest(p, b, off) == Some(p)
    ensures off + 4 <= |b| && off + 4 + ValueLength(b, off) > |b| ==> ParseRest(p, b, off) == None
    ensures off + 4 <= |b| && off + 4 + ValueLength(b, off) <= |b| ==>
              var n := ValueLength(b, off);
              var next := Step(p, Tlv(b[off], b[off + 1], b[off + 4..off + 4 + n]));
              ParseRest(p, b, off) == if next.None? then None else ParseRest(next.value, b, off + 4 + n)
  {
    hide Step, ScanFrom, ValueLength;
    ScanStep(b, off);
  }

  method ParseTelemetryPushCommand(b: seq<byte>) returns (r: Option<Command>)
    ensures r == Parse(b)
  {
    hide Step, ScanFrom, Steps, ValueLength, Accepted;
    if |b| < 12 {
      return None;
    }
    var p := FRESH;
    var off: nat := 0;
    while off + 4 <= |b|
      invariant ParseRest(FRESH, b, 0) == ParseRest(p, b, off)
      decreases |b| - off
    {
      ParseOn(p, b, off);
      var n := ValueLength(b, off);
      if off + 4 + n > |b| {
        return None;
      }
      var next := Step(p, Tlv(b[off], b[off + 1], b[off + 4..off + 4 + n]));
      if next.None? {
        return None;
      }
      p := next.value;
      off := off + 4 + n;
    }
    ParseOn(p, b, off);
    return Finish(p);
  }

  /** Appends one metric's identity and its differences. */
  method AppendMetric(out: seq<byte>, m: Metric, d: Defaults) returns (r: seq<byte>)
    requires |m.key| <= MAX_VALUE
    ensures AllFit([IdentityTlv(m)] + ChangeTlvs(m, d))
    ensures r == out + AllBytes([IdentityTlv(m)] + ChangeTlvs(m, d))
  {
    hide Bytes, AllBytes, Written;
    r := out + Bytes(IdentityTlv(m));
    ghost var cs := Changes(m, d);
    ghost var done := [IdentityTlv(m)];
    BytesOfOne(IdentityTlv(m));
    ChangesFit(m, d);
    assert cs == [cs[0], cs[1], cs[2], cs[3], cs[4]];
    r := AppendIf(r, out, done, !m.enabled, U8Of(TAG_METRIC_ENABLE, 0));
    done := done + When(cs[0]);
    r := AppendIf(r, out, done, m.mode != d.mode, U8Of(TAG_METRIC_MODE, m.mode));
    done := done + When(cs[1]);
    r := AppendIf(r, out, done, m.interval != 0 && m.interval != d.interval, U32Of(TAG_METRIC_INTERVAL, m.interval));
    done := done + When(cs[2]);
    r := AppendIf(r, out, done, m.minGap != 0 && m.minGap != d.minGap, U32Of(TAG_METRIC_MIN_GAP, m.minGap));
    done := done + When(cs[3]);
    r := AppendIf(r, out, done, m.useThreshold && m.mode != PERIODIC, Tlv(TAG_METRIC_DELTA, F32, m.delta));
    WrittenFive([IdentityTlv(m)], cs[0], cs[1], cs[2], cs[3], cs[4]);
  }

  function When(c: Change): seq<Tlv> {
    if c.on then [c.t] else []
  }

  lemma WrittenFive(pre: seq<Tlv>, a: Change, b: Change, c: Change, d: Change, e: Change)
    ensures pre + Written([a] + ([b] + ([c] + ([d] + ([e] + [])))))
         == pre + When(a) + When(b) + When(c) + When(d) + When(e)
  {
    hide Written;
    WrittenFirst(a, [b] + ([c] + ([d] + ([e] + []))));
    WrittenFirst(b, [c] + ([d] + ([e] + [])));
    WrittenFirst(c, [d] + ([e] + []));
    WrittenFirst(d, [e] + []);
    WrittenFirst(e, []);
    WrittenNone();
    hide When;
    assert When(e) + [] == When(e);
    assert pre + (When(a) + (When(b) + (When(c) + (When(d) + When(e)))))
        == pre + When(a) + When(b) + When(c) + When(d) + When(e);
  }

  lemma WrittenNone()
    ensures Written([]) == []
  {
  }

  lemma {:induction false} WrittenFirst(c: Change, rest: seq<Change>)
    ensures Written([c] + rest) == When(c) + Written(rest)
  {
    assert ([c] + rest)[1..] == rest;
  }

  method AppendIf(b: seq<byte>, ghost out: seq<byte>, ghost done: seq<Tlv>, on: bool, t: Tlv) returns (r: seq<byte>)
    requires AllFit(done) && Fits(t) && b == out + AllBytes(done)
    ensures AllFit(done + When(Change(on, t))) && r == out + AllBytes(done + When(Change(on, t)))
  {
    hide Bytes, AllBytes;
    if on {
      r := b + Bytes(t);
      BytesOfOne(t);
      AllBytesAppend(done, [t]);
    } else {
      r := b;
      assert done + [] == done;
    }
  }

  method EncodeTelemetryPushCommand(cmd: Command) returns (r: Option<seq<byte>>)
    ensures r == Encode(cmd)
  {
    hide AllBytes, MetricsTlvs, HeadTlvs, StreamTlvs, ValidMode, ValidAction, ChangeTlvs, IdentityTlv, ValidMetric;
    if !ValidAction(cmd.action) || !ValidMode(cmd.config.defaults.mode) {
      return None;
    }
    var out := AllBytes(HeadTlvs(cmd.action));
    if !Streams(cmd.action) {
      return Some(out);
    }
    var ms, d := cmd.config.metrics, cmd.config.defaults;
    out := out + AllBytes(StreamTlvs(cmd.config));
    ghost var done := HeadTlvs(cmd.action) + StreamTlvs(cmd.config);
    AllBytesAppend(HeadTlvs(cmd.action), StreamTlvs(cmd.config));
    ghost var head := done;
    var i := 0;
    assert ms[0..] == ms;
    RestNone(head, ms, d);
    while i < |ms|
      invariant 0 <= i <= |ms|
      invariant AllFit(done) && out == AllBytes(done)
      invariant EncodeRest(done, ms[i..], d) == EncodeRest(head, ms, d)
    {
      RestFirst(done, ms[i..], d);
      assert ms[i..][1..] == ms[i + 1..];
      if !ValidMetric(ms[i]) || |ms[i].key| > MAX_VALUE {
        return None;
      }
      out := AppendMetric(out, ms[i], d);
      AllBytesAppend(done, [IdentityTlv(ms[i])] + ChangeTlvs(ms[i], d));
      done := done + ([IdentityTlv(ms[i])] + ChangeTlvs(ms[i], d));
      i := i + 1;
    }
    RestNone(done, ms[i..], d);
    return Some(out);
  }

  ghost function EncodeRest(done: seq<Tlv>, ms: seq<Metric>, d: Defaults): Option<seq<Tlv>> {
    match MetricsTlvs(ms, d)
    case None => None
    case Some(ts) => Some(done + ts)
  }

  lemma RestNone(done: seq<Tlv>, ms: seq<Metric>, d: Defaults)
    ensures ms == [] ==> EncodeRest(done, ms, d) == Some(done)
  {
    hide ChangeTlvs, IdentityTlv;
    assert done + [] == done;
  }

  lemma RestFirst(done: seq<Tlv>, ms: seq<Metric>, d: Defaults)
    requires ms != []
    ensures EncodeRest(done, ms, d)
         == if !ValidMetric(ms[0]) || |ms[0].key| > MAX_VALUE then None
            else EncodeRest(done + ([IdentityTlv(ms[0])] + ChangeTlvs(ms[0], d)), ms[1..], d)
  {
    hide ChangeTlvs, IdentityTlv, ValidMetric;
    if MetricsTlvs(ms, d).Some? {
      var one, rest := [IdentityTlv(ms[0])] + ChangeTlvs(ms[0], d), MetricsTlvs(ms[1..], d).value;
      assert done + (one + rest) == done + one + rest;
    }
  }
}
