/**
 A telemetry push command on its way: the fields it consists of on the wire, and what of it the receiver ends up with.
*/
module CommandArrival {
  import opened FixedWidth
  import opened LittleEndian
  import opened Options
  import opened Tlv
  import opened TelemetryPush

  /** Every field is a tag, a shape, the length of its value with the low byte first, and the value. */
  lemma FieldBytes(t: Tlv, tag: byte, v: byte, on: bool, w: uint16, n: uint32, text: seq<byte>)
    requires Fits(t)
    ensures Bytes(t) == [t.tag, t.kind, |t.value| % 256, |t.value| / 256] + t.value
    ensures U8Of(tag, v) == Tlv(tag, 1, [v]) && BoolOf(tag, on) == Tlv(tag, 6, [if on then 1 else 0])
    ensures U16Of(tag, w) == Tlv(tag, 2, [w % 256, w / 256]) && Utf8Of(tag, text) == Tlv(tag, 9, text)
    ensures U32Of(tag, n) == Tlv(tag, 3, [n % 256, n / 256 % 256, n / 256 / 256 % 256, n / 256 / 256 / 256])
    ensures F32 == 7 && BYTES == 8
  {
  }

  /** A field that is there under a condition. */
  function If(on: bool, t: Tlv): seq<Tlv> {
    if on then [t] else []
  }

  lemma {:induction false} WrittenFirst(c: Change, rest: seq<Change>)
    ensures Written([c] + rest) == If(c.on, c.t) + Written(rest)
  {
    assert ([c] + rest)[1..] == rest;
  }

  /** A metric on the wire: its name or its number, and what it does not take from the stream. */
  lemma MetricOnWire(m: Metric, d: Defaults)
    ensures IdentityTlv(m) == if m.key == [] then U16Of(0x26, m.index) else Utf8Of(0x20, m.key)
    ensures ChangeTlvs(m, d)
         == If(!m.enabled, U8Of(0x22, 0)) + (If(m.mode != d.mode, U8Of(0x23, m.mode))
              + (If(m.interval !in {0, d.interval}, U32Of(0x24, m.interval))
              + (If(m.minGap !in {0, d.minGap}, U32Of(0x25, m.minGap))
              + (If(m.useThreshold && m.mode != 1, Tlv(0x21, F32, m.delta)) + []))))
  {
    hide U32Bytes, Written;
    var a, b := Change(!m.enabled, U8Of(0x22, 0)), Change(m.mode != d.mode, U8Of(0x23, m.mode));
    var e := Change(m.interval !in {0, d.interval}, U32Of(0x24, m.interval));
    var f := Change(m.minGap !in {0, d.minGap}, U32Of(0x25, m.minGap));
    var g := Change(m.useThreshold && m.mode != 1, Tlv(0x21, F32, m.delta));
    WrittenFirst(a, [b] + ([e] + ([f] + ([g] + []))));
    WrittenFirst(b, [e] + ([f] + ([g] + [])));
    WrittenFirst(e, [f] + ([g] + []));
    WrittenFirst(f, [g] + []);
    WrittenFirst(g, []);
    NothingWritten();
  }

  lemma NothingWritten()
    ensures Written([]) == []
  {
  }

  /** A command on the wire: magic word and action, and for the first two actions the stream and its metrics. */
  lemma CommandOnWire(cmd: Command)
    requires Encode(cmd).Some?
    ensures var (c, head) := (cmd.config, [U8Of(1, 1), U16Of(2, 0x5450), U8Of(0x10, cmd.action)]);
            && 1 <= cmd.action <= 6 && 1 <= c.defaults.mode <= 3
            && (cmd.action > 2 ==> EncodeTlvs(cmd) == Some(head))
            && (cmd.action <= 2 ==>
                  && MetricsTlvs(c.metrics, c.defaults).Some?
                  && EncodeTlvs(cmd)
                     == Some(head + [U16Of(0x14, c.streamId), U8Of(0x11, c.defaults.mode),
                                     U32Of(0x12, c.defaults.interval), U32Of(0x13, c.defaults.minGap)]
                                  + MetricsTlvs(c.metrics, c.defaults).value))
  {
    hide U32Bytes, U16Bytes, MetricsTlvs;
  }

  /** What the receiver makes of the command. */
  function Arrived(cmd: Command): Option<Command>
    requires Encode(cmd).Some?
  {
    Parse(Encode(cmd).value)
  }

  /**
   What arrives: a start or an update with metrics brings the stream as sent, and of each metric its identity, its
   switch, its mode, and its periods or else the stream's; a threshold counts for any mode but the periodic one, with
   the value sent or else zero. The other actions bring themselves alone.
  */
  lemma CommandArrives(cmd: Command)
    requires Encode(cmd).Some?
    ensures Arrived(cmd).Some? <==> cmd.action > 2 || cmd.config.metrics != []
    ensures Arrived(cmd).Some? && cmd.action > 2 ==>
              Arrived(cmd).value == Command(cmd.action, Config(1, true, Defaults(3, 1000, 200), []))
    ensures Arrived(cmd).Some? && cmd.action <= 2 ==>
              var (r, c) := (Arrived(cmd).value, cmd.config);
              && r.action == cmd.action && r.config.enabled
              && r.config.streamId == c.streamId && r.config.defaults == c.defaults
              && |r.config.metrics| == |c.metrics|
              && forall i :: 0 <= i < |c.metrics| ==> IsMetric(r.config.metrics[i], c.metrics[i], c.defaults)
  {
    hide Encode, Parse, NormalMetrics;
    ParseEncoded(cmd);
    EncodesExactly(cmd);
    if cmd.action <= 2 {
      forall i | 0 <= i < |cmd.config.metrics|
        ensures IsMetric(NormalMetrics(cmd.config.metrics, cmd.config.defaults)[i], cmd.config.metrics[i],
                         cmd.config.defaults) {
      }
    }
  }

  predicate IsMetric(r: Metric, m: Metric, d: Defaults) {
    && r.key == m.key && r.hasIndex == m.hasIndex && (m.hasIndex ==> r.index == m.index)
    && r.enabled == m.enabled && r.mode == m.mode
    && r.interval == (if m.interval == 0 then d.interval else m.interval)
    && r.minGap == (if m.minGap == 0 then d.minGap else m.minGap)
    && (r.useThreshold <==> m.mode != 1)
    && r.delta == (if m.useThreshold && m.mode != 1 then m.delta else [0, 0, 0, 0])
  }
}
