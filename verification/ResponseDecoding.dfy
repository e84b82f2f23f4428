/**
 Reading a descriptor response: fixed fields are assigned as they come, list entries are assembled in a current
 entry that certain tags flush to the list.
*/
module ResponseDecoding {
  import opened FixedWidth
  import opened LittleEndian
  import opened Options
  import opened Tlv

  type Text = seq<byte>

  /** A float as its four bytes. */
  type Float32 = f: seq<byte> | |f| == 4 witness [0, 0, 0, 0]

  const ZERO: Float32 := [0, 0, 0, 0]

  datatype Capability = Capability(key: Text, description: Text)
  datatype Metric = Metric(id: uint16, key: Text, unit: Text, min: Float32, max: Float32, description: Text)
  datatype Sample = Sample(id: uint16, key: Text, value: Text, unit: Text)
  datatype Setting = Setting(
    id: uint16,
    key: Text,
    valueType: byte,
    writable: bool,
    nvsKey: Text,
    current: Text,
    default: Text,
    description: Text)
  datatype File = File(name: Text, isDir: bool, size: uint32)
  datatype Image = Image(
    id: uint32,
    name: Text,
    size: uint32,
    crc: uint32,
    version: Text,
    build: Text,
    created: uint32,
    state: Text,
    required: uint32)

  const STRING_VALUE: byte := 0

  const NO_CAPABILITY := Capability([], [])
  const NO_METRIC := Metric(0, [], [], ZERO, ZERO, [])
  const NO_SAMPLE := Sample(0, [], [], [])
  const NO_SETTING := Setting(0, [], STRING_VALUE, false, [], [], [], [])
  const NO_FILE := File([], false, 0)
  const NO_IMAGE := Image(0, [], 0, 0, [], [], 0, [], 0)

  /** A list under construction: what has been flushed, and the current entry, `held` once it counts. */
  datatype Pile<T> = Pile(list: seq<T>, cur: T, held: bool)

  function Flush<T>(p: Pile<T>, empty: T): Pile<T> {
    if p.held then Pile(p.list + [p.cur], empty, false) else p
  }

  function Hold<T>(p: Pile<T>, cur: T): Pile<T> {
    Pile(p.list, cur, true)
  }

  predicate IsText(t: Tlv) { t.kind == UTF8 }
  predicate IsU8(t: Tlv) { t.kind == U8 && |t.value| == 1 }
  predicate IsBool(t: Tlv) { t.kind == BOOL && |t.value| == 1 }
  predicate IsU16(t: Tlv) { t.kind == U16_KIND && |t.value| == 2 }
  predicate IsU32(t: Tlv) { t.kind == U32_KIND && |t.value| == 4 }

  function Read16(v: seq<byte>): uint16
    requires |v| == 2
  {
    U16(v[0], v[1])
  }

  function Read32(v: seq<byte>): uint32
    requires |v| == 4
  {
    U32(v[0], v[1], v[2], v[3])
  }

  // ---------------------------------------------------------------- the six lists

  function OnCapability(p: Pile<Capability>, t: Tlv): Pile<Capability> {
    if t.tag == 0x30 && IsText(t) then
      var q := Flush(p, NO_CAPABILITY);
      Hold(q, q.cur.(key := t.value))
    else if t.tag == 0x31 && IsText(t) then Flush(p.(cur := p.cur.(description := t.value)), NO_CAPABILITY)
    else p
  }

  function OnMetric(p: Pile<Metric>, t: Tlv): Pile<Metric> {
    if t.tag == 0x3F && IsU16(t) then p.(cur := p.cur.(id := Read16(t.value)))
    else if t.tag == 0x40 && IsText(t) then
      var q := Flush(p, NO_METRIC);
      Hold(q, q.cur.(key := t.value))
    else if t.tag == 0x41 && IsText(t) then Hold(p, p.cur.(unit := t.value))
    else if t.tag == 0x42 && t.kind == F32 then Hold(p, if |t.value| == 4 then p.cur.(min := t.value) else p.cur)
    else if t.tag == 0x43 && t.kind == F32 then Hold(p, if |t.value| == 4 then p.cur.(max := t.value) else p.cur)
    else if t.tag == 0x44 && IsText(t) then Flush(p.(cur := p.cur.(description := t.value)), NO_METRIC)
    else p
  }

  function OnSample(p: Pile<Sample>, t: Tlv): Pile<Sample> {
    if t.tag == 0x4F && IsU16(t) then p.(cur := p.cur.(id := Read16(t.value)))
    else if t.tag == 0x50 && IsText(t) then
      var q := Flush(p, NO_SAMPLE);
      Hold(q, q.cur.(key := t.value))
    else if t.tag == 0x51 && IsText(t) then Hold(p, p.cur.(value := t.value))
    else if t.tag == 0x52 && IsText(t) then Flush(p.(cur := p.cur.(unit := t.value)), NO_SAMPLE)
    else p
  }

  function OnSetting(p: Pile<Setting>, t: Tlv): Pile<Setting> {
    if t.tag == 0x7F && IsU16(t) then p.(cur := p.cur.(id := Read16(t.value)))
    else if t.tag == 0x80 && IsText(t) then
      var q := Flush(p, NO_SETTING);
      Hold(q, q.cur.(key := t.value))
    else if t.tag == 0x81 && IsU8(t) then Hold(p, p.cur.(valueType := t.value[0]))
    else if t.tag == 0x82 && IsBool(t) then Hold(p, p.cur.(writable := t.value[0] == 1))
    else if t.tag == 0x83 && IsText(t) then Hold(p, p.cur.(nvsKey := t.value))
    else if t.tag == 0x84 && IsText(t) then Hold(p, p.cur.(current := t.value))
    else if t.tag == 0x85 && IsText(t) then Hold(p, p.cur.(default := t.value))
    else if t.tag == 0x86 && IsText(t) then Flush(p.(cur := p.cur.(description := t.value)), NO_SETTING)
    else p
  }

  function OnFile(p: Pile<File>, t: Tlv): Pile<File> {
    if t.tag == 0xBA && IsText(t) then
      var q := Flush(p, NO_FILE);
      Hold(q, q.cur.(name := t.value))
    else if t.tag == 0xBB && IsBool(t) then Hold(p, p.cur.(isDir := t.value[0] != 0))
    else if t.tag == 0xBC && IsU32(t) then Hold(p, p.cur.(size := Read32(t.value)))
    else p
  }

  function OnImage(p: Pile<Image>, t: Tlv): Pile<Image> {
    if t.tag == 0xE0 && IsU32(t) then p.(cur := p.cur.(id := Read32(t.value)))
    else if t.tag == 0xE1 && IsText(t) then
      var q := Flush(p, NO_IMAGE);
      Hold(q, q.cur.(name := t.value))
    else if t.tag == 0xE2 && IsU32(t) then Hold(p, p.cur.(size := Read32(t.value)))
    else if t.tag == 0xE3 && IsU32(t) then Hold(p, p.cur.(crc := Read32(t.value)))
    else if t.tag == 0xE4 && IsText(t) then Hold(p, p.cur.(version := t.value))
    else if t.tag == 0xE5 && IsText(t) then Hold(p, p.cur.(build := t.value))
    else if t.tag == 0xE6 && IsU32(t) then Hold(p, p.cur.(created := Read32(t.value)))
    else if t.tag == 0xE7 && IsText(t) then Hold(p, p.cur.(state := t.value))
    else if t.tag == 0xE8 && IsU32(t) then Hold(p, p.cur.(required := Read32(t.value)))
    else p
  }

  // ---------------------------------------------------------------- fixed fields, kept as their raw values

  /** The kind and, for fixed-size kinds, the length a fixed field must have. */
  predicate IsField(t: Tlv) {
    var g := t.tag;
    || (IsText(t) && (g == 0x11 || 0x20 <= g <= 0x25 || g == 0x62 || 0xB6 <= g <= 0xB9 || g == 0xC0
                      || 0xD6 <= g <= 0xD8 || g == 0xDA || g == 0xDB || g == 0xF4))
    || (IsU8(t) && (g == 0x10 || g == 0x59 || g == 0x92 || g == 0xB0 || g == 0xD0 || g == 0xF3))
    || (IsBool(t) && (g == 0x18 || g == 0x1E || g == 0x60 || g == 0x90 || g == 0x91 || g == 0xB1 || g == 0xB2
                      || g == 0xC1 || g == 0xC2 || g == 0xF2))
    || (IsU16(t) && (0x1A <= g <= 0x1D || g == 0xD1))
    || (IsU32(t) && (g == 0x19 || g == 0x61 || g == 0x70 || g == 0x71 || 0x93 <= g <= 0x97 || g == 0xA0 || g == 0xA1
                     || 0xB3 <= g <= 0xB5 || g == 0xC3 || 0xD2 <= g <= 0xD5 || g == 0xD9 || g == 0xF0 || g == 0xF1))
    || (t.kind == BYTES && g == 0xA2)
  }

  datatype Decoding = Decoding(
    fields: map<int, seq<byte>>,
    capabilities: Pile<Capability>,
    metrics: Pile<Metric>,
    samples: Pile<Sample>,
    settings: Pile<Setting>,
    files: Pile<File>,
    images: Pile<Image>)

  const FRESH := Decoding(map[], Pile([], NO_CAPABILITY, false), Pile([], NO_METRIC, false), Pile([], NO_SAMPLE, false),
                          Pile([], NO_SETTING, false), Pile([], NO_FILE, false), Pile([], NO_IMAGE, false))

  function Step(d: Decoding, t: Tlv): Decoding {
    if IsField(t) then d.(fields := d.fields[t.tag as int := t.value])
    else if 0x30 <= t.tag <= 0x31 then d.(capabilities := OnCapability(d.capabilities, t))
    else if 0x3F <= t.tag <= 0x44 then d.(metrics := OnMetric(d.metrics, t))
    else if 0x4F <= t.tag <= 0x52 then d.(samples := OnSample(d.samples, t))
    else if 0x7F <= t.tag <= 0x86 then d.(settings := OnSetting(d.settings, t))
    else if 0xBA <= t.tag <= 0xBC then d.(files := OnFile(d.files, t))
    else if 0xE0 <= t.tag <= 0xE8 then d.(images := OnImage(d.images, t))
    else d
  }

  function Steps(d: Decoding, ts: seq<Tlv>): Decoding
    decreases |ts|
  {
    if ts == [] then d else Steps(Step(d, ts[0]), ts[1..])
  }

  datatype Decoded = Decoded(
    fields: map<int, seq<byte>>,
    capabilities: seq<Capability>,
    metrics: seq<Metric>,
    samples: seq<Sample>,
    settings: seq<Setting>,
    files: seq<File>,
    images: seq<Image>)

  function Finish(d: Decoding): Option<Decoded> {
    if 0x10 in d.fields && d.fields[0x10] != [0] then
      Some(Decoded(d.fields, Flush(d.capabilities, NO_CAPABILITY).list, Flush(d.metrics, NO_METRIC).list,
                   Flush(d.samples, NO_SAMPLE).list, Flush(d.settings, NO_SETTING).list, Flush(d.files, NO_FILE).list,
                   Flush(d.images, NO_IMAGE).list))
    else None
  }

  function Decode(b: seq<byte>): Option<Decoded> {
    if |b| < 8 then None
    else match Scan(b) case None => None case Some(ts) => Finish(Steps(FRESH, ts))
  }

  lemma {:induction false} StepsAppend(d: Decoding, a: seq<Tlv>, b: seq<Tlv>)
    ensures Steps(d, a + b) == Steps(Steps(d, a), b)
    decreases |a|
  {
    hide Step;
    if a == [] {
      assert a + b == b;
    } else {
      assert (a + b)[0] == a[0] && (a + b)[1..] == a[1..] + b;
      StepsAppend(Step(d, a[0]), a[1..], b);
    }
  }

  // ---------------------------------------------------------------- the decoder over a byte vector

  ghost function DecodeRest(d: Decoding, b: seq<byte>, off: nat): Option<Decoding> {
    match ScanFrom(b, off)
    case None => None
    case Some(ts) => Some(Steps(d, ts))
  }

  lemma DecodeOn(d: Decoding, b: seq<byte>, off: nat)
    ensures off + 4 > |b| ==> DecodeRest(d, b, off) == Some(d)
    ensures off + 4 <= |b| && off + 4 + ValueLength(b, off) > |b| ==> DecodeRest(d, b, off) == None
    ensures off + 4 <= |b| && off + 4 + ValueLength(b, off) <= |b| ==>
              var n := ValueLength(b, off);
              DecodeRest(d, b, off) == DecodeRest(Step(d, Tlv(b[off], b[off + 1], b[off + 4..off + 4 + n])), b,
                                                  off + 4 + n)
  {
    hide Step, ScanFrom, ValueLength;
    ScanStep(b, off);
  }

  method DecodeDescriptorResponse(b: seq<byte>) returns (r: Option<Decoded>)
    ensures r == Decode(b)
  {
    hide Step, ScanFrom, Steps, ValueLength, Finish;
    if |b| < 8 {
      return None;
    }
    var d := FRESH;
    var off: nat := 0;
    while off + 4 <= |b|
      invariant DecodeRest(FRESH, b, 0) == DecodeRest(d, b, off)
      decreases |b| - off
    {
      DecodeOn(d, b, off);
      var n := ValueLength(b, off);
      if off + 4 + n > |b| {
        return None;
      }
      d := Step(d, Tlv(b[off], b[off + 1], b[off + 4..off + 4 + n]));
      off := off + 4 + n;
    }
    DecodeOn(d, b, off);
    return Finish(d);
  }
}
