/** The descriptor query: what each query type writes, and what the parser makes of it. */
module DescriptorQuery {
  import opened FixedWidth
  import opened LittleEndian
  import opened Options
  import opened Tlv
  import opened TopologyTypes

  // ---------------------------------------------------------------- query types

  const UNKNOWN: byte := 0
  const GET_CAPABILITIES: byte := 2
  const GET_TELEMETRY: byte := 3
  const PULL_TELEMETRY: byte := 4
  const SET_TIME: byte := 7
  const GET_SETTINGS: byte := 8
  const GET_NODE_BUNDLE: byte := 9
  const GET_SETTING: byte := 10
  const SET_SETTING: byte := 11
  const READ_LOG_CHUNK: byte := 13
  const SET_LOG_CONTROL: byte := 15
  const LIST_STORAGE_PATH: byte := 17
  const STAT_STORAGE_PATH: byte := 18
  const GET_OTA_MANIFEST: byte := 21
  const CLEAR_OTA_SCOPE: byte := 23
  const APPLY_OTA_IMAGE: byte := 26
  const TOPOLOGY_STAGE_CLEAR: byte := 27
  const TOPOLOGY_STAGE_BEGIN: byte := 28
  const TOPOLOGY_STAGE_SLOT_SET: byte := 29
  const TOPOLOGY_STAGE_GROUP_SET: byte := 30
  const TOPOLOGY_STAGE_FINALIZE: byte := 31
  const TOPOLOGY_COMMIT: byte := 32
  const TOPOLOGY_TRIGGER_SEND: byte := 34

  const BUNDLE_ALL: byte := 0x1F

  predicate SupportsPaging(kind: byte) {
    || kind == GET_CAPABILITIES || kind == GET_TELEMETRY || kind == PULL_TELEMETRY
    || kind == GET_NODE_BUNDLE || kind == GET_SETTINGS || kind == GET_OTA_MANIFEST
  }

  // ---------------------------------------------------------------- the query record, grouped by use

  datatype SettingRef = SettingRef(key: seq<byte>, hasId: bool, id: uint16, value: seq<byte>)
  datatype Paging = Paging(paged: bool, cursor: uint16, size: byte)
  datatype LogRef = LogRef(offset: uint32, maxBytes: uint16, hasEnable: bool, enable: bool)
  datatype Names = Names(storage: seq<byte>, scope: seq<byte>, target: seq<byte>)
  datatype BeginRef = BeginRef(schema: byte, version: uint32, neg: byte, pos: byte)
  datatype SlotRef = SlotRef(
    index: byte,
    enabled: bool,
    peer: Mac,
    role: byte,
    relative: int8,
    localVi: byte,
    peerVi: byte,
    axis: int8)
  datatype Delays = Delays(delay: uint16, hold: uint16)
  datatype GroupRef = GroupRef(slot: byte, enabled: bool, seed: Seed)
  datatype TriggerRef = TriggerRef(target: int8, direction: byte, sourceVi: byte)

  datatype Query = Query(
    kind: byte,
    setting: SettingRef,
    epoch: nat,
    page: Paging,
    mask: byte,
    log: LogRef,
    names: Names,
    begin: BeginRef,
    slot: SlotRef,
    groupId: byte,
    delays: Delays,
    group: GroupRef,
    trigger: TriggerRef)

  const NO_MAC: Mac := [0, 0, 0, 0, 0, 0]
  const NO_PAGE := Paging(false, 0, 0)
  const FRESH := Query(UNKNOWN, SettingRef([], false, 0, []), 0, NO_PAGE, BUNDLE_ALL, LogRef(0, 0, false, false),
                       Names([], [], []), BeginRef(1, 0, 0, 0), SlotRef(0, false, NO_MAC, 0, 0, 0xFF, 0xFF, 0), 0,
                       Delays(0, 0), GroupRef(0, false, ZERO_SEED), TriggerRef(0, 0, 0xFF))

  // ---------------------------------------------------------------- encoding

  function SettingTlvs(s: SettingRef): Option<seq<Tlv>> {
    if s.hasId == (s.key != []) then None
    else if s.hasId then Some([U16Of(0x14, s.id)])
    else if |s.key| > MAX_VALUE then None
    else Some([Utf8Of(0x11, s.key)])
  }

  function TextTlvs(tag: byte, text: seq<byte>): Option<seq<Tlv>> {
    if text == [] then Some([])
    else if |text| > MAX_VALUE then None
    else Some([Utf8Of(tag, text)])
  }

  function SlotTlvs(s: SlotRef, groupId: byte, d: Delays): seq<Tlv> {
    [U8Of(0x44, s.index), BoolOf(0x45, s.enabled), Tlv(0x46, BYTES, s.peer), U8Of(0x47, s.role)]
      + [U8Of(0x48, groupId), U8Of(0x49, FromInt8(s.relative)), U8Of(0x4A, s.localVi), U8Of(0x4B, s.peerVi)]
      + [U8Of(0x4C, FromInt8(s.axis)), U16Of(0x4D, d.delay), U16Of(0x4E, d.hold)]
  }

  function GroupTlvs(g: GroupRef, groupId: byte): seq<Tlv> {
    [U8Of(0x50, g.slot), BoolOf(0x51, g.enabled), U8Of(0x52, groupId)]
      + (if g.enabled then [Tlv(0x53, BYTES, g.seed)] else [])
  }

  function TriggerTlvs(t: TriggerRef, d: Delays): seq<Tlv> {
    [U8Of(0x54, FromInt8(t.target)), U8Of(0x55, t.direction)]
      + [U16Of(0x56, d.delay), U16Of(0x57, d.hold), U8Of(0x58, t.sourceVi)]
  }

  function BodyTlvs(q: Query): Option<seq<Tlv>> {
    if q.kind == GET_SETTING then SettingTlvs(q.setting)
    else if q.kind == SET_SETTING then
      match SettingTlvs(q.setting)
      case None => None
      case Some(ts) => if |q.setting.value| > MAX_VALUE then None else Some(ts + [Utf8Of(0x12, q.setting.value)])
    else if q.kind == SET_TIME then Some([U32Of(0x13, q.epoch % TWO_TO_THE_32)])
    else if q.kind == GET_NODE_BUNDLE then Some([U8Of(0x59, if q.mask == 0 then BUNDLE_ALL else q.mask)])
    else if q.kind == READ_LOG_CHUNK then Some([U32Of(0x30, q.log.offset), U16Of(0x31, q.log.maxBytes)])
    else if q.kind == SET_LOG_CONTROL then Some([BoolOf(0x32, q.log.enable)])
    else if q.kind == LIST_STORAGE_PATH || q.kind == STAT_STORAGE_PATH then TextTlvs(0x33, q.names.storage)
    else if q.kind == CLEAR_OTA_SCOPE then TextTlvs(0x34, q.names.scope)
    else if q.kind == APPLY_OTA_IMAGE then TextTlvs(0x35, q.names.target)
    else if q.kind == TOPOLOGY_STAGE_BEGIN then
      Some([U8Of(0x40, q.begin.schema), U32Of(0x41, q.begin.version), U8Of(0x42, q.begin.neg), U8Of(0x43, q.begin.pos)])
    else if q.kind == TOPOLOGY_STAGE_SLOT_SET then Some(SlotTlvs(q.slot, q.groupId, q.delays))
    else if q.kind == TOPOLOGY_STAGE_GROUP_SET then Some(GroupTlvs(q.group, q.groupId))
    else if q.kind == TOPOLOGY_TRIGGER_SEND then Some(TriggerTlvs(q.trigger, q.delays))
    else Some([])
  }

  function PageTlvs(q: Query): seq<Tlv> {
    if q.page.paged && SupportsPaging(q.kind)
        then [BoolOf(0x15, true), U16Of(0x16, q.page.cursor), U8Of(0x17, q.page.size)]
    else []
  }

  function HeadTlvs(kind: byte): seq<Tlv> {
    [U8Of(0x01, 1), U8Of(0x10, kind)]
  }

  function EncodeTlvs(q: Query): Option<seq<Tlv>> {
    match BodyTlvs(q)
    case None => None
    case Some(body) => Some(HeadTlvs(q.kind) + body + PageTlvs(q))
  }

  lemma GroupsOfTlvsFit(q: Query)
    ensures AllFit(SlotTlvs(q.slot, q.groupId, q.delays)) && AllFit(GroupTlvs(q.group, q.groupId))
    ensures AllFit(TriggerTlvs(q.trigger, q.delays)) && AllFit(PageTlvs(q)) && AllFit(HeadTlvs(q.kind))
  {
    hide SupportsPaging;
  }

  lemma TextsFit(tag: byte, text: seq<byte>, s: SettingRef)
    ensures TextTlvs(tag, text).Some? ==> AllFit(TextTlvs(tag, text).value)
    ensures SettingTlvs(s).Some? ==> AllFit(SettingTlvs(s).value)
  {
  }

  lemma BodyFits(q: Query)
    ensures BodyTlvs(q).Some? ==> AllFit(BodyTlvs(q).value)
  {
    hide SlotTlvs, GroupTlvs, TriggerTlvs, TextTlvs, SettingTlvs, PageTlvs, HeadTlvs, U32Bytes;
    GroupsOfTlvsFit(q);
    TextsFit(0x33, q.names.storage, q.setting);
    TextsFit(0x34, q.names.scope, q.setting);
    TextsFit(0x35, q.names.target, q.setting);
  }

  lemma EncodeFits(q: Query)
    ensures EncodeTlvs(q).Some? ==> AllFit(EncodeTlvs(q).value)
  {
    hide BodyTlvs, PageTlvs, HeadTlvs, SlotTlvs, GroupTlvs, TriggerTlvs;
    BodyFits(q);
    GroupsOfTlvsFit(q);
  }

  function Encode(q: Query): Option<seq<byte>> {
    match EncodeTlvs(q)
    case None => None
    case Some(ts) => EncodeFits(q); Some(AllBytes(ts))
  }

  // ---------------------------------------------------------------- parsing

  function SetText(q: Query, tag: byte, v: seq<byte>): Query {
    match tag
    case 0x11 => q.(setting := q.setting.(key := v))
    case 0x12 => q.(setting := q.setting.(value := v))
    case 0x33 => q.(names := q.names.(storage := v))
    case 0x34 => q.(names := q.names.(scope := v))
    case 0x35 => q.(names := q.names.(target := v))
    case _ => q
  }

  function SetU8(q: Query, tag: byte, v: byte): Query {
    match tag
    case 0x17 => q.(page := q.page.(size := v))
    case 0x40 => q.(begin := q.begin.(schema := v))
    case 0x42 => q.(begin := q.begin.(neg := v))
    case 0x43 => q.(begin := q.begin.(pos := v))
    case 0x44 => q.(slot := q.slot.(index := v))
    case 0x47 => q.(slot := q.slot.(role := v))
    case 0x48 => q.(groupId := v)
    case 0x49 => q.(slot := q.slot.(relative := ToInt8(v)))
    case 0x4A => q.(slot := q.slot.(localVi := v))
    case 0x4B => q.(slot := q.slot.(peerVi := v))
    case 0x4C => q.(slot := q.slot.(axis := ToInt8(v)))
    case 0x50 => q.(group := q.group.(slot := v))
    case 0x52 => q.(groupId := v)
    case 0x54 => q.(trigger := q.trigger.(target := ToInt8(v)))
    case 0x55 => q.(trigger := q.trigger.(direction := v))
    case 0x58 => q.(trigger := q.trigger.(sourceVi := v))
    case 0x59 => q.(mask := v)
    case _ => q
  }

  function SetBool(q: Query, tag: byte, v: bool): Query {
    match tag
    case 0x15 => q.(page := q.page.(paged := v))
    case 0x32 => q.(log := q.log.(hasEnable := true, enable := v))
    case 0x45 => q.(slot := q.slot.(enabled := v))
    case 0x51 => q.(group := q.group.(enabled := v))
    case _ => q
  }

  function SetU16(q: Query, tag: byte, v: uint16): Query {
    match tag
    case 0x14 => q.(setting := q.setting.(id := v, hasId := true))
    case 0x16 => q.(page := q.page.(cursor := v))
    case 0x31 => q.(log := q.log.(maxBytes := v))
    case 0x4D => q.(delays := q.delays.(delay := v))
    case 0x4E => q.(delays := q.delays.(hold := v))
    case 0x56 => q.(delays := q.delays.(delay := v))
    case 0x57 => q.(delays := q.delays.(hold := v))
    case _ => q
  }

  function SetU32(q: Query, tag: byte, v: uint32): Query {
    match tag
    case 0x13 => q.(epoch := v)
    case 0x30 => q.(log := q.log.(offset := v))
    case 0x41 => q.(begin := q.begin.(version := v))
    case _ => q
  }

  function SetBytes(q: Query, tag: byte, v: seq<byte>): Query {
    if tag == 0x46 && |v| == MAC_BYTES then q.(slot := q.slot.(peer := v))
    else if tag == 0x53 && |v| == SEED_BYTES then q.(group := q.group.(seed := v))
    else q
  }

  /** What one tag does to the query; every tag the parser does not expect in this shape does nothing. */
  function Set(q: Query, t: Tlv): Query {
    if t.kind == UTF8 then SetText(q, t.tag, t.value)
    else if t.kind == U8 && |t.value| == 1 then SetU8(q, t.tag, t.value[0])
    else if t.kind == BOOL && |t.value| == 1 then SetBool(q, t.tag, t.value[0] != 0)
    else if t.kind == U16_KIND && |t.value| == 2 then SetU16(q, t.tag, U16(t.value[0], t.value[1]))
    else if t.kind == U32_KIND && |t.value| == 4
        then SetU32(q, t.tag, U32(t.value[0], t.value[1], t.value[2], t.value[3]))
    else if t.kind == BYTES then SetBytes(q, t.tag, t.value)
    else q
  }

  datatype Parsing = Parsing(query: Query, typed: bool)

  predicate IsKind(t: Tlv) { t.tag == 0x10 && t.kind == U8 && |t.value| == 1 }

  function Step(p: Parsing, t: Tlv): Parsing {
    if IsKind(t) then Parsing(p.query.(kind := t.value[0]), true) else p.(query := Set(p.query, t))
  }

  function Steps(p: Parsing, ts: seq<Tlv>): Parsing
    decreases |ts|
  {
    if ts == [] then p else Steps(Step(p, ts[0]), ts[1..])
  }

  predicate ValidSlot(s: SlotRef, groupId: byte) {
    && s.index < MAX_SLOTS
    && (s.enabled ==> s.role != 0 && s.relative != 0 && groupId != 0)
  }

  predicate ValidGroup(g: GroupRef, groupId: byte) {
    && g.slot < MAX_GROUPS
    && (g.enabled ==> groupId != 0)
  }

  predicate ValidTrigger(t: TriggerRef) {
    && t.target != 0 && -(MAX_SLOTS as int) <= t.target <= MAX_SLOTS
    && (t.direction == 1 || t.direction == 2)
    && (t.sourceVi == 0xFF || t.sourceVi <= 0x0F)
  }

  predicate Valid(q: Query) {
    && q.kind != UNKNOWN
    && (q.kind == GET_SETTING || q.kind == SET_SETTING ==> q.setting.hasId != (q.setting.key != []))
    && (q.kind == SET_SETTING ==> q.setting.value != [])
    && (q.kind == SET_TIME ==> q.epoch != 0)
    && (q.kind == READ_LOG_CHUNK ==> q.log.maxBytes != 0)
    && (q.kind == SET_LOG_CONTROL ==> q.log.hasEnable)
    && (q.kind == CLEAR_OTA_SCOPE ==> q.names.scope != [])
    && (q.kind == APPLY_OTA_IMAGE ==> q.names.target != [])
    && (q.kind == TOPOLOGY_STAGE_BEGIN ==> q.begin.version != 0)
    && (q.kind == TOPOLOGY_STAGE_SLOT_SET ==> ValidSlot(q.slot, q.groupId))
    && (q.kind == TOPOLOGY_STAGE_GROUP_SET ==> ValidGroup(q.group, q.groupId))
    && (q.kind == TOPOLOGY_TRIGGER_SEND ==> ValidTrigger(q.trigger))
  }

  function KnownMask(mask: byte): byte {
    if mask % 32 == 0 then BUNDLE_ALL else mask % 32
  }

  function Finish(p: Parsing): Option<Query> {
    if !p.typed || !Valid(p.query) then None
    else if p.query.kind == GET_NODE_BUNDLE then Some(p.query.(mask := KnownMask(p.query.mask)))
    else Some(p.query)
  }

  function Parse(b: seq<byte>): Option<Query> {
    if |b| < 8 then None
    else match Scan(b) case None => None case Some(ts) => Finish(Steps(Parsing(FRESH, false), ts))
  }

  // ---------------------------------------------------------------- what survives the wire

  /** Only the fields the type uses, as the receiver will have them; everything else is fresh. */
  function Relevant(q: Query): Query {
    var f := FRESH.(kind := q.kind);
    if q.kind == GET_SETTING then
      f.(setting := q.setting.(value := [], id := if q.setting.hasId then q.setting.id else 0))
    else if q.kind == SET_SETTING then f.(setting := q.setting.(id := if q.setting.hasId then q.setting.id else 0))
    else if q.kind == SET_TIME then f.(epoch := q.epoch % TWO_TO_THE_32)
    else if q.kind == GET_NODE_BUNDLE then f.(mask := KnownMask(q.mask))
    else if q.kind == READ_LOG_CHUNK then f.(log := LogRef(q.log.offset, q.log.maxBytes, false, false))
    else if q.kind == SET_LOG_CONTROL then f.(log := LogRef(0, 0, true, q.log.enable))
    else if q.kind == LIST_STORAGE_PATH || q.kind == STAT_STORAGE_PATH then f.(names := Names(q.names.storage, [], []))
    else if q.kind == CLEAR_OTA_SCOPE then f.(names := Names([], q.names.scope, []))
    else if q.kind == APPLY_OTA_IMAGE then f.(names := Names([], [], q.names.target))
    else if q.kind == TOPOLOGY_STAGE_BEGIN then f.(begin := q.begin)
    else if q.kind == TOPOLOGY_STAGE_SLOT_SET then f.(slot := q.slot, groupId := q.groupId, delays := q.delays)
    else if q.kind == TOPOLOGY_STAGE_GROUP_SET then
      f.(group := if q.group.enabled then q.group else q.group.(seed := ZERO_SEED), groupId := q.groupId)
    else if q.kind == TOPOLOGY_TRIGGER_SEND then f.(trigger := q.trigger, delays := q.delays)
    else f
  }

  function Normal(q: Query): Query {
    if q.page.paged && SupportsPaging(q.kind) then Relevant(q).(page := q.page) else Relevant(q)
  }

  // ---------------------------------------------------------------- round trip

  lemma {:induction false} StepsAppend(p: Parsing, a: seq<Tlv>, b: seq<Tlv>)
    ensures Steps(p, a + b) == Steps(Steps(p, a), b)
    decreases |a|
  {
    hide Step;
    if a == [] {
      assert a + b == b;
    } else {
      assert (a + b)[0] == a[0] && (a + b)[1..] == a[1..] + b;
      StepsAppend(Step(p, a[0]), a[1..], b);
    }
  }

  lemma {:induction false} Steps1(p: Parsing, a: Tlv)
    ensures Steps(p, [a]) == Step(p, a)
  {
    hide Step;
    assert [a][1..] == [];
  }

  lemma {:induction false} Steps2(p: Parsing, a: Tlv, b: Tlv)
    ensures Steps(p, [a, b]) == Step(Step(p, a), b)
  {
    hide Step, Steps;
    assert [a, b] == [a] + [b];
    StepsAppend(p, [a], [b]);
    Steps1(p, a);
    Steps1(Step(p, a), b);
  }

  lemma {:induction false} Steps3(p: Parsing, a: Tlv, b: Tlv, c: Tlv)
    ensures Steps(p, [a, b, c]) == Step(Step(Step(p, a), b), c)
  {
    hide Step, Steps;
    assert [a, b, c] == [a, b] + [c];
    StepsAppend(p, [a, b], [c]);
    Steps2(p, a, b);
    Steps1(Step(Step(p, a), b), c);
  }

  lemma {:induction false} Steps4(p: Parsing, a: Tlv, b: Tlv, c: Tlv, d: Tlv)
    ensures Steps(p, [a, b, c, d]) == Step(Step(Step(Step(p, a), b), c), d)
  {
    hide Step, Steps;
    assert [a, b, c, d] == [a, b] + [c, d];
    StepsAppend(p, [a, b], [c, d]);
    Steps2(p, a, b);
    Steps2(Step(Step(p, a), b), c, d);
  }

  lemma {:induction false} NoSteps(p: Parsing)
    ensures Steps(p, []) == p
  {
  }

  lemma StepU8(p: Parsing, tag: byte, v: byte)
    requires tag != 0x10
    ensures Step(p, U8Of(tag, v)) == p.(query := SetU8(p.query, tag, v))
  {
    hide SetU8;
  }

  lemma StepBool(p: Parsing, tag: byte, v: bool)
    ensures Step(p, BoolOf(tag, v)) == p.(query := SetBool(p.query, tag, v))
  {
    hide SetBool;
  }

  lemma StepU16(p: Parsing, tag: byte, v: uint16)
    ensures Step(p, U16Of(tag, v)) == p.(query := SetU16(p.query, tag, v))
  {
    hide SetU16;
    U16RoundTrip(v);
  }

  lemma StepU32(p: Parsing, tag: byte, v: uint32)
    ensures Step(p, U32Of(tag, v)) == p.(query := SetU32(p.query, tag, v))
  {
    hide SetU32, U32, U32Bytes;
    U32RoundTrip(v);
  }

  lemma StepText(p: Parsing, tag: byte, v: seq<byte>)
    ensures Step(p, Utf8Of(tag, v)) == p.(query := SetText(p.query, tag, v))
  {
    hide SetText;
  }

  lemma StepBytes(p: Parsing, tag: byte, v: seq<byte>)
    ensures Step(p, Tlv(tag, BYTES, v)) == p.(query := SetBytes(p.query, tag, v))
  {
    hide SetBytes;
  }

  lemma HeadSteps(kind: byte)
    ensures Steps(Parsing(FRESH, false), HeadTlvs(kind)) == Parsing(FRESH.(kind := kind), true)
  {
    hide Steps;
    Steps2(Parsing(FRESH, false), U8Of(0x01, 1), U8Of(0x10, kind));
  }

  lemma {:induction false} SettingSteps(p: Parsing, s: SettingRef)
    requires SettingTlvs(s).Some? && p.query.setting == FRESH.setting
    ensures Steps(p, SettingTlvs(s).value)
         == p.(query := p.query.(setting := SettingRef(s.key, s.hasId, if s.hasId then s.id else 0, [])))
  {
    hide Step, Steps;
    if s.hasId {
      Steps1(p, U16Of(0x14, s.id));
      StepU16(p, 0x14, s.id);
    } else {
      Steps1(p, Utf8Of(0x11, s.key));
      StepText(p, 0x11, s.key);
    }
  }

  lemma {:induction false} SlotFirst(p: Parsing, s: SlotRef)
    ensures Steps(p, [U8Of(0x44, s.index), BoolOf(0x45, s.enabled), Tlv(0x46, BYTES, s.peer), U8Of(0x47, s.role)])
         == p.(query := p.query.(slot := p.query.slot.(index := s.index, enabled := s.enabled, peer := s.peer,
                                                       role := s.role)))
  {
    hide Step, Steps;
    Steps4(p, U8Of(0x44, s.index), BoolOf(0x45, s.enabled), Tlv(0x46, BYTES, s.peer), U8Of(0x47, s.role));
    StepU8(p, 0x44, s.index);
    var p1 := p.(query := SetU8(p.query, 0x44, s.index));
    StepBool(p1, 0x45, s.enabled);
    var p2 := p1.(query := SetBool(p1.query, 0x45, s.enabled));
    StepBytes(p2, 0x46, s.peer);
    var p3 := p2.(query := SetBytes(p2.query, 0x46, s.peer));
    StepU8(p3, 0x47, s.role);
  }

  lemma {:induction false} SlotSecond(p: Parsing, s: SlotRef, groupId: byte)
    ensures Steps(p, [U8Of(0x48, groupId), U8Of(0x49, FromInt8(s.relative)), U8Of(0x4A, s.localVi),
                      U8Of(0x4B, s.peerVi)])
         == p.(query := p.query.(groupId := groupId,
                                 slot := p.query.slot.(relative := s.relative, localVi := s.localVi,
                                                       peerVi := s.peerVi)))
  {
    hide Step, Steps;
    Steps4(p, U8Of(0x48, groupId), U8Of(0x49, FromInt8(s.relative)), U8Of(0x4A, s.localVi), U8Of(0x4B, s.peerVi));
    StepU8(p, 0x48, groupId);
    var p1 := p.(query := SetU8(p.query, 0x48, groupId));
    StepU8(p1, 0x49, FromInt8(s.relative));
    var p2 := p1.(query := SetU8(p1.query, 0x49, FromInt8(s.relative)));
    StepU8(p2, 0x4A, s.localVi);
    var p3 := p2.(query := SetU8(p2.query, 0x4A, s.localVi));
    StepU8(p3, 0x4B, s.peerVi);
  }

  lemma {:induction false} SlotThird(p: Parsing, s: SlotRef, d: Delays)
    ensures Steps(p, [U8Of(0x4C, FromInt8(s.axis)), U16Of(0x4D, d.delay), U16Of(0x4E, d.hold)])
         == p.(query := p.query.(slot := p.query.slot.(axis := s.axis), delays := d))
  {
    hide Step, Steps;
    Steps3(p, U8Of(0x4C, FromInt8(s.axis)), U16Of(0x4D, d.delay), U16Of(0x4E, d.hold));
    StepU8(p, 0x4C, FromInt8(s.axis));
    var p1 := p.(query := SetU8(p.query, 0x4C, FromInt8(s.axis)));
    StepU16(p1, 0x4D, d.delay);
    var p2 := p1.(query := SetU16(p1.query, 0x4D, d.delay));
    StepU16(p2, 0x4E, d.hold);
  }

  lemma {:induction false} SlotSteps(p: Parsing, s: SlotRef, groupId: byte, d: Delays)
    ensures Steps(p, SlotTlvs(s, groupId, d)) == p.(query := p.query.(slot := s, groupId := groupId, delays := d))
  {
    hide Steps, U8Of, BoolOf, U16Of;
    var a := [U8Of(0x44, s.index), BoolOf(0x45, s.enabled), Tlv(0x46, BYTES, s.peer), U8Of(0x47, s.role)];
    var b := [U8Of(0x48, groupId), U8Of(0x49, FromInt8(s.relative)), U8Of(0x4A, s.localVi), U8Of(0x4B, s.peerVi)];
    var c := [U8Of(0x4C, FromInt8(s.axis)), U16Of(0x4D, d.delay), U16Of(0x4E, d.hold)];
    StepsAppend(p, a + b, c);
    StepsAppend(p, a, b);
    SlotFirst(p, s);
    SlotSecond(Steps(p, a), s, groupId);
    SlotThird(Steps(Steps(p, a), b), s, d);
  }

  lemma {:induction false} GroupSteps(p: Parsing, g: GroupRef, groupId: byte)
    requires p.query.group.seed == ZERO_SEED
    ensures Steps(p, GroupTlvs(g, groupId))
         == p.(query := p.query.(group := if g.enabled then g else g.(seed := ZERO_SEED), groupId := groupId))
  {
    hide Step, Steps;
    var a := [U8Of(0x50, g.slot), BoolOf(0x51, g.enabled), U8Of(0x52, groupId)];
    Steps3(p, a[0], a[1], a[2]);
    StepU8(p, 0x50, g.slot);
    var p1 := p.(query := SetU8(p.query, 0x50, g.slot));
    StepBool(p1, 0x51, g.enabled);
    var p2 := p1.(query := SetBool(p1.query, 0x51, g.enabled));
    StepU8(p2, 0x52, groupId);
    if g.enabled {
      StepsAppend(p, a, [Tlv(0x53, BYTES, g.seed)]);
      Steps1(Steps(p, a), Tlv(0x53, BYTES, g.seed));
      StepBytes(Steps(p, a), 0x53, g.seed);
    } else {
      assert a + [] == a;
    }
  }

  lemma {:induction false} TriggerFirst(p: Parsing, t: TriggerRef)
    ensures Steps(p, [U8Of(0x54, FromInt8(t.target)), U8Of(0x55, t.direction)])
         == p.(query := p.query.(trigger := p.query.trigger.(target := t.target, direction := t.direction)))
  {
    hide Step, Steps;
    Steps2(p, U8Of(0x54, FromInt8(t.target)), U8Of(0x55, t.direction));
    StepU8(p, 0x54, FromInt8(t.target));
    var p1 := p.(query := SetU8(p.query, 0x54, FromInt8(t.target)));
    StepU8(p1, 0x55, t.direction);
  }

  lemma {:induction false} TriggerSecond(p: Parsing, t: TriggerRef, d: Delays)
    ensures Steps(p, [U16Of(0x56, d.delay), U16Of(0x57, d.hold), U8Of(0x58, t.sourceVi)])
         == p.(query := p.query.(trigger := p.query.trigger.(sourceVi := t.sourceVi), delays := d))
  {
    hide Step, Steps;
    Steps3(p, U16Of(0x56, d.delay), U16Of(0x57, d.hold), U8Of(0x58, t.sourceVi));
    StepU16(p, 0x56, d.delay);
    var p1 := p.(query := SetU16(p.query, 0x56, d.delay));
    StepU16(p1, 0x57, d.hold);
    var p2 := p1.(query := SetU16(p1.query, 0x57, d.hold));
    StepU8(p2, 0x58, t.sourceVi);
  }

  lemma {:induction false} TriggerSteps(p: Parsing, t: TriggerRef, d: Delays)
    ensures Steps(p, TriggerTlvs(t, d)) == p.(query := p.query.(trigger := t, delays := d))
  {
    hide Step, Steps, U8Of, U16Of;
    var a := [U8Of(0x54, FromInt8(t.target)), U8Of(0x55, t.direction)];
    var b := [U16Of(0x56, d.delay), U16Of(0x57, d.hold), U8Of(0x58, t.sourceVi)];
    StepsAppend(p, a, b);
    TriggerFirst(p, t);
    TriggerSecond(Steps(p, a), t, d);
  }

  lemma {:induction false} BeginSteps(p: Parsing, b: BeginRef)
    ensures Steps(p, [U8Of(0x40, b.schema), U32Of(0x41, b.version), U8Of(0x42, b.neg), U8Of(0x43, b.pos)])
         == p.(query := p.query.(begin := b))
  {
    hide Step, Steps, U32Bytes;
    Steps4(p, U8Of(0x40, b.schema), U32Of(0x41, b.version), U8Of(0x42, b.neg), U8Of(0x43, b.pos));
    StepU8(p, 0x40, b.schema);
    var p1 := p.(query := SetU8(p.query, 0x40, b.schema));
    StepU32(p1, 0x41, b.version);
    var p2 := p1.(query := SetU32(p1.query, 0x41, b.version));
    StepU8(p2, 0x42, b.neg);
    var p3 := p2.(query := SetU8(p2.query, 0x42, b.neg));
    StepU8(p3, 0x43, b.pos);
  }

  lemma {:induction false} TextSteps(p: Parsing, tag: byte, text: seq<byte>)
    requires TextTlvs(tag, text).Some?
    ensures Steps(p, TextTlvs(tag, text).value) == if text == [] then p else p.(query := SetText(p.query, tag, text))
  {
    hide Step, Steps, SetText;
    if text == [] {
      NoSteps(p);
    } else {
      Steps1(p, Utf8Of(tag, text));
      StepText(p, tag, text);
    }
  }

  /** What the body leaves, before the bundle mask is cut to the known bits. */
  function Raw(q: Query): Query {
    if q.kind == GET_NODE_BUNDLE then Relevant(q).(mask := if q.mask == 0 then BUNDLE_ALL else q.mask) else Relevant(q)
  }

  lemma PlainBody(q: Query)
    requires BodyTlvs(q).Some? && (q.kind == SET_TIME || q.kind == GET_NODE_BUNDLE || q.kind == READ_LOG_CHUNK
                                   || q.kind == SET_LOG_CONTROL)
    ensures Steps(Parsing(FRESH.(kind := q.kind), true), BodyTlvs(q).value) == Parsing(Raw(q), true)
  {
    hide Step, Steps, U32Bytes;
    var p := Parsing(FRESH.(kind := q.kind), true);
    if q.kind == SET_TIME {
      Steps1(p, U32Of(0x13, q.epoch % TWO_TO_THE_32));
      StepU32(p, 0x13, q.epoch % TWO_TO_THE_32);
    } else if q.kind == GET_NODE_BUNDLE {
      var mask := if q.mask == 0 then BUNDLE_ALL else q.mask;
      Steps1(p, U8Of(0x59, mask));
      StepU8(p, 0x59, mask);
    } else if q.kind == READ_LOG_CHUNK {
      Steps2(p, U32Of(0x30, q.log.offset), U16Of(0x31, q.log.maxBytes));
      StepU32(p, 0x30, q.log.offset);
      var p1 := p.(query := SetU32(p.query, 0x30, q.log.offset));
      StepU16(p1, 0x31, q.log.maxBytes);
    } else {
      Steps1(p, BoolOf(0x32, q.log.enable));
      StepBool(p, 0x32, q.log.enable);
    }
  }

  lemma SettingBody(q: Query)
    requires BodyTlvs(q).Some? && (q.kind == GET_SETTING || q.kind == SET_SETTING)
    ensures Steps(Parsing(FRESH.(kind := q.kind), true), BodyTlvs(q).value) == Parsing(Raw(q), true)
  {
    hide Step, Steps, SettingTlvs;
    var p := Parsing(FRESH.(kind := q.kind), true);
    SettingSteps(p, q.setting);
    if q.kind == SET_SETTING {
      var ts := SettingTlvs(q.setting).value;
      StepsAppend(p, ts, [Utf8Of(0x12, q.setting.value)]);
      Steps1(Steps(p, ts), Utf8Of(0x12, q.setting.value));
      StepText(Steps(p, ts), 0x12, q.setting.value);
    }
  }

  lemma BodySteps(q: Query)
    requires BodyTlvs(q).Some?
    ensures Steps(Parsing(FRESH.(kind := q.kind), true), BodyTlvs(q).value) == Parsing(Raw(q), true)
  {
    hide Steps, SlotTlvs, GroupTlvs, TriggerTlvs, SettingTlvs, TextTlvs, U32Bytes;
    var p := Parsing(FRESH.(kind := q.kind), true);
    if q.kind == SET_TIME || q.kind == GET_NODE_BUNDLE || q.kind == READ_LOG_CHUNK || q.kind == SET_LOG_CONTROL {
      PlainBody(q);
    } else if q.kind == GET_SETTING || q.kind == SET_SETTING {
      SettingBody(q);
    } else if q.kind == LIST_STORAGE_PATH || q.kind == STAT_STORAGE_PATH {
      TextSteps(p, 0x33, q.names.storage);
    } else if q.kind == CLEAR_OTA_SCOPE {
      TextSteps(p, 0x34, q.names.scope);
    } else if q.kind == APPLY_OTA_IMAGE {
      TextSteps(p, 0x35, q.names.target);
    } else if q.kind == TOPOLOGY_STAGE_BEGIN {
      BeginSteps(p, q.begin);
    } else if q.kind == TOPOLOGY_STAGE_SLOT_SET {
      SlotSteps(p, q.slot, q.groupId, q.delays);
    } else if q.kind == TOPOLOGY_STAGE_GROUP_SET {
      GroupSteps(p, q.group, q.groupId);
    } else if q.kind == TOPOLOGY_TRIGGER_SEND {
      TriggerSteps(p, q.trigger, q.delays);
    } else {
      NoSteps(p);
    }
  }

  lemma {:induction false} PageSteps(p: Parsing, q: Query)
    requires p.query.page == NO_PAGE
    ensures Steps(p, PageTlvs(q))
         == if q.page.paged && SupportsPaging(q.kind) then p.(query := p.query.(page := q.page)) else p
  {
    hide Step, Steps;
    if q.page.paged && SupportsPaging(q.kind) {
      Steps3(p, BoolOf(0x15, true), U16Of(0x16, q.page.cursor), U8Of(0x17, q.page.size));
      StepBool(p, 0x15, true);
      var p1 := p.(query := SetBool(p.query, 0x15, true));
      StepU16(p1, 0x16, q.page.cursor);
      var p2 := p1.(query := SetU16(p1.query, 0x16, q.page.cursor));
      StepU8(p2, 0x17, q.page.size);
    } else {
      NoSteps(p);
    }
  }

  lemma EncodedSteps(q: Query)
    requires EncodeTlvs(q).Some?
    ensures Steps(Parsing(FRESH, false), EncodeTlvs(q).value)
         == Parsing(if q.page.paged && SupportsPaging(q.kind) then Raw(q).(page := q.page) else Raw(q), true)
  {
    hide Steps, BodyTlvs, PageTlvs, HeadTlvs, Relevant, SupportsPaging;
    var p, body := Parsing(FRESH, false), BodyTlvs(q).value;
    StepsAppend(p, HeadTlvs(q.kind) + body, PageTlvs(q));
    StepsAppend(p, HeadTlvs(q.kind), body);
    HeadSteps(q.kind);
    BodySteps(q);
    RelevantHasNoPage(q);
    PageSteps(Parsing(Raw(q), true), q);
  }

  lemma RelevantHasNoPage(q: Query)
    ensures Raw(q).page == NO_PAGE && Raw(q).kind == Relevant(q).kind == q.kind
  {
  }

  lemma EncodedLength(q: Query)
    requires EncodeTlvs(q).Some?
    ensures AllFit(EncodeTlvs(q).value) && |AllBytes(EncodeTlvs(q).value)| >= 8
  {
    hide AllBytes, BodyTlvs, PageTlvs;
    EncodeFits(q);
    AllBytesLength(EncodeTlvs(q).value);
  }

  /** Validity is a matter of the relevant fields, and neither paging nor the bundle mask bears on it. */
  lemma ValidWhenPaged(q: Query, page: Paging, mask: byte)
    ensures Valid(q.(page := page)) <==> Valid(q)
    ensures q.kind == GET_NODE_BUNDLE ==> (Valid(q.(mask := mask)) <==> Valid(q))
  {
  }

  /** Parsing an encoded query gives its normal form when that is valid, and nothing otherwise. */
  lemma ParseEncoded(q: Query)
    requires Encode(q).Some?
    ensures Parse(Encode(q).value) == if Valid(Normal(q)) then Some(Normal(q)) else None
  {
    hide Steps, AllBytes, Scan, Valid, EncodeTlvs, Relevant, SupportsPaging;
    var ts := EncodeTlvs(q).value;
    EncodedLength(q);
    ScanInverts(ts, []);
    assert AllBytes(ts) + [] == AllBytes(ts);
    EncodedSteps(q);
    RelevantHasNoPage(q);
    ValidWhenPaged(Raw(q), q.page, 0);
    ValidWhenPaged(Relevant(q), q.page, if q.mask == 0 then BUNDLE_ALL else q.mask);
    if q.kind == GET_NODE_BUNDLE {
      BundleMask(q);
    }
  }

  lemma BundleMask(q: Query)
    requires q.kind == GET_NODE_BUNDLE
    ensures KnownMask(if q.mask == 0 then BUNDLE_ALL else q.mask) == Relevant(q).mask
  {
  }

  /** A query the parser could have produced comes back unchanged. */
  lemma NormalTwice(q: Query)
    ensures Normal(Normal(q)) == Normal(q)
  {
  }

  // ---------------------------------------------------------------- tags that are ignored


  lemma {:induction false} IgnoredSteps(p: Parsing, t: Tlv, ts: seq<Tlv>)
    requires t.tag !in KNOWN_TAGS
    ensures Steps(p, [t] + ts) == Steps(p, ts)
  {
    hide Steps;
    StepsAppend(p, [t], ts);
    Steps1(p, t);
  }

  const KNOWN_TAGS: set<int> :=
    {0x10, 0x11, 0x12, 0x13, 0x14, 0x15, 0x16, 0x17, 0x30, 0x31, 0x32, 0x33, 0x34, 0x35, 0x40, 0x41, 0x42, 0x43,
     0x44, 0x45, 0x46, 0x47, 0x48, 0x49, 0x4A, 0x4B, 0x4C, 0x4D, 0x4E, 0x50, 0x51, 0x52, 0x53, 0x54, 0x55, 0x56,
     0x57, 0x58, 0x59}

  /** Unknown tags change nothing, wherever they are inserted; only the minimum length can tell. */
  lemma {:induction false} UnknownTagsDoNothing(a: seq<Tlv>, t: Tlv, b: seq<Tlv>)
    requires AllFit(a) && Fits(t) && AllFit(b) && t.tag !in KNOWN_TAGS
    requires AllFit(a + b) && AllFit(a + [t] + b) && |AllBytes(a + b)| >= 8
    ensures Parse(AllBytes(a + [t] + b)) == Parse(AllBytes(a + b))
  {
    hide Step, Steps, AllBytes, Scan, Finish;
    ScanInverts(a + b, []);
    ScanInverts(a + [t] + b, []);
    assert AllBytes(a + b) + [] == AllBytes(a + b) && AllBytes(a + [t] + b) + [] == AllBytes(a + [t] + b);
    LongerWith(a, t, b);
    var p := Parsing(FRESH, false);
    StepsAppend(p, a, b);
    assert a + [t] + b == a + ([t] + b);
    StepsAppend(p, a, [t] + b);
    IgnoredSteps(Steps(p, a), t, b);
  }

  // ---------------------------------------------------------------- the parser over a byte vector

  /** The parse from an offset on, with what has been parsed so far. */
  ghost function ParseRest(p: Parsing, b: seq<byte>, off: nat): Option<Parsing> {
    match ScanFrom(b, off)
    case None => None
    case Some(ts) => Some(Steps(p, ts))
  }

  lemma ParseOn(p: Parsing, b: seq<byte>, off: nat)
    ensures off + 4 > |b| ==> ParseRest(p, b, off) == Some(p)
    ensures off + 4 <= |b| && off + 4 + ValueLength(b, off) > |b| ==> ParseRest(p, b, off) == None
    ensures off + 4 <= |b| && off + 4 + ValueLength(b, off) <= |b| ==>
              var n := ValueLength(b, off);
              ParseRest(p, b, off) == ParseRest(Step(p, Tlv(b[off], b[off + 1], b[off + 4..off + 4 + n])), b,
                                                off + 4 + n)
  {
    hide Step, ScanFrom, ValueLength;
    ScanStep(b, off);
  }

  method ParseDescriptorQuery(b: seq<byte>) returns (r: Option<Query>)
    ensures r == Parse(b)
  {
    hide Step, ScanFrom, Steps, ValueLength, Finish;
    if |b| < 8 {
      return None;
    }
    var p := Parsing(FRESH, false);
    var off: nat := 0;
    while off + 4 <= |b|
      invariant ParseRest(Parsing(FRESH, false), b, 0) == ParseRest(p, b, off)
      decreases |b| - off
    {
      ParseOn(p, b, off);
      var n := ValueLength(b, off);
      if off + 4 + n > |b| {
        return None;
      }
      p := Step(p, Tlv(b[off], b[off + 1], b[off + 4..off + 4 + n]));
      off := off + 4 + n;
    }
    ParseOn(p, b, off);
    return Finish(p);
  }
}
