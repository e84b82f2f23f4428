/**
 Staging frames as descriptor queries on the wire: which of them the slave's parser hands over unchanged, and so
 which snapshots accepted by the master can be staged at all.
*/
module TopologyWire {
  import opened Options
  import opened TopologyTypes
  import TopologyPayload
  import opened TopologyStaging
  import opened TopologyStagingSafety
  import Q = DescriptorQuery

  function FrameQuery(f: StageFrame): Q.Query {
    match f
    case Clear => Q.FRESH.(kind := Q.TOPOLOGY_STAGE_CLEAR)
    case BeginStage(schema, version, neg, pos) =>
      Q.FRESH.(kind := Q.TOPOLOGY_STAGE_BEGIN, begin := Q.BeginRef(schema, version, neg, pos))
    case SetGroup(g) =>
      Q.FRESH.(kind := Q.TOPOLOGY_STAGE_GROUP_SET, group := Q.GroupRef(g.slot, g.enabled, g.seed), groupId := g.id)
    case SetSlot(s) =>
      Q.FRESH.(kind := Q.TOPOLOGY_STAGE_SLOT_SET,
               slot := Q.SlotRef(s.index, s.enabled, s.peer, s.peerRole, s.relativeIndex, s.localVi, s.peerVi,
                                 s.axisOrder),
               groupId := s.groupId, delays := Q.Delays(s.delayMs, s.holdMs))
    case Finalize => Q.FRESH.(kind := Q.TOPOLOGY_STAGE_FINALIZE)
    case Commit => Q.FRESH.(kind := Q.TOPOLOGY_COMMIT)
  }

  /** The frame the slave acts on. */
  function QueryFrame(q: Q.Query): Option<StageFrame> {
    if q.kind == Q.TOPOLOGY_STAGE_CLEAR then Some(Clear)
    else if q.kind == Q.TOPOLOGY_STAGE_BEGIN
        then Some(BeginStage(q.begin.schema, q.begin.version, q.begin.neg, q.begin.pos))
    else if q.kind == Q.TOPOLOGY_STAGE_GROUP_SET
        then Some(SetGroup(Group(q.group.slot, q.group.enabled, q.groupId, q.group.seed)))
    else if q.kind == Q.TOPOLOGY_STAGE_SLOT_SET then
      Some(SetSlot(Slot(q.slot.index, q.slot.enabled, q.slot.peer, q.slot.role, q.groupId, q.slot.relative,
                        q.slot.localVi, q.slot.peerVi, q.slot.axis, q.delays.delay, q.delays.hold)))
    else if q.kind == Q.TOPOLOGY_STAGE_FINALIZE then Some(Finalize)
    else if q.kind == Q.TOPOLOGY_COMMIT then Some(Commit)
    else None
  }

  /** The frame as it comes out of the slave's query parser; `None` when the parser refuses it. */
  function Delivered(f: StageFrame): Option<StageFrame> {
    match Q.Encode(FrameQuery(f))
    case None => None
    case Some(b) =>
      match Q.Parse(b)
      case None => None
      case Some(q) => QueryFrame(q)
  }

  predicate SlotStageable(s: Slot) {
    s.index < MAX_SLOTS && (s.enabled ==> s.peerRole != 0 && s.relativeIndex != 0 && s.groupId != 0)
  }

  predicate GroupStageable(g: Group) {
    g.slot < MAX_GROUPS && (g.enabled ==> g.id != 0)
  }

  predicate FrameStageable(f: StageFrame) {
    match f
    case BeginStage(_, version, _, _) => version != 0
    case SetGroup(g) => GroupStageable(g)
    case SetSlot(s) => SlotStageable(s)
    case _ => true
  }

  function NormalFrame(f: StageFrame): StageFrame {
    if f.SetGroup? then SetGroup(TopologyPayload.NormalGroup(f.group)) else f
  }

  lemma FrameEncodes(f: StageFrame)
    ensures Q.Encode(FrameQuery(f)).Some?
  {
    hide Q.SlotTlvs, Q.GroupTlvs, Q.PageTlvs, Q.HeadTlvs;
  }

  lemma FrameQueryNormal(f: StageFrame)
    ensures Q.Normal(FrameQuery(f)) == FrameQuery(NormalFrame(f))
  {
  }

  lemma FrameQueryValid(f: StageFrame)
    ensures Q.Valid(FrameQuery(NormalFrame(f))) <==> FrameStageable(f)
  {
  }

  lemma FrameOfQuery(f: StageFrame)
    ensures QueryFrame(FrameQuery(f)) == Some(f)
  {
  }

  /** A frame arrives unchanged, apart from the seed of a disabled group, exactly when it is stageable. */
  lemma FrameDelivered(f: StageFrame)
    ensures Delivered(f) == if FrameStageable(f) then Some(NormalFrame(f)) else None
  {
    hide Q.Encode, Q.Parse, Q.Valid, Q.Normal, QueryFrame, FrameQuery, FrameStageable, NormalFrame;
    FrameEncodes(f);
    FrameQueryNormal(f);
    FrameQueryValid(f);
    FrameOfQuery(NormalFrame(f));
    Q.ParseEncoded(FrameQuery(f));
  }

  predicate Stageable(snap: Snapshot) {
    && snap.version != 0
    && (forall i :: 0 <= i < |snap.groups| ==> GroupStageable(snap.groups[i]))
    && (forall i :: 0 <= i < |snap.slots| ==> SlotStageable(snap.slots[i]))
  }

  ghost predicate AllDelivered(fs: seq<StageFrame>) {
    forall i :: 0 <= i < |fs| ==> Delivered(fs[i]) == Some(fs[i])
  }

  /**
   Of the snapshots the master accepts, exactly those with a version, and with ids on every enabled slot and
   group, have a script the slave's parser lets through; the others can never be staged.
  */
  lemma ScriptDelivered(snap: Snapshot)
    requires TopologyPayload.Valid(snap)
    ensures AllDelivered(Script(snap)) <==> Stageable(snap)
  {
    hide Delivered, Script, NormalFrame, SlotStageable, GroupStageable, TopologyPayload.SlotsDistinct,
      TopologyPayload.GroupsDistinct;
    var script := Script(snap);
    var g, n := |snap.groups|, |snap.groups| + |snap.slots| + 3;
    ScriptAt(snap, 0);
    forall k | 0 <= k < n ensures Delivered(script[k]) == Some(script[k]) <==> FrameStageable(script[k]) {
      ScriptAt(snap, k);
      FrameDelivered(script[k]);
      NormalAlready(snap, script[k]);
    }
    if AllDelivered(script) {
      ScriptAt(snap, 1);
      assert FrameStageable(script[1]);
      forall i | 0 <= i < g ensures GroupStageable(snap.groups[i]) {
        ScriptAt(snap, 2 + i);
        assert FrameStageable(script[2 + i]);
      }
      forall i | 0 <= i < |snap.slots| ensures SlotStageable(snap.slots[i]) {
        ScriptAt(snap, 2 + g + i);
        assert FrameStageable(script[2 + g + i]);
      }
    }
    if Stageable(snap) {
      forall k | 0 <= k < n ensures FrameStageable(script[k]) {
        ScriptAt(snap, k);
      }
    }
  }

  lemma NormalAlready(snap: Snapshot, f: StageFrame)
    requires TopologyPayload.Valid(snap) && (f.SetGroup? ==> f.group in snap.groups)
    ensures NormalFrame(f) == f
  {
  }
}
