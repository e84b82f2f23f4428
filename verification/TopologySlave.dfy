/**
 The slave's staging session: what it applies when the frames of one stage request are delivered, and exactly
 how far duplicates and losses may go before an acknowledged stage no longer stands for the master's snapshot.
*/
module TopologySlave {
  import opened FixedWidth
  import opened Options
  import opened TopologyTypes
  import opened TopologyPayload
  import opened TopologyStaging
  import opened TopologyStagingSafety

  /** The session's snapshot: records by slot number, as its arrays hold them. */
  datatype Staged = Staged(schema: byte, version: uint32, neg: byte, pos: byte, slots: map<int, Slot>,
                           groups: map<int, Group>)

  const NOTHING_STAGED := Staged(1, 0, 0, 0, map[], map[])

  datatype SlaveStage = SlaveStage(active: bool, staged: Staged, applied: Option<Staged>)

  /** One topology frame: the session after it, and whether it is acknowledged (rather than refused). */
  function OnFrame(t: SlaveStage, f: StageFrame): (SlaveStage, bool) {
    match f
    case Clear => (t.(active := false, staged := NOTHING_STAGED), true)
    case BeginStage(schema, version, neg, pos) =>
      (t.(active := true, staged := NOTHING_STAGED.(schema := schema, version := version, neg := neg, pos := pos)),
       true)
    case SetSlot(s) =>
      if !t.active || s.index >= MAX_SLOTS then (t, false)
      else (t.(staged := t.staged.(slots := t.staged.slots[s.index as int := s])), true)
    case SetGroup(g) =>
      if !t.active || g.slot >= MAX_GROUPS then (t, false)
      else (t.(staged := t.staged.(groups := t.staged.groups[g.slot as int := g])), true)
    case Finalize =>
      if !t.active then (t, false)
      else (SlaveStage(false, NOTHING_STAGED, Some(t.staged)), true)
    case Commit => (t, true)
  }

  /**
   A record or the end is acknowledged exactly while a stage is open, a record only inside the tables; the other frames
   always are. A refused frame changes nothing, and only an acknowledged end applies anything.
  */
  lemma SlaveAnswersExactly(t: SlaveStage, f: StageFrame)
    ensures var (t', ok) := OnFrame(t, f);
            && (f.Clear? || f.BeginStage? || f.Commit? ==> ok)
            && (f.SetSlot? ==> (ok <==> t.active && f.slot.index < 13))
            && (f.SetGroup? ==> (ok <==> t.active && f.group.slot < 12))
            && (f.Finalize? ==> (ok <==> t.active))
            && (!ok ==> t' == t)
            && t'.applied == (if f.Finalize? && ok then Some(t.staged) else t.applied)
            && (t'.active <==> f.BeginStage? || (t.active && !f.Clear? && !f.Finalize?))
  {
  }

  /** A sequence of frames delivered in order; `None` once one is refused. */
  function Replay(t: SlaveStage, fs: seq<StageFrame>): Option<SlaveStage> {
    if fs == [] then Some(t)
    else
      match Replay(t, fs[..|fs| - 1])
      case None => None
      case Some(t1) => var (t2, ok) := OnFrame(t1, fs[|fs| - 1]); if ok then Some(t2) else None
  }

  /** The table has exactly these records. */
  ghost predicate HoldsGroups(m: map<int, Group>, xs: seq<Group>) {
    && (forall i :: 0 <= i < |xs| ==> xs[i].slot in m && m[xs[i].slot] == xs[i])
    && (forall k :: k in m ==> exists i :: 0 <= i < |xs| && xs[i].slot == k)
  }

  ghost predicate GroupSlotsOk(xs: seq<Group>) {
    && (forall i :: 0 <= i < |xs| ==> xs[i].slot < MAX_GROUPS)
    && forall i, j :: 0 <= i < j < |xs| ==> xs[i].slot != xs[j].slot
  }

  lemma {:induction false} DistinctGroups(xs: seq<Group>, seen: set<int>)
    requires GroupsDistinct(xs, seen)
    ensures GroupSlotsOk(xs) && forall i :: 0 <= i < |xs| ==> xs[i].slot !in seen
    decreases |xs|
  {
    if xs != [] {
      DistinctGroups(xs[1..], seen + {xs[0].slot});
      forall i | 0 < i < |xs| ensures xs[i] == xs[1..][i - 1] {}
    }
  }

  /** The table has exactly these records. */
  ghost predicate HoldsSlots(m: map<int, Slot>, xs: seq<Slot>) {
    && (forall i :: 0 <= i < |xs| ==> xs[i].index in m && m[xs[i].index] == xs[i])
    && (forall k :: k in m ==> exists i :: 0 <= i < |xs| && xs[i].index == k)
  }

  ghost predicate IndicesOk(xs: seq<Slot>) {
    && (forall i :: 0 <= i < |xs| ==> xs[i].index < MAX_SLOTS)
    && forall i, j :: 0 <= i < j < |xs| ==> xs[i].index != xs[j].index
  }

  lemma {:induction false} DistinctSlots(xs: seq<Slot>, seen: set<int>)
    requires SlotsDistinct(xs, seen)
    ensures IndicesOk(xs) && forall i :: 0 <= i < |xs| ==> xs[i].index !in seen
    decreases |xs|
  {
    if xs != [] {
      DistinctSlots(xs[1..], seen + {xs[0].index});
      forall i | 0 < i < |xs| ensures xs[i] == xs[1..][i - 1] {}
    }
  }

  /** What the applied configuration must be for a snapshot. */
  ghost predicate Holds(a: Staged, snap: Snapshot) {
    && a.schema == snap.schema && a.version == snap.version && a.neg == snap.neg && a.pos == snap.pos
    && HoldsSlots(a.slots, snap.slots) && HoldsGroups(a.groups, snap.groups)
  }

  /** A record frame of the snapshot. */
  ghost predicate RecordFrame(snap: Snapshot, f: StageFrame) {
    || (f.SetGroup? && f.group in snap.groups)
    || (f.SetSlot? && f.slot in snap.slots)
  }

  ghost predicate RecordFrames(snap: Snapshot, fs: seq<StageFrame>) {
    forall i :: 0 <= i < |fs| ==> RecordFrame(snap, fs[i])
  }

  /** The session holds the records of exactly the frames `fs`. */
  ghost predicate StagedFrom(t: SlaveStage, fs: seq<StageFrame>) {
    && (forall k :: k in t.staged.groups ==> t.staged.groups[k].slot == k && SetGroup(t.staged.groups[k]) in fs)
    && (forall k :: k in t.staged.slots ==> t.staged.slots[k].index == k && SetSlot(t.staged.slots[k]) in fs)
    && (forall i :: 0 <= i < |fs| && fs[i].SetGroup? ==> fs[i].group.slot in t.staged.groups)
    && (forall i :: 0 <= i < |fs| && fs[i].SetSlot? ==> fs[i].slot.index in t.staged.slots)
  }

  /** Record frames are all acknowledged, and staged, whatever their order and repetition. */
  lemma {:induction false} ReplayRecords(t: SlaveStage, snap: Snapshot, fs: seq<StageFrame>)
    requires t.active && t.staged.groups == map[] && t.staged.slots == map[]
    requires GroupSlotsOk(snap.groups) && IndicesOk(snap.slots) && RecordFrames(snap, fs)
    ensures var r := Replay(t, fs);
            && r.Some? && r.value.active && r.value.applied == t.applied && StagedFrom(r.value, fs)
            && r.value.staged == t.staged.(groups := r.value.staged.groups, slots := r.value.staged.slots)
    decreases |fs|
  {
    if fs != [] {
      var n := |fs| - 1;
      ReplayRecords(t, snap, fs[..n]);
      assert RecordFrame(snap, fs[n]) && fs == fs[..n] + [fs[n]];
      var t1 := Replay(t, fs[..n]).value;
      RecordStaged(t1, fs[..n], fs[n]);
      assert Replay(t, fs) == Some(OnFrame(t1, fs[n]).0);
      hide Replay, OnFrame, StagedFrom;
    }
  }

  lemma RecordStaged(t: SlaveStage, fs: seq<StageFrame>, f: StageFrame)
    requires t.active && StagedFrom(t, fs)
    requires (f.SetGroup? && f.group.slot < MAX_GROUPS) || (f.SetSlot? && f.slot.index < MAX_SLOTS)
    ensures OnFrame(t, f).1
    ensures var r := OnFrame(t, f).0;
            && r.active && r.applied == t.applied && StagedFrom(r, fs + [f])
            && r.staged == t.staged.(groups := r.staged.groups, slots := r.staged.slots)
  {
    var gs := fs + [f];
    assert forall x :: x in gs <==> x in fs || x == f;
  }

  /** Every record of the snapshot has a frame among `fs`. */
  ghost predicate AllRecordsIn(snap: Snapshot, fs: seq<StageFrame>) {
    && (forall i :: 0 <= i < |snap.groups| ==> SetGroup(snap.groups[i]) in fs)
    && (forall i :: 0 <= i < |snap.slots| ==> SetSlot(snap.slots[i]) in fs)
  }

  lemma GroupOfFrames(t: SlaveStage, snap: Snapshot, fs: seq<StageFrame>)
    requires StagedFrom(t, fs) && GroupSlotsOk(snap.groups) && RecordFrames(snap, fs)
    ensures HoldsGroups(t.staged.groups, snap.groups)
        <==> forall i :: 0 <= i < |snap.groups| ==> SetGroup(snap.groups[i]) in fs
  {
    var m, xs := t.staged.groups, snap.groups;
    forall i | 0 <= i < |xs| ensures SetGroup(xs[i]) in fs <==> xs[i].slot in m && m[xs[i].slot] == xs[i] {
      if SetGroup(xs[i]) in fs {
        var k :| 0 <= k < |fs| && fs[k] == SetGroup(xs[i]);
        GroupIsUnique(t, snap, fs, xs[i].slot, i);
      }
    }
    forall k | k in m ensures exists i :: 0 <= i < |xs| && xs[i].slot == k {
      var j :| 0 <= j < |fs| && fs[j] == SetGroup(m[k]);
      assert RecordFrame(snap, fs[j]);
      var i :| 0 <= i < |xs| && xs[i] == m[k];
    }
  }

  lemma GroupIsUnique(t: SlaveStage, snap: Snapshot, fs: seq<StageFrame>, k: int, i: nat)
    requires StagedFrom(t, fs) && GroupSlotsOk(snap.groups) && RecordFrames(snap, fs)
    requires i < |snap.groups| && snap.groups[i].slot == k && k in t.staged.groups
    ensures t.staged.groups[k] == snap.groups[i]
  {
    var j :| 0 <= j < |fs| && fs[j] == SetGroup(t.staged.groups[k]);
    assert RecordFrame(snap, fs[j]);
    var h :| 0 <= h < |snap.groups| && snap.groups[h] == t.staged.groups[k];
  }

  lemma SlotOfFrames(t: SlaveStage, snap: Snapshot, fs: seq<StageFrame>)
    requires StagedFrom(t, fs) && IndicesOk(snap.slots) && RecordFrames(snap, fs)
    ensures HoldsSlots(t.staged.slots, snap.slots)
        <==> forall i :: 0 <= i < |snap.slots| ==> SetSlot(snap.slots[i]) in fs
  {
    var m, xs := t.staged.slots, snap.slots;
    forall i | 0 <= i < |xs| ensures SetSlot(xs[i]) in fs <==> xs[i].index in m && m[xs[i].index] == xs[i] {
      if SetSlot(xs[i]) in fs {
        var k :| 0 <= k < |fs| && fs[k] == SetSlot(xs[i]);
        SlotIsUnique(t, snap, fs, xs[i].index, i);
      }
    }
    forall k | k in m ensures exists i :: 0 <= i < |xs| && xs[i].index == k {
      var j :| 0 <= j < |fs| && fs[j] == SetSlot(m[k]);
      assert RecordFrame(snap, fs[j]);
      var i :| 0 <= i < |xs| && xs[i] == m[k];
    }
  }

  lemma SlotIsUnique(t: SlaveStage, snap: Snapshot, fs: seq<StageFrame>, k: int, i: nat)
    requires StagedFrom(t, fs) && IndicesOk(snap.slots) && RecordFrames(snap, fs)
    requires i < |snap.slots| && snap.slots[i].index == k && k in t.staged.slots
    ensures t.staged.slots[k] == snap.slots[i]
  {
    var j :| 0 <= j < |fs| && fs[j] == SetSlot(t.staged.slots[k]);
    assert RecordFrame(snap, fs[j]);
    var h :| 0 <= h < |snap.slots| && snap.slots[h] == t.staged.slots[k];
  }

  function BeginOf(snap: Snapshot): StageFrame {
    BeginStage(snap.schema, snap.version, snap.neg, snap.pos)
  }

  lemma {:induction false} BeginReplays(t: SlaveStage, snap: Snapshot)
    ensures Replay(t, [BeginOf(snap)])
              == Some(SlaveStage(true, Staged(snap.schema, snap.version, snap.neg, snap.pos, map[], map[]), t.applied))
  {
    assert [BeginOf(snap)][..0] == [];
  }

  lemma {:induction false} FinalReplays(t: SlaveStage)
    requires t.active
    ensures Replay(t, [Finalize]) == Some(SlaveStage(false, NOTHING_STAGED, Some(t.staged)))
  {
    assert [Finalize][..0] == [];
  }

  lemma {:induction false} ReplayAppend(t: SlaveStage, a: seq<StageFrame>, b: seq<StageFrame>)
    requires Replay(t, a).Some?
    ensures Replay(t, a + b) == Replay(Replay(t, a).value, b)
    decreases |b|
  {
    hide OnFrame;
    if b == [] {
      assert a + b == a;
    } else {
      ReplayAppend(t, a, b[..|b| - 1]);
      assert (a + b)[..|a + b| - 1] == a + b[..|b| - 1];
    }
  }

  /**
   Between the last begin frame to arrive and the finalize frame, record frames may be repeated and reordered:
   the finalize frame is always acknowledged, and what is then applied is the master's snapshot if and only if
   every record arrived since that begin frame. A begin frame delivered again behind a record therefore loses it.
  */
  lemma {:induction false} AppliedIffAllRecordsSinceBegin(t: SlaveStage, snap: Snapshot, fs: seq<StageFrame>)
    requires Valid(snap) && RecordFrames(snap, fs)
    ensures var r := Replay(t, [BeginOf(snap)] + fs + [Finalize]);
            && r.Some? && r.value.applied.Some? && !r.value.active
            && (Holds(r.value.applied.value, snap) <==> AllRecordsIn(snap, fs))
  {
    hide Replay, OnFrame, SlotsDistinct, GroupsDistinct, NormalGroup, StagedFrom, RecordFrames, HoldsSlots, HoldsGroups,
      IndicesOk, GroupSlotsOk;
    DistinctSlots(snap.slots, {});
    DistinctGroups(snap.groups, {});
    var t1 := SlaveStage(true, Staged(snap.schema, snap.version, snap.neg, snap.pos, map[], map[]), t.applied);
    BeginReplays(t, snap);
    ReplayRecords(t1, snap, fs);
    var t2 := Replay(t1, fs).value;
    FinalReplays(t2);
    ReplayAppend(t, [BeginOf(snap)], fs);
    ReplayAppend(t, [BeginOf(snap)] + fs, [Finalize]);
    GroupOfFrames(t2, snap, fs);
    SlotOfFrames(t2, snap, fs);
  }

  /**
   From whatever state the slave is in, the script of a valid snapshot is acknowledged frame by frame, and
   leaves the slave with exactly that snapshot applied.
  */
  lemma {:induction false} ScriptInstallsSnapshot(t: SlaveStage, snap: Snapshot)
    requires Valid(snap)
    ensures var r := Replay(t, Script(snap));
            r.Some? && !r.value.active && r.value.applied.Some? && Holds(r.value.applied.value, snap)
  {
    var records := GroupFrames(snap.groups) + SlotFrames(snap.slots);
    assert Script(snap) == [Clear] + ([BeginOf(snap)] + records + [Finalize]);
    AllRecords(snap, records);
    hide Script, Holds, RecordFrames, AllRecordsIn, Valid, GroupFrames, SlotFrames;
    assert [Clear][..0] == [];
    var t1 := OnFrame(t, Clear).0;
    assert Replay(t, [Clear]) == Some(t1);
    hide Replay, OnFrame;
    ReplayAppend(t, [Clear], [BeginOf(snap)] + records + [Finalize]);
    AppliedIffAllRecordsSinceBegin(t1, snap, records);
  }

  lemma AllRecords(snap: Snapshot, records: seq<StageFrame>)
    requires records == GroupFrames(snap.groups) + SlotFrames(snap.slots)
    ensures RecordFrames(snap, records) && AllRecordsIn(snap, records)
  {
    forall i | 0 <= i < |snap.groups| ensures SetGroup(snap.groups[i]) in records {
      assert records[i] == SetGroup(snap.groups[i]);
    }
    forall i | 0 <= i < |snap.slots| ensures SetSlot(snap.slots[i]) in records {
      assert records[|snap.groups| + i] == SetSlot(snap.slots[i]);
    }
  }
}
