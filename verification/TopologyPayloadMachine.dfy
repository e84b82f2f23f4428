/** The payload builder and parser as loops over a byte vector, with the seen-index arrays of the original. */
module TopologyPayloadMachine {
  import opened FixedWidth
  import opened Options
  import opened LittleEndian
  import opened TopologyTypes
  import opened TopologyPayload

  method AppendSlots(payload: seq<byte>, slots: seq<Slot>, n: nat) returns (out: seq<byte>)
    requires n == Min(|slots|, MAX_SLOTS)
    ensures out == payload + AllSlotBytes(Take(slots, MAX_SLOTS))
  {
    ghost var taken := Take(slots, MAX_SLOTS);
    out := payload;
    var i := 0;
    hide SlotBytes;
    assert taken[0..] == taken;
    while i < n
      invariant 0 <= i <= n
      invariant out + AllSlotBytes(taken[i..]) == payload + AllSlotBytes(taken)
    {
      assert slots[i] == taken[i] && taken[i..][1..] == taken[i + 1..];
      out := out + SlotBytes(slots[i]);
      i := i + 1;
    }
  }

  method AppendGroups(payload: seq<byte>, groups: seq<Group>, n: nat) returns (out: seq<byte>)
    requires n == Min(|groups|, MAX_GROUPS)
    ensures out == payload + AllGroupBytes(Take(groups, MAX_GROUPS))
  {
    ghost var taken := Take(groups, MAX_GROUPS);
    out := payload;
    var i := 0;
    hide GroupBytes;
    assert taken[0..] == taken;
    while i < n
      invariant 0 <= i <= n
      invariant out + AllGroupBytes(taken[i..]) == payload + AllGroupBytes(taken)
    {
      assert groups[i] == taken[i] && taken[i..][1..] == taken[i + 1..];
      out := out + GroupBytes(groups[i]);
      i := i + 1;
    }
  }

  method BuildTopologyStagePayload(snap: Snapshot) returns (payload: seq<byte>)
    ensures payload == Build(snap)
  {
    hide U32Bytes, AllSlotBytes, AllGroupBytes;
    var slotN, groupN := Min(|snap.slots|, MAX_SLOTS), Min(|snap.groups|, MAX_GROUPS);
    payload := [snap.schema, 0] + U32Bytes(snap.version) + [snap.neg, snap.pos, slotN, groupN];
    payload := AppendSlots(payload, snap.slots, slotN);
    payload := AppendGroups(payload, snap.groups, groupN);
  }

  /** The indices an array of flags has marked. */
  ghost function Marked(flags: array<bool>): set<int>
    reads flags
  {
    set k | 0 <= k < flags.Length && flags[k]
  }

  function Continue<T>(done: seq<T>, rest: Option<(seq<T>, nat)>): Option<(seq<T>, nat)> {
    match rest
    case None => None
    case Some(r) => Some((done + r.0, r.1))
  }

  lemma ContinueOne<T>(done: seq<T>, x: T, rest: Option<(seq<T>, nat)>)
    ensures Continue(done, Continue([x], rest)) == Continue(done + [x], rest)
  {
    match rest {
      case None =>
      case Some(r) =>
        assert done + ([x] + r.0) == done + [x] + r.0;
    }
  }

  lemma ContinueNothing<T>(rest: Option<(seq<T>, nat)>)
    ensures Continue([], rest) == rest
  {
    match rest {
      case None =>
      case Some(r) => assert [] + r.0 == r.0;
    }
  }

  lemma SlotsUnfold(b: seq<byte>, off: nat, n: nat, seen: set<int>, done: seq<Slot>)
    ensures n == 0 ==> Continue(done, ParseSlots(b, off, n, seen)) == Some((done, off))
    ensures n > 0 && (|b| < off + SLOT_BYTES || b[off] >= MAX_SLOTS || b[off] in seen) ==>
        ParseSlots(b, off, n, seen) == None
    ensures n > 0 && !(|b| < off + SLOT_BYTES || b[off] >= MAX_SLOTS || b[off] in seen) ==>
              Continue(done, ParseSlots(b, off, n, seen))
                == Continue(done + [SlotAt(b, off)], ParseSlots(b, off + SLOT_BYTES, n - 1, seen + {b[off]}))
  {
    hide SlotAt;
    if n == 0 {
      assert done + [] == done;
    } else if !(|b| < off + SLOT_BYTES || b[off] >= MAX_SLOTS || b[off] in seen) {
      ContinueOne(done, SlotAt(b, off), ParseSlots(b, off + SLOT_BYTES, n - 1, seen + {b[off]}));
    }
  }

  method ParseSlotRecords(b: seq<byte>, n: nat) returns (r: Option<(seq<Slot>, nat)>)
    ensures r == ParseSlots(b, 10, n, {})
  {
    hide SlotAt, ParseSlots;
    var flags := new bool[MAX_SLOTS](_ => false);
    var off: nat, i: nat := 10, 0;
    var slots: seq<Slot> := [];
    assert Marked(flags) == {};
    ContinueNothing(ParseSlots(b, 10, n, {}));
    while i < n
      invariant 0 <= i <= n && flags.Length == MAX_SLOTS
      invariant ParseSlots(b, 10, n, {}) == Continue(slots, ParseSlots(b, off, n - i, Marked(flags)))
    {
      SlotsUnfold(b, off, n - i, Marked(flags), slots);
      if |b| < off + SLOT_BYTES || b[off] >= MAX_SLOTS || flags[b[off]] {
        return None;
      }
      ghost var before := Marked(flags);
      flags[b[off]] := true;
      assert Marked(flags) == before + {b[off] as int};
      slots := slots + [SlotAt(b, off)];
      off := off + SLOT_BYTES;
      i := i + 1;
    }
    SlotsUnfold(b, off, n - i, Marked(flags), slots);
    return Some((slots, off));
  }

  lemma GroupsUnfold(b: seq<byte>, off: nat, n: nat, seen: set<int>, done: seq<Group>)
    ensures n == 0 ==> Continue(done, ParseGroups(b, off, n, seen)) == Some((done, off))
    ensures n > 0 && !GroupReadable(b, off, seen) ==> ParseGroups(b, off, n, seen) == None
    ensures n > 0 && GroupReadable(b, off, seen) ==>
              Continue(done, ParseGroups(b, off, n, seen))
                == Continue(done + [GroupAt(b, off)], ParseGroups(b, off + 4 + b[off + 3], n - 1, seen + {b[off]}))
  {
    hide GroupAt;
    if n == 0 {
      assert done + [] == done;
    } else if GroupReadable(b, off, seen) {
      ContinueOne(done, GroupAt(b, off), ParseGroups(b, off + 4 + b[off + 3], n - 1, seen + {b[off]}));
    }
  }

  method ParseGroupRecords(b: seq<byte>, start: nat, n: nat) returns (r: Option<(seq<Group>, nat)>)
    ensures r == ParseGroups(b, start, n, {})
  {
    hide GroupAt, ParseGroups;
    var flags := new bool[MAX_GROUPS](_ => false);
    var off: nat, i: nat := start, 0;
    var groups: seq<Group> := [];
    assert Marked(flags) == {};
    ContinueNothing(ParseGroups(b, start, n, {}));
    while i < n
      invariant 0 <= i <= n && flags.Length == MAX_GROUPS
      invariant ParseGroups(b, start, n, {}) == Continue(groups, ParseGroups(b, off, n - i, Marked(flags)))
    {
      GroupsUnfold(b, off, n - i, Marked(flags), groups);
      if |b| < off + 4 || b[off] >= MAX_GROUPS || flags[b[off]] {
        return None;
      }
      var enabled := b[off + 1] != 0;
      var seedLen := b[off + 3];
      if (!enabled && seedLen != 0) || (enabled && seedLen != SEED_BYTES) || |b| < off + 4 + seedLen {
        return None;
      }
      ghost var before := Marked(flags);
      flags[b[off]] := true;
      assert Marked(flags) == before + {b[off] as int};
      groups := groups + [GroupAt(b, off)];
      off := off + 4 + seedLen;
      i := i + 1;
    }
    GroupsUnfold(b, off, n - i, Marked(flags), groups);
    return Some((groups, off));
  }

  method ParseTopologyStagePayload(b: seq<byte>) returns (r: Option<Snapshot>)
    ensures r == Parse(b)
  {
    if |b| < 10 || b[8] > MAX_SLOTS || b[9] > MAX_GROUPS {
      return None;
    }
    var slots := ParseSlotRecords(b, b[8]);
    if slots.None? {
      return None;
    }
    var groups := ParseGroupRecords(b, slots.value.1, b[9]);
    if groups.None? || groups.value.1 != |b| {
      return None;
    }
    return Some(Snapshot(b[0], U32(b[2], b[3], b[4], b[5]), b[6], b[7], slots.value.0, groups.value.0));
  }
}
