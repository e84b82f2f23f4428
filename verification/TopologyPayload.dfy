/** The management payload of a topology snapshot: ten header bytes, slot records, group records. */
module TopologyPayload {
  import opened FixedWidth
  import opened Options
  import opened LittleEndian
  import opened TopologyTypes

  const SLOT_BYTES: nat := 18

  // ---------------------------------------------------------------- fields

  function Flag(b: bool): byte { if b then 1 else 0 }

  // ---------------------------------------------------------------- records

  function SlotBytes(s: Slot): (b: seq<byte>)
    ensures |b| == SLOT_BYTES
  {
    [s.index, Flag(s.enabled)] + s.peer
      + [s.peerRole, s.groupId, FromInt8(s.relativeIndex), s.localVi, s.peerVi, FromInt8(s.axisOrder),
         s.delayMs % 256, s.delayMs / 256, s.holdMs % 256, s.holdMs / 256]
  }

  function SlotAt(b: seq<byte>, off: nat): Slot
    requires off + SLOT_BYTES <= |b|
  {
    Slot(b[off], b[off + 1] != 0, b[off + 2..off + 8], b[off + 8], b[off + 9], ToInt8(b[off + 10]), b[off + 11],
         b[off + 12], ToInt8(b[off + 13]), U16(b[off + 14], b[off + 15]), U16(b[off + 16], b[off + 17]))
  }

  /** A disabled group travels without its seed. */
  function GroupBytes(g: Group): (b: seq<byte>)
    ensures |b| == if g.enabled then 36 else 4
  {
    [g.slot, Flag(g.enabled), g.id] + (if g.enabled then [SEED_BYTES] + g.seed else [0])
  }

  function NormalGroup(g: Group): Group {
    if g.enabled then g else g.(seed := ZERO_SEED)
  }

  function AllSlotBytes(ss: seq<Slot>): seq<byte> {
    if ss == [] then [] else SlotBytes(ss[0]) + AllSlotBytes(ss[1..])
  }

  function AllGroupBytes(gs: seq<Group>): seq<byte> {
    if gs == [] then [] else GroupBytes(gs[0]) + AllGroupBytes(gs[1..])
  }

  function Take<T>(xs: seq<T>, n: nat): seq<T> {
    if |xs| <= n then xs else xs[..n]
  }

  function Build(snap: Snapshot): seq<byte> {
    var slots, groups := Take(snap.slots, MAX_SLOTS), Take(snap.groups, MAX_GROUPS);
    [snap.schema, 0] + U32Bytes(snap.version) + [snap.neg, snap.pos, |slots|, |groups|]
      + AllSlotBytes(slots) + AllGroupBytes(groups)
  }

  // ---------------------------------------------------------------- parsing, from an offset on

  /** `n` slot records from `off`; the indices met so far are in `seen`. */
  function ParseSlots(b: seq<byte>, off: nat, n: nat, seen: set<int>): Option<(seq<Slot>, nat)>
    decreases n
  {
    if n == 0 then Some(([], off))
    else if |b| < off + SLOT_BYTES || b[off] >= MAX_SLOTS || b[off] in seen then None
    else match ParseSlots(b, off + SLOT_BYTES, n - 1, seen + {b[off]})
      case None => None
      case Some(r) => Some(([SlotAt(b, off)] + r.0, r.1))
  }

  function GroupAt(b: seq<byte>, off: nat): Group
    requires off + 4 <= |b| && (b[off + 3] == 0 || (b[off + 3] == SEED_BYTES && off + 4 + SEED_BYTES <= |b|))
  {
    Group(b[off], b[off + 1] != 0, b[off + 2],
          if b[off + 3] == SEED_BYTES then b[off + 4..off + 4 + SEED_BYTES] else ZERO_SEED)
  }

  predicate GroupReadable(b: seq<byte>, off: nat, seen: set<int>) {
    && off + 4 <= |b|
    && b[off] < MAX_GROUPS && b[off] !in seen
    && b[off + 3] == (if b[off + 1] != 0 then SEED_BYTES else 0)
    && off + 4 + b[off + 3] <= |b|
  }

  function ParseGroups(b: seq<byte>, off: nat, n: nat, seen: set<int>): Option<(seq<Group>, nat)>
    decreases n
  {
    if n == 0 then Some(([], off))
    else if !GroupReadable(b, off, seen) then None
    else match ParseGroups(b, off + 4 + b[off + 3], n - 1, seen + {b[off]})
      case None => None
      case Some(r) => Some(([GroupAt(b, off)] + r.0, r.1))
  }

  function Parse(b: seq<byte>): Option<Snapshot> {
    if |b| < 10 || b[8] > MAX_SLOTS || b[9] > MAX_GROUPS then None
    else match ParseSlots(b, 10, b[8], {})
      case None => None
      case Some(slots) =>
        match ParseGroups(b, slots.1, b[9], {})
        case None => None
        case Some(groups) =>
          if groups.1 != |b| then None
          else Some(Snapshot(b[0], U32(b[2], b[3], b[4], b[5]), b[6], b[7], slots.0, groups.0))
  }

  // ---------------------------------------------------------------- what the parser accepts

  /** Slots and group slots in range and named once each; disabled groups without a seed. */
  ghost predicate Valid(snap: Snapshot) {
    && |snap.slots| <= MAX_SLOTS && |snap.groups| <= MAX_GROUPS
    && SlotsDistinct(snap.slots, {}) && GroupsDistinct(snap.groups, {})
    && forall i :: 0 <= i < |snap.groups| ==> NormalGroup(snap.groups[i]) == snap.groups[i]
  }

  ghost predicate SlotsDistinct(ss: seq<Slot>, seen: set<int>) {
    ss != [] ==> ss[0].index < MAX_SLOTS && ss[0].index !in seen && SlotsDistinct(ss[1..], seen + {ss[0].index})
  }

  ghost predicate GroupsDistinct(gs: seq<Group>, seen: set<int>) {
    gs != [] ==> gs[0].slot < MAX_GROUPS && gs[0].slot !in seen && GroupsDistinct(gs[1..], seen + {gs[0].slot})
  }

  function NormalGroups(gs: seq<Group>): (r: seq<Group>)
    ensures |r| == |gs| && forall i :: 0 <= i < |gs| ==> r[i] == NormalGroup(gs[i])
  {
    if gs == [] then [] else [NormalGroup(gs[0])] + NormalGroups(gs[1..])
  }

  /** What survives the payload: clipped lists, and no seed on a disabled group. */
  function Normal(snap: Snapshot): Snapshot {
    snap.(slots := Take(snap.slots, MAX_SLOTS), groups := NormalGroups(Take(snap.groups, MAX_GROUPS)))
  }

  lemma SlotRoundTrip(s: Slot, pre: seq<byte>, post: seq<byte>)
    ensures SlotAt(pre + SlotBytes(s) + post, |pre|) == s
  {
    var b := pre + SlotBytes(s) + post;
    assert b[|pre|..|pre| + SLOT_BYTES] == SlotBytes(s);
    var c := SlotBytes(s);
    assert forall k :: 0 <= k < SLOT_BYTES ==> b[|pre| + k] == c[k];
    assert b[|pre| + 2..|pre| + 8] == s.peer;
  }

  /** Parsing a slot record written at `|pre|`, with `n` records to go. */
  lemma {:induction false} ParseSlotStep(s: Slot, pre: seq<byte>, post: seq<byte>, n: nat, seen: set<int>)
    requires n > 0
    ensures var b := pre + SlotBytes(s) + post;
            var rest := ParseSlots(b, |pre + SlotBytes(s)|, n - 1, seen + {s.index});
            ParseSlots(b, |pre|, n, seen)
              == if s.index < MAX_SLOTS && s.index !in seen && rest.Some?
                 then Some(([s] + rest.value.0, rest.value.1)) else None
  {
    SlotRoundTrip(s, pre, post);
    hide SlotAt;
    var b := pre + SlotBytes(s) + post;
    assert b[|pre|] == s.index;
    hide SlotBytes;
  }

  lemma {:induction false} SlotsUnfold(ss: seq<Slot>, seen: set<int>)
    requires ss != []
    ensures ss == [ss[0]] + ss[1..] && AllSlotBytes(ss) == SlotBytes(ss[0]) + AllSlotBytes(ss[1..])
    ensures SlotsDistinct(ss, seen)
        <==> ss[0].index < MAX_SLOTS && ss[0].index !in seen && SlotsDistinct(ss[1..], seen + {ss[0].index})
  {
    hide SlotBytes;
  }

  lemma {:induction false} SlotsRoundTrip(ss: seq<Slot>, pre: seq<byte>, post: seq<byte>, seen: set<int>)
    ensures var b := pre + AllSlotBytes(ss) + post;
            ParseSlots(b, |pre|, |ss|, seen)
              == if SlotsDistinct(ss, seen) then Some((ss, |pre| + |AllSlotBytes(ss)|)) else None
    decreases |ss|
  {
    hide SlotBytes, SlotAt;
    if ss != [] {
      SlotsUnfold(ss, seen);
      hide AllSlotBytes, ParseSlots, SlotsDistinct;
      var head, tail := SlotBytes(ss[0]), AllSlotBytes(ss[1..]);
      Regroup(pre, head, tail, post);
      ParseSlotStep(ss[0], pre, tail + post, |ss|, seen);
      SlotsRoundTrip(ss[1..], pre + head, post, seen + {ss[0].index});
    }
  }

  lemma GroupRoundTrip(g: Group, pre: seq<byte>, post: seq<byte>, seen: set<int>)
    ensures var b := pre + GroupBytes(g) + post;
            && (GroupReadable(b, |pre|, seen) <==> g.slot < MAX_GROUPS && g.slot !in seen)
            && b[|pre|] == g.slot && |pre| + 4 + b[|pre| + 3] == |pre| + |GroupBytes(g)|
            && (GroupReadable(b, |pre|, seen) ==> GroupAt(b, |pre|) == NormalGroup(g))
  {
    var b := pre + GroupBytes(g) + post;
    var c := GroupBytes(g);
    assert forall k :: 0 <= k < |c| ==> b[|pre| + k] == c[k];
    if g.enabled {
      assert b[|pre| + 4..|pre| + 4 + SEED_BYTES] == g.seed;
    }
  }

  lemma Regroup(pre: seq<byte>, head: seq<byte>, tail: seq<byte>, post: seq<byte>)
    ensures pre + (head + tail) + post == pre + head + (tail + post)
    ensures pre + (head + tail) + post == (pre + head) + tail + post
  {
  }

  lemma {:induction false} GroupsUnfold(gs: seq<Group>, seen: set<int>)
    requires gs != []
    ensures NormalGroups(gs) == [NormalGroup(gs[0])] + NormalGroups(gs[1..])
    ensures GroupsDistinct(gs, seen)
        <==> gs[0].slot < MAX_GROUPS && gs[0].slot !in seen && GroupsDistinct(gs[1..], seen + {gs[0].slot})
  {
  }

  lemma {:induction false} EmptyGroups(b: seq<byte>, off: nat, seen: set<int>)
    ensures ParseGroups(b, off, 0, seen) == Some(([], off)) && GroupsDistinct([], seen) && NormalGroups([]) == []
  {
  }

  /** Parsing a group record written at `|pre|`, with `n` records to go. */
  lemma {:induction false} ParseGroupStep(g: Group, pre: seq<byte>, post: seq<byte>, n: nat, seen: set<int>)
    requires n > 0
    ensures var b := pre + GroupBytes(g) + post;
            var rest := ParseGroups(b, |pre + GroupBytes(g)|, n - 1, seen + {g.slot});
            ParseGroups(b, |pre|, n, seen)
              == if g.slot < MAX_GROUPS && g.slot !in seen && rest.Some?
                 then Some(([NormalGroup(g)] + rest.value.0, rest.value.1)) else None
  {
    GroupRoundTrip(g, pre, post, seen);
    hide GroupAt, GroupBytes, GroupReadable, NormalGroup;
  }

  lemma {:induction false} GroupsRoundTrip(gs: seq<Group>, pre: seq<byte>, post: seq<byte>, seen: set<int>)
    ensures var b := pre + AllGroupBytes(gs) + post;
            ParseGroups(b, |pre|, |gs|, seen)
              == if GroupsDistinct(gs, seen) then Some((NormalGroups(gs), |pre| + |AllGroupBytes(gs)|)) else None
    decreases |gs|
  {
    hide ParseGroups, GroupBytes, NormalGroup, NormalGroups, GroupsDistinct;
    if gs == [] {
      EmptyGroups(pre + post, |pre|, seen);
      assert pre + [] + post == pre + post;
    } else {
      var head, tail := GroupBytes(gs[0]), AllGroupBytes(gs[1..]);
      assert AllGroupBytes(gs) == head + tail;
      hide AllGroupBytes;
      Regroup(pre, head, tail, post);
      ParseGroupStep(gs[0], pre, tail + post, |gs|, seen);
      GroupsRoundTrip(gs[1..], pre + head, post, seen + {gs[0].slot});
      GroupsUnfold(gs, seen);
    }
  }

  function Header(snap: Snapshot, slots: byte, groups: byte): (h: seq<byte>)
    ensures |h| == 10
  {
    [snap.schema, 0] + U32Bytes(snap.version) + [snap.neg, snap.pos, slots, groups]
  }

  lemma HeaderRoundTrip(snap: Snapshot, slots: byte, groups: byte, rest: seq<byte>)
    ensures var b := Header(snap, slots, groups) + rest;
            && b[0] == snap.schema && U32(b[2], b[3], b[4], b[5]) == snap.version
            && b[6] == snap.neg && b[7] == snap.pos && b[8] == slots && b[9] == groups
  {
    U32RoundTrip(snap.version);
    hide U32, U32Bytes;
    var h := Header(snap, slots, groups);
    assert h[2] == U32Bytes(snap.version)[0] && h[3] == U32Bytes(snap.version)[1];
    assert h[4] == U32Bytes(snap.version)[2] && h[5] == U32Bytes(snap.version)[3];
  }

  /** Building and parsing: the clipped, normalised snapshot when its indices are sound, and nothing otherwise. */
  lemma BuildThenParse(snap: Snapshot)
    ensures var slots, groups := Take(snap.slots, MAX_SLOTS), Take(snap.groups, MAX_GROUPS);
            Parse(Build(snap))
              == if SlotsDistinct(slots, {}) && GroupsDistinct(groups, {}) then Some(Normal(snap)) else None
  {
    var slots, groups := Take(snap.slots, MAX_SLOTS), Take(snap.groups, MAX_GROUPS);
    hide SlotsDistinct, GroupsDistinct, NormalGroups, AllSlotBytes, AllGroupBytes, ParseSlots, ParseGroups, U32,
      U32Bytes;
    var header := Header(snap, |slots|, |groups|);
    var sb, gb := AllSlotBytes(slots), AllGroupBytes(groups);
    var b := Build(snap);
    assert b == header + sb + gb;
    assert b == header + (sb + gb);
    assert b == (header + sb) + gb + [];
    HeaderRoundTrip(snap, |slots|, |groups|, sb + gb);
    SlotsRoundTrip(slots, header, gb, {});
    GroupsRoundTrip(groups, header + sb, [], {});
  }

  // ---------------------------------------------------------------- everything accepted is sound

  lemma {:induction false} ParsedSlotsSound(b: seq<byte>, off: nat, n: nat, seen: set<int>)
    requires ParseSlots(b, off, n, seen).Some?
    ensures var ss := ParseSlots(b, off, n, seen).value.0; |ss| == n && SlotsDistinct(ss, seen)
    decreases n
  {
    if n > 0 {
      ParsedSlotsSound(b, off + SLOT_BYTES, n - 1, seen + {b[off]});
      var ss := ParseSlots(b, off, n, seen).value.0;
      assert ss[1..] == ParseSlots(b, off + SLOT_BYTES, n - 1, seen + {b[off]}).value.0;
    }
  }

  lemma {:induction false} ParsedGroupsSound(b: seq<byte>, off: nat, n: nat, seen: set<int>)
    requires ParseGroups(b, off, n, seen).Some?
    ensures var gs := ParseGroups(b, off, n, seen).value.0;
            |gs| == n && GroupsDistinct(gs, seen) && forall i :: 0 <= i < n ==> NormalGroup(gs[i]) == gs[i]
    decreases n
  {
    if n > 0 {
      ParsedGroupsSound(b, off + 4 + b[off + 3], n - 1, seen + {b[off]});
      var gs := ParseGroups(b, off, n, seen).value.0;
      assert gs[1..] == ParseGroups(b, off + 4 + b[off + 3], n - 1, seen + {b[off]}).value.0;
      forall i | 0 <= i < n ensures NormalGroup(gs[i]) == gs[i] {
        if i > 0 { assert gs[i] == gs[1..][i - 1]; }
      }
    }
  }

  lemma ParsedIsValid(b: seq<byte>)
    requires Parse(b).Some?
    ensures Valid(Parse(b).value)
  {
    ParsedSlotsSound(b, 10, b[8], {});
    ParsedGroupsSound(b, ParseSlots(b, 10, b[8], {}).value.1, b[9], {});
  }
}
