/**
 The slots of each device: one per linked peer entry, from the nearest of the device's own entries, whatever
 order the links are processed in; and the tie rule that never applies.
*/
module PlannerTargets {
  import opened PlannerChain

  const UNSET_VI: int := 0xFF

  datatype Slot = Slot(peerMac: nat, peerKind: Kind, gid: nat, localVi: int, peerVi: int, delta: int, peerIdx: nat)

  /** One end of a link looking at the other. */
  datatype Call = Call(local: nat, peer: nat, gid: nat)

  function EncVi(vi: int): int {
    if vi < 0 then UNSET_VI else vi % 256
  }

  function Abs(x: int): nat {
    if x < 0 then -x else x
  }

  predicate InChain(ns: Chain, c: Call) {
    c.local < |ns| && c.peer < |ns|
  }

  function SlotOf(ns: Chain, c: Call): Slot
    requires InChain(ns, c)
  {
    Slot(ns[c.peer].mac, ns[c.peer].kind, c.gid, EncVi(ns[c.local].vi), EncVi(ns[c.peer].vi), c.peer - c.local, c.peer)
  }

  /** What a look sees: the peer as it stands in the chain, both indices as octets, 255 for none, and how far it is. */
  lemma LookSees(ns: Chain, c: Call)
    requires InChain(ns, c)
    ensures var (s, own, peer) := (SlotOf(ns, c), ns[c.local], ns[c.peer]);
            && s.peerMac == peer.mac && s.peerKind == peer.kind && s.peerIdx == c.peer && s.gid == c.gid
            && s.delta == c.peer - c.local
            && (own.vi < 0 ==> s.localVi == 255) && (0 <= own.vi < 255 ==> s.localVi == own.vi)
            && (peer.vi < 0 ==> s.peerVi == 255) && (0 <= peer.vi < 255 ==> s.peerVi == peer.vi)
            && 0 <= s.localVi < 256 && 0 <= s.peerVi < 256
            && (own.vi >= 0 ==> (own.vi - s.localVi) % 256 == 0) && (peer.vi >= 0 ==> (peer.vi - s.peerVi) % 256 == 0)
  {
  }

  predicate SamePeer(a: Slot, b: Slot) {
    a.peerMac == b.peerMac && a.peerKind == b.peerKind && a.peerVi == b.peerVi
  }

  /** The first slot for the same peer; the list's length when there is none. */
  function FindSlot(arr: seq<Slot>, c: Slot): (i: nat)
    ensures i <= |arr| && (i < |arr| ==> SamePeer(arr[i], c))
    ensures forall j :: 0 <= j < i ==> !SamePeer(arr[j], c)
  {
    if arr == [] || SamePeer(arr[0], c) then 0
    else
      var rest := FindSlot(arr[1..], c);
      assert forall j :: 0 < j < 1 + rest ==> arr[j] == arr[1..][j - 1];
      1 + rest
  }

  function Upsert(arr: seq<Slot>, c: Slot): seq<Slot> {
    var i := FindSlot(arr, c);
    if c.delta == 0 then arr
    else if i == |arr| then arr + [c]
    else if Abs(c.delta) < Abs(arr[i].delta) then arr[i := c]
    else if Abs(c.delta) == Abs(arr[i].delta) && arr[i].localVi == UNSET_VI && c.localVi != UNSET_VI then
      arr[i := arr[i].(localVi := c.localVi, gid := c.gid)]
    else arr
  }

  /**
   What a look does to the slots: nothing from the device itself; a new slot for a new peer; and for a known one, by the
   distances: the nearer look replaces the slot, an equally near one only fills in what a slot without an own index
   lacks, and everything else leaves it.
  */
  lemma UpsertByDistance(arr: seq<Slot>, c: Slot)
    ensures c.delta == 0 ==> Upsert(arr, c) == arr
    ensures c.delta != 0 && (forall j :: 0 <= j < |arr| ==> !SamePeer(arr[j], c)) ==> Upsert(arr, c) == arr + [c]
    ensures forall i :: 0 <= i < |arr| && c.delta != 0 && SamePeer(arr[i], c)
                        && (forall j :: 0 <= j < i ==> !SamePeer(arr[j], c)) ==>
              var (far, was) := (if c.delta < 0 then -c.delta else c.delta,
                                 if arr[i].delta < 0 then -arr[i].delta else arr[i].delta);
              Upsert(arr, c) == if far < was then arr[i := c]
                                else if far == was && arr[i].localVi == 0xFF && c.localVi != 0xFF
                                then arr[i := Slot(arr[i].peerMac, arr[i].peerKind, c.gid, c.localVi, arr[i].peerVi,
                                                   arr[i].delta, arr[i].peerIdx)]
                                else arr
  {
  }

  // ---------------------------------------------------------------- the links of a chain

  /** The four looks along the two links of relay `i`. */
  function CallsAt(ns: Chain, i: nat): seq<Call>
    requires ShapeOk(ns) && i < |ns|
  {
    if !IsRelay(ns[i].kind) then []
    else
      RelayInside(ns, i);
      var left, right, gid := LeftSep(ns, i), RightSep(ns, i), Rank(ns, i);
      [Call(left, i, gid), Call(i, left, gid), Call(right, i, gid), Call(i, right, gid)]
  }

  function CallsUpTo(ns: Chain, n: nat): seq<Call>
    requires ShapeOk(ns) && n <= |ns|
  {
    if n == 0 then [] else CallsUpTo(ns, n - 1) + CallsAt(ns, n - 1)
  }

  function Calls(ns: Chain): seq<Call>
    requires ShapeOk(ns)
  {
    CallsUpTo(ns, |ns|)
  }

  /** A separator and a relay with only relays between them. */
  predicate Linked(ns: Chain, s: nat, r: nat) {
    && s < |ns| && r < |ns| && IsSeparator(ns[s].kind) && IsRelay(ns[r].kind)
    && (forall k :: s < k < r ==> IsRelay(ns[k].kind))
    && (forall k :: r < k < s ==> IsRelay(ns[k].kind))
  }

  ghost predicate ProperCall(ns: Chain, c: Call) {
    && (Linked(ns, c.local, c.peer) || Linked(ns, c.peer, c.local))
    && c.gid == (if IsRelay(ns[c.local].kind) then Rank(ns, c.local) else Rank(ns, c.peer))
  }

  predicate AllIn(ns: Chain, cs: seq<Call>) {
    forall i :: 0 <= i < |cs| ==> InChain(ns, cs[i])
  }

  ghost predicate ProperCalls(ns: Chain, cs: seq<Call>) {
    AllIn(ns, cs) && forall i :: 0 <= i < |cs| ==> ProperCall(ns, cs[i])
  }

  lemma {:induction false} CallsAtProper(ns: Chain, i: nat)
    requires ShapeOk(ns) && i < |ns|
    ensures ProperCalls(ns, CallsAt(ns, i))
  {
  }

  lemma {:induction false} CallsProper(ns: Chain, n: nat)
    requires ShapeOk(ns) && n <= |ns|
    ensures ProperCalls(ns, CallsUpTo(ns, n))
    decreases n
  {
    hide CallsAt, ProperCall;
    if n > 0 {
      CallsProper(ns, n - 1);
      CallsAtProper(ns, n - 1);
    }
  }

  lemma {:induction false} CallsSorted(ns: Chain, n: nat)
    requires ShapeOk(ns) && n <= |ns|
    ensures forall i :: 0 <= i < |CallsUpTo(ns, n)| ==> CallsUpTo(ns, n)[i].gid <= Rank(ns, n)
    ensures forall i, j :: 0 <= i < j < |CallsUpTo(ns, n)| ==> CallsUpTo(ns, n)[i].gid <= CallsUpTo(ns, n)[j].gid
    decreases n
  {
    hide LeftSep, RightSep;
    if n > 0 {
      CallsSorted(ns, n - 1);
      RankGrows(ns, n - 1, n);
      var now := CallsAt(ns, n - 1);
      assert forall i :: 0 <= i < |now| ==> now[i].gid == Rank(ns, n - 1);
    }
  }

  /** Both ends of a link look at each other. */
  lemma {:induction false} LinkCalled(ns: Chain, s: nat, r: nat, n: nat)
    requires ShapeOk(ns) && Linked(ns, s, r) && r < n <= |ns|
    ensures Call(s, r, Rank(ns, r)) in CallsUpTo(ns, n) && Call(r, s, Rank(ns, r)) in CallsUpTo(ns, n)
    decreases n
  {
    hide CallsAt, Linked, ShapeOk, Rank;
    if n == r + 1 {
      LinkCalledAt(ns, s, r);
    } else {
      LinkCalled(ns, s, r, n - 1);
    }
  }

  lemma {:induction false} LinkCalledAt(ns: Chain, s: nat, r: nat)
    requires ShapeOk(ns) && Linked(ns, s, r)
    ensures Call(s, r, Rank(ns, r)) in CallsAt(ns, r) && Call(r, s, Rank(ns, r)) in CallsAt(ns, r)
  {
    hide LeftSep, RightSep, Rank;
    RelayInside(ns, r);
    LinkIsNearest(ns, s, r);
    var cs := CallsAt(ns, r);
    if s < r {
      assert cs[0] == Call(s, r, Rank(ns, r)) && cs[1] == Call(r, s, Rank(ns, r));
    } else {
      assert cs[2] == Call(s, r, Rank(ns, r)) && cs[3] == Call(r, s, Rank(ns, r));
    }
  }

  lemma {:induction false} LinkIsNearest(ns: Chain, s: nat, r: nat)
    requires ShapeOk(ns) && Linked(ns, s, r) && 0 < r < |ns| - 1
    ensures s == if s < r then LeftSep(ns, r) else RightSep(ns, r)
  {
    hide LeftSep, RightSep;
    if s < r {
      var l := LeftSep(ns, r);
      assert IsSeparator(ns[l].kind) && OnlyRelays(ns, l, r);
      assert l < s ==> IsRelay(ns[s].kind);
      assert s < l ==> IsRelay(ns[l].kind);
    } else {
      var l := RightSep(ns, r);
      assert IsSeparator(ns[l].kind) && OnlyRelays(ns, r, l);
      assert s < l ==> IsRelay(ns[s].kind);
      assert l < s ==> IsRelay(ns[l].kind);
    }
  }

  // ---------------------------------------------------------------- the slots of one device

  /** The device's slots after the looks `cs`: those of its own entries, in turn. */
  function SlotsAfter(ns: Chain, cs: seq<Call>, mac: nat): seq<Slot>
    requires AllIn(ns, cs)
  {
    if cs == [] then []
    else
      var n := |cs| - 1;
      var before := SlotsAfter(ns, cs[..n], mac);
      if ns[cs[n].local].mac == mac then Upsert(before, SlotOf(ns, cs[n])) else before
  }

  function Distance(c: Call): nat { Abs(c.peer - c.local) }

  /** Look `b` is the device's first shortest one at that peer. */
  ghost predicate IsBest(ns: Chain, cs: seq<Call>, mac: nat, b: nat)
    requires ProperCalls(ns, cs)
  {
    && b < |cs| && ns[cs[b].local].mac == mac
    && forall j :: 0 <= j < |cs| && cs[j].peer == cs[b].peer && ns[cs[j].local].mac == mac ==>
         Distance(cs[b]) <= Distance(cs[j]) && (Distance(cs[b]) == Distance(cs[j]) ==> b <= j)
  }

  /** A slot is what the best look at its peer says. */
  ghost predicate SlotIsBest(ns: Chain, cs: seq<Call>, mac: nat, s: Slot)
    requires ProperCalls(ns, cs)
  {
    exists b :: 0 <= b < |cs| && IsBest(ns, cs, mac, b) && s == SlotOf(ns, cs[b])
  }

  /** Exactly one slot for each peer looked at, and each the best. */
  ghost predicate SlotsOk(ns: Chain, cs: seq<Call>, mac: nat, arr: seq<Slot>)
    requires ProperCalls(ns, cs)
  {
    && (forall k :: 0 <= k < |arr| ==> SlotIsBest(ns, cs, mac, arr[k]))
    && (forall j :: 0 <= j < |cs| && ns[cs[j].local].mac == mac ==>
        exists k :: 0 <= k < |arr| && arr[k].peerIdx == cs[j].peer)
    && (forall k, l :: 0 <= k < l < |arr| ==> arr[k].peerIdx != arr[l].peerIdx)
  }

  lemma {:induction false} ProperPrefix(ns: Chain, cs: seq<Call>, n: nat)
    requires ProperCalls(ns, cs) && n <= |cs|
    ensures ProperCalls(ns, cs[..n])
  {
    hide ProperCall;
  }

  lemma {:induction false} ViEncodes(ns: Chain, i: nat, j: nat)
    requires IdentitiesOk(ns) && i < |ns| && j < |ns| && EncVi(ns[i].vi) == EncVi(ns[j].vi)
    ensures ns[i].vi == ns[j].vi
  {
    assert ValidVi(ns[i]) && ValidVi(ns[j]);
  }

  /** Slots match exactly when they are for the same chain entry. */
  lemma {:induction false} SamePeerSameEntry(ns: Chain, a: Call, b: Call)
    requires IdentitiesOk(ns) && InChain(ns, a) && InChain(ns, b) && ProperCall(ns, a) && ProperCall(ns, b)
    ensures SamePeer(SlotOf(ns, a), SlotOf(ns, b)) <==> a.peer == b.peer
  {
    hide EncVi;
    if SamePeer(SlotOf(ns, a), SlotOf(ns, b)) {
      ViEncodes(ns, a.peer, b.peer);
      IdentityUnique(ns, a.peer, b.peer);
    }
  }

  /**
   The tie rule asks for a slot of a physical entry to be challenged by an emulated one of the same address: there
   is none.
  */
  lemma {:induction false} TieRuleDead(ns: Chain, a: Call, b: Call)
    requires IdentitiesOk(ns) && InChain(ns, a) && InChain(ns, b) && ProperCall(ns, a) && ProperCall(ns, b)
        && ns[a.local].mac == ns[b.local].mac
    ensures !(SlotOf(ns, a).localVi == UNSET_VI && SlotOf(ns, b).localVi != UNSET_VI)
  {
    assert ValidVi(ns[a.local]);
    if ns[a.local].vi == -1 {
      PhysicalAlone(ns, a.local, b.local);
    }
  }

  /** A look further away, or of another device or peer, leaves the best looks what they were. */
  lemma {:induction false} BestStays(ns: Chain, cs: seq<Call>, c: Call, mac: nat, b: nat)
    requires ProperCalls(ns, cs) && InChain(ns, c) && ProperCall(ns, c) && IsBest(ns, cs, mac, b)
    requires ns[c.local].mac == mac && c.peer == cs[b].peer ==> Distance(cs[b]) <= Distance(c)
    ensures ProperCalls(ns, cs + [c]) && IsBest(ns, cs + [c], mac, b)
  {
    hide ProperCall;
  }

  /** A strictly nearer look becomes the best. */
  lemma {:induction false} BestReplaced(ns: Chain, cs: seq<Call>, c: Call, mac: nat, b: nat)
    requires ProperCalls(ns, cs) && InChain(ns, c) && ProperCall(ns, c) && IsBest(ns, cs, mac, b)
    requires ns[c.local].mac == mac && c.peer == cs[b].peer && Distance(c) < Distance(cs[b])
    ensures ProperCalls(ns, cs + [c]) && IsBest(ns, cs + [c], mac, |cs|)
  {
    hide ProperCall;
  }

  /** The first look at a peer is the best. */
  lemma {:induction false} BestFirst(ns: Chain, cs: seq<Call>, c: Call, mac: nat)
    requires ProperCalls(ns, cs) && InChain(ns, c) && ProperCall(ns, c) && ns[c.local].mac == mac
    requires forall j :: 0 <= j < |cs| && ns[cs[j].local].mac == mac ==> cs[j].peer != c.peer
    ensures ProperCalls(ns, cs + [c]) && IsBest(ns, cs + [c], mac, |cs|)
  {
    hide ProperCall;
  }

  lemma {:induction false} NonZero(ns: Chain, c: Call)
    requires InChain(ns, c) && ProperCall(ns, c)
    ensures SlotOf(ns, c).delta != 0
  {
  }

  lemma {:induction false} SlotsStay(ns: Chain, cs: seq<Call>, c: Call, mac: nat, arr: seq<Slot>, keep: nat)
    requires ProperCalls(ns, cs) && InChain(ns, c) && ProperCall(ns, c) && SlotsOk(ns, cs, mac, arr)
    requires forall k :: 0 <= k < |arr| && k != keep ==> (ns[c.local].mac == mac ==> arr[k].peerIdx != c.peer)
    ensures ProperCalls(ns, cs + [c])
    ensures forall k :: 0 <= k < |arr| && k != keep ==> SlotIsBest(ns, cs + [c], mac, arr[k])
  {
    hide ProperCall, IsBest;
    forall k | 0 <= k < |arr| && k != keep ensures ProperCalls(ns, cs + [c]) && SlotIsBest(ns, cs + [c], mac, arr[k]) {
      assert SlotIsBest(ns, cs, mac, arr[k]);
      var b :| 0 <= b < |cs| && IsBest(ns, cs, mac, b) && arr[k] == SlotOf(ns, cs[b]);
      BestInside(ns, cs, mac, b);
      BestStays(ns, cs, c, mac, b);
      assert (cs + [c])[b] == cs[b];
    }
  }

  lemma {:induction false} BestInside(ns: Chain, cs: seq<Call>, mac: nat, b: nat)
    requires ProperCalls(ns, cs) && IsBest(ns, cs, mac, b)
    ensures b < |cs| && ns[cs[b].local].mac == mac
  {
  }

  /** One more look keeps the slots right. */
  lemma {:induction false} UpsertKeeps(ns: Chain, cs: seq<Call>, c: Call, mac: nat, arr: seq<Slot>)
    requires IdentitiesOk(ns) && ProperCalls(ns, cs) && InChain(ns, c) && ProperCall(ns, c) && SlotsOk(ns, cs, mac, arr)
        && ns[c.local].mac == mac
    ensures ProperCalls(ns, cs + [c]) && SlotsOk(ns, cs + [c], mac, Upsert(arr, SlotOf(ns, c)))
  {
    hide ProperCall, IsBest, SlotOf, SamePeer, FindSlot;
    NonZero(ns, c);
    var i := FindAt(ns, cs, c, mac, arr);
    SlotsStay(ns, cs, c, mac, arr, i);
    if i == |arr| {
      AppendKeeps(ns, cs, c, mac, arr);
    } else {
      var b :| 0 <= b < |cs| && IsBest(ns, cs, mac, b) && arr[i] == SlotOf(ns, cs[b]);
      BestInside(ns, cs, mac, b);
      SlotFields(ns, c);
      SlotFields(ns, cs[b]);
      TieRuleDead(ns, cs[b], c);
      if Distance(c) < Distance(cs[b]) {
        BestReplaced(ns, cs, c, mac, b);
        assert (cs + [c])[|cs|] == c;
        ReplaceKeeps(ns, cs, c, mac, arr, i);
      } else {
        BestStays(ns, cs, c, mac, b);
        assert (cs + [c])[b] == cs[b];
        SameKeeps(ns, cs, c, mac, arr, i);
      }
    }
  }

  lemma {:induction false} SlotFields(ns: Chain, c: Call)
    requires InChain(ns, c) && ProperCall(ns, c)
    ensures SlotOf(ns, c).peerIdx == c.peer && Abs(SlotOf(ns, c).delta) == Distance(c) && SlotOf(ns, c).gid == c.gid
  {
  }

  /** Where a look's peer already has its slot. */
  lemma {:induction false} FindAt(ns: Chain, cs: seq<Call>, c: Call, mac: nat, arr: seq<Slot>) returns (i: nat)
    requires IdentitiesOk(ns) && ProperCalls(ns, cs) && InChain(ns, c) && ProperCall(ns, c) && SlotsOk(ns, cs, mac, arr)
    ensures i == FindSlot(arr, SlotOf(ns, c)) <= |arr|
    ensures forall k :: 0 <= k < |arr| ==> (arr[k].peerIdx == c.peer <==> k == i)
  {
    hide ProperCall, IsBest, SlotOf, SamePeer;
    i := FindSlot(arr, SlotOf(ns, c));
    forall k | 0 <= k < |arr| ensures SamePeer(arr[k], SlotOf(ns, c)) <==> arr[k].peerIdx == c.peer {
      var b :| 0 <= b < |cs| && IsBest(ns, cs, mac, b) && arr[k] == SlotOf(ns, cs[b]);
      BestInside(ns, cs, mac, b);
      SlotFields(ns, cs[b]);
      SamePeerSameEntry(ns, cs[b], c);
    }
  }

  lemma {:induction false} AppendKeeps(ns: Chain, cs: seq<Call>, c: Call, mac: nat, arr: seq<Slot>)
    requires ProperCalls(ns, cs) && InChain(ns, c) && ProperCall(ns, c) && SlotsOk(ns, cs, mac, arr)
        && ns[c.local].mac == mac
    requires ProperCalls(ns, cs + [c]) && forall k :: 0 <= k < |arr| ==>
        SlotIsBest(ns, cs + [c], mac, arr[k]) && arr[k].peerIdx != c.peer
    ensures SlotsOk(ns, cs + [c], mac, arr + [SlotOf(ns, c)])
  {
    hide ProperCall, IsBest, SlotOf;
    var more := arr + [SlotOf(ns, c)];
    SlotFields(ns, c);
    BestFirst(ns, cs, c, mac);
    assert (cs + [c])[|cs|] == c;
    assert more[|arr|].peerIdx == c.peer;
    Looked(ns, cs, c, mac, arr, more);
  }

  /** Every look has its slot, when the old slots' peers are kept and the new look's is there. */
  lemma {:induction false} Looked(ns: Chain, cs: seq<Call>, c: Call, mac: nat, arr: seq<Slot>, more: seq<Slot>)
    requires ProperCalls(ns, cs) && InChain(ns, c) && ProperCall(ns, c) && SlotsOk(ns, cs, mac, arr)
        && ProperCalls(ns, cs + [c])
    requires |arr| <= |more| && forall k :: 0 <= k < |arr| ==> more[k].peerIdx == arr[k].peerIdx
    requires exists k :: 0 <= k < |more| && more[k].peerIdx == c.peer
    ensures forall j :: 0 <= j < |cs + [c]| && ns[(cs + [c])[j].local].mac == mac ==>
        exists k :: 0 <= k < |more| && more[k].peerIdx == (cs + [c])[j].peer
  {
    hide ProperCall, IsBest, SlotIsBest;
    var cs' := cs + [c];
    forall j | 0 <= j < |cs'| && ns[cs'[j].local].mac == mac
        ensures exists k :: 0 <= k < |more| && more[k].peerIdx == cs'[j].peer {
      if j < |cs| {
        assert cs'[j] == cs[j];
        var k :| 0 <= k < |arr| && arr[k].peerIdx == cs[j].peer;
        assert more[k].peerIdx == cs'[j].peer;
      }
    }
  }

  lemma {:induction false} ReplaceKeeps(ns: Chain, cs: seq<Call>, c: Call, mac: nat, arr: seq<Slot>, i: nat)
    requires ProperCalls(ns, cs) && InChain(ns, c) && ProperCall(ns, c) && SlotsOk(ns, cs, mac, arr) && i < |arr|
        && arr[i].peerIdx == c.peer
    requires ProperCalls(ns, cs + [c]) && SlotIsBest(ns, cs + [c], mac, SlotOf(ns, c))
    requires forall k :: 0 <= k < |arr| && k != i ==> SlotIsBest(ns, cs + [c], mac, arr[k])
    ensures SlotsOk(ns, cs + [c], mac, arr[i := SlotOf(ns, c)])
  {
    hide ProperCall, IsBest, SlotOf, SlotIsBest;
    SlotFields(ns, c);
    Looked(ns, cs, c, mac, arr, arr[i := SlotOf(ns, c)]);
  }

  lemma {:induction false} SameKeeps(ns: Chain, cs: seq<Call>, c: Call, mac: nat, arr: seq<Slot>, i: nat)
    requires ProperCalls(ns, cs) && InChain(ns, c) && ProperCall(ns, c) && SlotsOk(ns, cs, mac, arr) && i < |arr|
        && arr[i].peerIdx == c.peer
    requires ProperCalls(ns, cs + [c])
    requires forall k :: 0 <= k < |arr| ==> SlotIsBest(ns, cs + [c], mac, arr[k])
    ensures SlotsOk(ns, cs + [c], mac, arr)
  {
    hide ProperCall, IsBest, SlotIsBest;
    Looked(ns, cs, c, mac, arr, arr);
  }

  lemma {:induction false} OtherKeeps(ns: Chain, cs: seq<Call>, c: Call, mac: nat, arr: seq<Slot>)
    requires ProperCalls(ns, cs) && InChain(ns, c) && ProperCall(ns, c) && SlotsOk(ns, cs, mac, arr)
        && ns[c.local].mac != mac
    ensures ProperCalls(ns, cs + [c]) && SlotsOk(ns, cs + [c], mac, arr)
  {
    hide ProperCall, IsBest;
    SlotsStay(ns, cs, c, mac, arr, |arr|);
    var cs' := cs + [c];
    assert forall j :: 0 <= j < |cs| ==> cs'[j] == cs[j];
  }

  /** After any run of looks, each device has one slot per peer looked at, from its first nearest entry. */
  lemma {:induction false} SlotsAreBest(ns: Chain, cs: seq<Call>, mac: nat)
    requires IdentitiesOk(ns) && ProperCalls(ns, cs)
    ensures SlotsOk(ns, cs, mac, SlotsAfter(ns, cs, mac))
    decreases |cs|
  {
    hide ProperCall, IdentitiesOk, Upsert, SlotIsBest;
    if cs != [] {
      var n := |cs| - 1;
      ProperPrefix(ns, cs, n);
      SlotsAreBest(ns, cs[..n], mac);
      assert cs == cs[..n] + [cs[n]];
      assert ProperCall(ns, cs[n]);
      if ns[cs[n].local].mac == mac {
        UpsertKeeps(ns, cs[..n], cs[n], mac, SlotsAfter(ns, cs[..n], mac));
      } else {
        OtherKeeps(ns, cs[..n], cs[n], mac, SlotsAfter(ns, cs[..n], mac));
      }
    }
  }

  /** The slots the planner gives a device. */
  function SlotsFor(ns: Chain, mac: nat): seq<Slot>
    requires ShapeOk(ns)
  {
    CallsProper(ns, |ns|);
    SlotsAfter(ns, Calls(ns), mac)
  }

  // ---------------------------------------------------------------- the planner's own loops

  datatype Link = Link(sep: nat, relay: nat, gid: nat)

  function LinksAt(ns: Chain, i: nat): seq<Link>
    requires ShapeOk(ns) && i < |ns|
  {
    if !IsRelay(ns[i].kind) then []
    else
      RelayInside(ns, i);
      [Link(LeftSep(ns, i), i, Rank(ns, i)), Link(RightSep(ns, i), i, Rank(ns, i))]
  }

  function LinksUpTo(ns: Chain, n: nat): seq<Link>
    requires ShapeOk(ns) && n <= |ns|
  {
    if n == 0 then [] else LinksUpTo(ns, n - 1) + LinksAt(ns, n - 1)
  }

  function CallsOf(links: seq<Link>): seq<Call> {
    if links == [] then []
    else
      var l := links[|links| - 1];
      CallsOf(links[..|links| - 1]) + [Call(l.sep, l.relay, l.gid), Call(l.relay, l.sep, l.gid)]
  }

  lemma {:induction false} CallsOfTwo(links: seq<Link>, a: Link, b: Link)
    ensures CallsOf(links + [a, b])
         == CallsOf(links) + [Call(a.sep, a.relay, a.gid), Call(a.relay, a.sep, a.gid), Call(b.sep, b.relay, b.gid),
                              Call(b.relay, b.sep, b.gid)]
  {
    assert (links + [a, b])[..|links| + 1] == links + [a];
    assert (links + [a])[..|links|] == links;
  }

  lemma {:induction false} CallsOfLinks(ns: Chain, n: nat)
    requires ShapeOk(ns) && n <= |ns|
    ensures CallsOf(LinksUpTo(ns, n)) == CallsUpTo(ns, n)
    decreases n
  {
    hide LeftSep, RightSep, CallsOf;
    if n == 0 {
      NoCalls();
    } else {
      CallsOfLinks(ns, n - 1);
      if IsRelay(ns[n - 1].kind) {
        RelayInside(ns, n - 1);
        var links := LinksAt(ns, n - 1);
        CallsOfTwo(LinksUpTo(ns, n - 1), links[0], links[1]);
      } else {
        assert LinksUpTo(ns, n - 1) + [] == LinksUpTo(ns, n - 1);
      }
    }
  }

  lemma NoCalls()
    ensures CallsOf([]) == []
  {
  }

  /** A group's relays are linked to its two separators, and carry its number. */
  lemma {:induction false} GroupLinks(ns: Chain, gs: seq<Group>, k: nat, r: nat)
    requires ShapeOk(ns) && k < |gs| && GroupAt(ns, gs, k) && gs[k].left < r < gs[k].right
    ensures 0 < r < |ns| - 1 && IsRelay(ns[r].kind)
    ensures LinksAt(ns, r) == [Link(gs[k].left, r, gs[k].gid), Link(gs[k].right, r, gs[k].gid)]
  {
    hide LeftSep, RightSep, Range;
    var g := gs[k];
    assert OnlyRelays(ns, g.left, g.right) && IsRelay(ns[r].kind);
    LinkIsNearest(ns, g.left, r);
    LinkIsNearest(ns, g.right, r);
    RankGrows(ns, g.left + 1, r);
    assert Rank(ns, g.left + 1) == Rank(ns, g.left) + 1;
  }

  lemma {:induction false} SeparatorHasNoLinks(ns: Chain, s: nat)
    requires ShapeOk(ns) && s < |ns| && IsSeparator(ns[s].kind)
    ensures LinksUpTo(ns, s + 1) == LinksUpTo(ns, s)
  {
    hide LeftSep, RightSep;
    assert LinksUpTo(ns, s) + [] == LinksUpTo(ns, s);
  }

  /** The links are exactly the separators and relays with only relays between them, under the relay's group. */
  lemma {:induction false} LinksExactly(ns: Chain, n: nat, l: Link)
    requires ShapeOk(ns) && n <= |ns|
    ensures l in LinksUpTo(ns, n) <==> l.relay < n && Linked(ns, l.sep, l.relay) && l.gid == Rank(ns, l.relay)
    decreases n
  {
    hide Linked, Rank, LinksAt, ShapeOk;
    if n != 0 {
      LinksExactly(ns, n - 1, l);
      LinksOfOne(ns, n - 1, l);
    }
  }

  lemma {:induction false} LinksOfOne(ns: Chain, i: nat, l: Link)
    requires ShapeOk(ns) && i < |ns|
    ensures l in LinksAt(ns, i) <==> l.relay == i && Linked(ns, l.sep, i) && l.gid == Rank(ns, i)
  {
    hide LeftSep, RightSep, Rank;
    if IsRelay(ns[i].kind) {
      RelayInside(ns, i);
      var a, b := LeftSep(ns, i), RightSep(ns, i);
      assert OnlyRelays(ns, a, i) && OnlyRelays(ns, i, b);
      if l.relay == i && Linked(ns, l.sep, i) {
        LinkIsNearest(ns, l.sep, i);
      }
      assert LinksAt(ns, i) == [Link(a, i, Rank(ns, i)), Link(b, i, Rank(ns, i))];
    }
  }

  /** The links of the relays before `n`, relay by relay. */
  ghost predicate LinksBefore(ns: Chain, n: nat, links: seq<Link>) {
    ShapeOk(ns) && n <= |ns| && links == LinksUpTo(ns, n)
  }

  /** The links of one group's relays. */
  method GroupLinksOf(ns: Chain, ghost gs: seq<Group>, ghost k: nat, g: Group,
                      before: seq<Link>) returns (links: seq<Link>)
    requires ShapeOk(ns) && k < |gs| && GroupAt(ns, gs, k) && g == gs[k]
    requires LinksBefore(ns, g.left, before)
    ensures LinksBefore(ns, g.right, links)
    ensures |links| == |before| + 2 * |g.relays|
  {
    hide GroupAt, LinksAt, Rank, ShapeOk;
    GroupShape(ns, gs, k);
    SeparatorHasNoLinks(ns, g.left);
    links := before;
    var j := 0;
    while j < |g.relays|
      invariant 0 <= j <= |g.relays|
      invariant links == LinksUpTo(ns, g.left + 1 + j) && |links| == |before| + 2 * j
    {
      var r := g.relays[j];
      GroupLinks(ns, gs, k, r);
      links := links + [Link(g.left, r, g.gid), Link(g.right, r, g.gid)];
      j := j + 1;
    }
  }

  method BuildLinks(ns: Chain, gs: seq<Group>) returns (links: seq<Link>)
    requires ShapeOk(ns) && GroupsOf(ns, gs) && gs != []
    ensures LinksBefore(ns, |ns|, links)
  {
    hide GroupAt, LinksAt, LinksUpTo, Rank, ShapeOk;
    NoLinks(ns);
    links := [];
    var k := 0;
    GroupShape(ns, gs, 0);
    while k < |gs|
      invariant 0 <= k <= |gs|
      invariant k < |gs| ==> LinksBefore(ns, gs[k].left, links)
      invariant k == |gs| ==> LinksBefore(ns, gs[k - 1].right, links)
    {
      assert GroupAt(ns, gs, k);
      links := GroupLinksOf(ns, gs, k, gs[k], links);
      k := k + 1;
    }
    GroupShape(ns, gs, k - 1);
    SeparatorHasNoLinks(ns, gs[k - 1].right);
  }

  lemma {:induction false} NoLinks(ns: Chain)
    requires ShapeOk(ns)
    ensures LinksUpTo(ns, 0) == []
  {
  }

  lemma {:induction false} GroupShape(ns: Chain, gs: seq<Group>, k: nat)
    requires k < |gs| && GroupAt(ns, gs, k)
    ensures var g := gs[k];
            && g.left < g.right < |ns| && IsSeparator(ns[g.left].kind) && IsSeparator(ns[g.right].kind)
            && |g.relays| == g.right - g.left - 1 && forall j :: 0 <= j < |g.relays| ==> g.relays[j] == g.left + 1 + j
  {
  }

  /** The map of device addresses to slots. */
  class Targets {
    var slots: map<nat, seq<Slot>>

    function At(mac: nat): seq<Slot>
      reads this
    {
      if mac in slots then slots[mac] else []
    }

    constructor ()
      ensures slots == map[]
    {
      slots := map[];
    }

    /** One look: append the slot, or replace the peer's slot when nearer. */
    method UpsertSlot(ns: Chain, c: Call)
      requires InChain(ns, c)
      modifies this
      ensures forall mac :: At(mac) == if mac == ns[c.local].mac then Upsert(old(At(mac)), SlotOf(ns, c))
          else old(At(mac))
    {
      hide SamePeer;
      var mac := ns[c.local].mac;
      var arr := At(mac);
      var candidate := SlotOf(ns, c);
      if candidate.delta == 0 {
        slots := slots[mac := arr];
        return;
      }
      var same := 0;
      while same < |arr| && !SamePeer(arr[same], candidate)
        invariant 0 <= same <= |arr| && forall j :: 0 <= j < same ==> !SamePeer(arr[j], candidate)
      {
        same := same + 1;
      }
      if same == |arr| {
        slots := slots[mac := arr + [candidate]];
        return;
      }
      var existing := arr[same];
      if Abs(candidate.delta) < Abs(existing.delta) {
        slots := slots[mac := arr[same := candidate]];
        return;
      }
      if Abs(candidate.delta) == Abs(existing.delta) && existing.localVi == UNSET_VI && candidate.localVi != UNSET_VI {
        existing := existing.(localVi := candidate.localVi, gid := candidate.gid);
        slots := slots[mac := arr[same := existing]];
      }
    }
  }

  lemma {:induction false} OneMoreCall(ns: Chain, cs: seq<Call>, c: Call, mac: nat)
    requires AllIn(ns, cs) && InChain(ns, c)
    ensures AllIn(ns, cs + [c])
    ensures SlotsAfter(ns, cs + [c], mac)
         == if ns[c.local].mac == mac then Upsert(SlotsAfter(ns, cs, mac), SlotOf(ns, c)) else SlotsAfter(ns, cs, mac)
  {
    hide Upsert, SlotOf;
    assert (cs + [c])[..|cs|] == cs;
  }

  /** Gives every device the slots of the specification. */
  method BuildTargets(ns: Chain, gs: seq<Group>) returns (targets: Targets)
    requires ShapeOk(ns) && GroupsOf(ns, gs) && gs != []
    ensures fresh(targets) && forall mac :: targets.At(mac) == SlotsFor(ns, mac)
  {
    hide SlotsAfter, Upsert, SlotOf, CallsOf, LinksUpTo, CallsUpTo, GroupsOf, ProperCall;
    var links := BuildLinks(ns, gs);
    CallsOfLinks(ns, |ns|);
    CallsProper(ns, |ns|);
    targets := new Targets();
    ghost var cs: seq<Call> := [];
    NoCalls();
    NoSlots(ns);
    var i := 0;
    assert links[..0] == [];
    while i < |links|
      invariant 0 <= i <= |links| && fresh(targets)
      invariant cs == CallsOf(links[..i]) && AllIn(ns, cs)
      invariant forall mac :: targets.At(mac) == SlotsAfter(ns, cs, mac)
    {
      var l := links[i];
      LinkInChain(ns, links, i);
      var a, b := Call(l.sep, l.relay, l.gid), Call(l.relay, l.sep, l.gid);
      forall mac ensures AllIn(ns, cs + [a] + [b])
          && SlotsAfter(ns, cs + [a] + [b], mac) == SlotsTwice(ns, cs, a, b, mac) {
        OneMoreCall(ns, cs, a, mac);
        OneMoreCall(ns, cs + [a], b, mac);
      }
      targets.UpsertSlot(ns, a);
      targets.UpsertSlot(ns, b);
      CallsOfNext(links, i);
      assert cs + [a] + [b] == cs + [a, b];
      cs := cs + [a] + [b];
      i := i + 1;
    }
    assert links[..i] == links;
  }

  ghost function SlotsTwice(ns: Chain, cs: seq<Call>, a: Call, b: Call, mac: nat): seq<Slot>
    requires AllIn(ns, cs) && InChain(ns, a) && InChain(ns, b)
  {
    var one := if ns[a.local].mac == mac then Upsert(SlotsAfter(ns, cs, mac), SlotOf(ns, a)) else SlotsAfter(ns, cs,
            mac);
    if ns[b.local].mac == mac then Upsert(one, SlotOf(ns, b)) else one
  }

  lemma NoSlots(ns: Chain)
    ensures forall mac :: SlotsAfter(ns, [], mac) == []
  {
  }

  lemma {:induction false} CallsOfNext(links: seq<Link>, i: nat)
    requires i < |links|
    ensures var l := links[i];
            CallsOf(links[..i + 1]) == CallsOf(links[..i]) + [Call(l.sep, l.relay, l.gid), Call(l.relay, l.sep, l.gid)]
  {
    assert links[..i + 1][..i] == links[..i];
  }

  lemma {:induction false} LinkInChain(ns: Chain, links: seq<Link>, i: nat)
    requires ShapeOk(ns) && links == LinksUpTo(ns, |ns|) && i < |links|
    ensures links[i].sep < |ns| && links[i].relay < |ns|
  {
    LinksInChain(ns, |ns|);
  }

  lemma {:induction false} LinksInChain(ns: Chain, n: nat)
    requires ShapeOk(ns) && n <= |ns|
    ensures forall i :: 0 <= i < |LinksUpTo(ns, n)| ==>
        LinksUpTo(ns, n)[i].sep < |ns| && LinksUpTo(ns, n)[i].relay < |ns|
    decreases n
  {
    hide LeftSep, RightSep;
    if n > 0 {
      LinksInChain(ns, n - 1);
    }
  }
}
