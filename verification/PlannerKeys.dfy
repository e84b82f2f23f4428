/**
 The key group of a link as its two ends choose it: each takes the lowest group among its slots for the other.
 When the two choices agree, and so the link's key, is stated exactly.
*/
module PlannerKeys {
  import opened PlannerChain
  import opened PlannerTargets

  /** The lowest group among the slots for a peer address; zero when there is none. */
  function KeyGid(arr: seq<Slot>, peer: nat): nat {
    if arr == [] then 0
    else
      var rest := KeyGid(arr[1..], peer);
      if arr[0].peerMac != peer then rest
      else if rest == 0 || arr[0].gid < rest then arr[0].gid
      else rest
  }

  lemma {:induction false} KeyIsLowest(arr: seq<Slot>, peer: nat)
    requires forall k :: 0 <= k < |arr| ==> arr[k].gid > 0
    ensures forall k :: 0 <= k < |arr| && arr[k].peerMac == peer ==> 0 < KeyGid(arr, peer) <= arr[k].gid
    ensures KeyGid(arr, peer) != 0 ==>
              exists k :: 0 <= k < |arr| && arr[k].peerMac == peer && arr[k].gid == KeyGid(arr, peer)
    decreases |arr|
  {
    if arr != [] {
      KeyIsLowest(arr[1..], peer);
      assert forall k :: 0 < k < |arr| ==> arr[k] == arr[1..][k - 1];
      if KeyGid(arr[1..], peer) != 0 {
        var k :| 0 <= k < |arr[1..]| && arr[1..][k].peerMac == peer && arr[1..][k].gid == KeyGid(arr[1..], peer);
        assert arr[k + 1] == arr[1..][k];
      }
    }
  }

  // ---------------------------------------------------------------- what the slots say about groups

  function Gap(a: nat, b: nat): nat {
    Abs(a as int - b)
  }

  /** A link between a separator of `sepMac` and a relay of `relayMac`. */
  predicate MacLink(ns: Chain, sepMac: nat, relayMac: nat, s: nat, r: nat) {
    Linked(ns, s, r) && ns[s].mac == sepMac && ns[r].mac == relayMac
  }

  /** The lowest group in which the two addresses are linked. */
  ghost predicate IsLowest(ns: Chain, sepMac: nat, relayMac: nat, m: nat) {
    && (exists s, r :: MacLink(ns, sepMac, relayMac, s, r) && Rank(ns, r) == m)
    && forall s, r :: MacLink(ns, sepMac, relayMac, s, r) ==> m <= Rank(ns, r)
  }

  /** Relay `r` is the one of its address nearest to separator `s`; of two as near, the one in the lower group. */
  ghost predicate IsNearest(ns: Chain, relayMac: nat, s: nat, r: nat) {
    && Linked(ns, s, r) && ns[r].mac == relayMac
    && forall q: nat :: Linked(ns, s, q) && ns[q].mac == relayMac ==>
         Gap(s, r) <= Gap(s, q) && (Gap(s, r) == Gap(s, q) ==> Rank(ns, r) <= Rank(ns, q))
  }

  /** For some separator of the one address, the nearest relay of the other lies in group `m`. */
  ghost predicate NearestInGroup(ns: Chain, sepMac: nat, relayMac: nat, m: nat) {
    exists s: nat, r: nat :: IsNearest(ns, relayMac, s, r) && s < |ns| && ns[s].mac == sepMac && Rank(ns, r) == m
  }

  lemma {:induction false} RelayRank(ns: Chain, s: nat, r: nat)
    requires ShapeOk(ns) && Linked(ns, s, r)
    ensures Rank(ns, r) > 0
  {
    RankGrows(ns, 0, r);
    assert IsSeparator(ns[0].kind);
  }

  /** All entries of an address are of one kind. */
  lemma {:induction false} OneKind(ns: Chain, i: nat, j: nat)
    requires IdentitiesOk(ns) && i < |ns| && j < |ns| && ns[i].mac == ns[j].mac
    ensures ns[i].kind == ns[j].kind
  {
    assert (i < j ==> Compatible(ns[i], ns[j])) && (j < i ==> Compatible(ns[j], ns[i]));
  }

  /** What a slot of a device stands for: a best look, with the group of its relay end. */
  lemma {:induction false} SlotMeaning(ns: Chain, mac: nat, k: nat) returns (b: nat)
    requires IdentitiesOk(ns) && ShapeOk(ns) && k < |SlotsFor(ns, mac)|
    ensures ProperCalls(ns, Calls(ns)) && b < |Calls(ns)| && IsBest(ns, Calls(ns), mac, b)
    ensures ns[Calls(ns)[b].local].mac == mac && ProperCall(ns, Calls(ns)[b])
    ensures SlotsFor(ns, mac)[k] == SlotOf(ns, Calls(ns)[b])
  {
    hide CallsUpTo, SlotsAfter, ProperCall, IdentitiesOk, SlotOf;
    CallsProper(ns, |ns|);
    SlotsAreBest(ns, Calls(ns), mac);
    assert SlotIsBest(ns, Calls(ns), mac, SlotsFor(ns, mac)[k]);
    b :| 0 <= b < |Calls(ns)| && IsBest(ns, Calls(ns), mac, b) && SlotsFor(ns, mac)[k] == SlotOf(ns, Calls(ns)[b]);
    BestInside(ns, Calls(ns), mac, b);
  }

  /** A link gives each end's device a slot for the other end. */
  lemma {:induction false} LinkHasSlots(ns: Chain, s: nat, r: nat) returns (k: nat, l: nat)
    requires IdentitiesOk(ns) && ShapeOk(ns) && Linked(ns, s, r)
    ensures k < |SlotsFor(ns, ns[s].mac)| && SlotsFor(ns, ns[s].mac)[k].peerIdx == r
    ensures l < |SlotsFor(ns, ns[r].mac)| && SlotsFor(ns, ns[r].mac)[l].peerIdx == s
  {
    hide CallsUpTo, SlotsAfter, ProperCall, IdentitiesOk, SlotIsBest;
    CallsProper(ns, |ns|);
    LinkCalled(ns, s, r, |ns|);
    var cs := Calls(ns);
    SlotsAreBest(ns, cs, ns[s].mac);
    SlotsAreBest(ns, cs, ns[r].mac);
    var i :| 0 <= i < |cs| && cs[i] == Call(s, r, Rank(ns, r));
    var j :| 0 <= j < |cs| && cs[j] == Call(r, s, Rank(ns, r));
    k :| 0 <= k < |SlotsFor(ns, ns[s].mac)| && SlotsFor(ns, ns[s].mac)[k].peerIdx == cs[i].peer;
    l :| 0 <= l < |SlotsFor(ns, ns[r].mac)| && SlotsFor(ns, ns[r].mac)[l].peerIdx == cs[j].peer;
  }

  /** A separator device's slot for a relay entry: linked, and in that relay's group. */
  lemma {:induction false} SeparatorSlot(ns: Chain, mac: nat, s0: nat, k: nat) returns (s: nat, r: nat)
    requires IdentitiesOk(ns) && ShapeOk(ns) && s0 < |ns| && ns[s0].mac == mac && IsSeparator(ns[s0].kind)
    requires k < |SlotsFor(ns, mac)|
    ensures Linked(ns, s, r) && ns[s].mac == mac
    ensures SlotsFor(ns, mac)[k].peerIdx == r && SlotsFor(ns, mac)[k].peerMac == ns[r].mac
        && SlotsFor(ns, mac)[k].gid == Rank(ns, r)
  {
    hide CallsUpTo, SlotsAfter, IdentitiesOk, IsBest, SlotsFor;
    var b := SlotMeaning(ns, mac, k);
    var c := Calls(ns)[b];
    OneKind(ns, s0, c.local);
    s, r := c.local, c.peer;
  }

  /** A relay device's slot for a separator entry: from its nearest relay, in that relay's group. */
  lemma {:induction false} RelaySlot(ns: Chain, mac: nat, r0: nat, k: nat) returns (s: nat, r: nat)
    requires IdentitiesOk(ns) && ShapeOk(ns) && r0 < |ns| && ns[r0].mac == mac && IsRelay(ns[r0].kind)
    requires k < |SlotsFor(ns, mac)|
    ensures IsNearest(ns, mac, s, r)
    ensures SlotsFor(ns, mac)[k].peerIdx == s < |ns| && SlotsFor(ns, mac)[k].peerMac == ns[s].mac
        && SlotsFor(ns, mac)[k].gid == Rank(ns, r)
  {
    hide CallsUpTo, SlotsAfter, IdentitiesOk, SlotsFor, IsBest;
    var b := SlotMeaning(ns, mac, k);
    var c := Calls(ns)[b];
    OneKind(ns, r0, c.local);
    r, s := c.local, c.peer;
    BestIsNearest(ns, mac, b);
  }

  lemma {:induction false} BestIsNearest(ns: Chain, mac: nat, b: nat)
    requires IdentitiesOk(ns) && ShapeOk(ns) && ProperCalls(ns, Calls(ns)) && b < |Calls(ns)|
        && IsBest(ns, Calls(ns), mac, b)
    requires ProperCall(ns, Calls(ns)[b]) && IsRelay(ns[Calls(ns)[b].local].kind)
    ensures IsNearest(ns, mac, Calls(ns)[b].peer, Calls(ns)[b].local)
  {
    hide CallsUpTo, IdentitiesOk;
    var cs := Calls(ns);
    var r, s := cs[b].local, cs[b].peer;
    CallsSorted(ns, |ns|);
    forall q: nat | Linked(ns, s, q) && ns[q].mac == mac
      ensures Gap(s, r) <= Gap(s, q) && (Gap(s, r) == Gap(s, q) ==> Rank(ns, r) <= Rank(ns, q))
    {
      LinkCalled(ns, s, q, |ns|);
      var j :| 0 <= j < |cs| && cs[j] == Call(q, s, Rank(ns, q));
      assert Distance(cs[b]) <= Distance(cs[j]);
    }
  }

  lemma {:induction false} SlotGidsPositive(ns: Chain, mac: nat)
    requires IdentitiesOk(ns) && ShapeOk(ns)
    ensures forall k :: 0 <= k < |SlotsFor(ns, mac)| ==> SlotsFor(ns, mac)[k].gid > 0
  {
    hide CallsUpTo, SlotsAfter, IdentitiesOk, IsBest, SlotsFor;
    forall k | 0 <= k < |SlotsFor(ns, mac)| ensures SlotsFor(ns, mac)[k].gid > 0 {
      var b := SlotMeaning(ns, mac, k);
      var c := Calls(ns)[b];
      if Linked(ns, c.local, c.peer) {
        RelayRank(ns, c.local, c.peer);
      } else {
        RelayRank(ns, c.peer, c.local);
      }
    }
  }

  /** Entries `a` and `b` are the two ends of a link. */
  predicate Joined(ns: Chain, a: nat, b: nat) {
    Linked(ns, a, b) || Linked(ns, b, a)
  }

  /**
   A device has exactly one slot for each chain entry one of its own entries is linked to, none for any other,
   and the slot is from its nearest such entry.
  */
  lemma {:induction false} OneSlotPerLinkedPeer(ns: Chain, mac: nat)
    requires IdentitiesOk(ns) && ShapeOk(ns)
    ensures var arr := SlotsFor(ns, mac);
            && (forall k, l :: 0 <= k < l < |arr| ==> arr[k].peerIdx != arr[l].peerIdx)
            && (forall a: nat, p: nat :: Joined(ns, a, p) && a < |ns| && ns[a].mac == mac ==>
                exists k :: 0 <= k < |arr| && arr[k].peerIdx == p)
            && (forall k :: 0 <= k < |arr| ==> NearestOwn(ns, mac, arr[k]))
  {
    hide CallsUpTo, SlotsAfter, IdentitiesOk, ProperCall, SlotIsBest, Linked, NearestOwn;
    var arr := SlotsFor(ns, mac);
    CallsProper(ns, |ns|);
    SlotsAreBest(ns, Calls(ns), mac);
    forall a: nat, p: nat | Joined(ns, a, p) && a < |ns| && ns[a].mac == mac
        ensures exists k :: 0 <= k < |arr| && arr[k].peerIdx == p {
      if Linked(ns, a, p) {
        var k, l := LinkHasSlots(ns, a, p);
      } else {
        LinkedRange(ns, p, a);
        var k, l := LinkHasSlots(ns, p, a);
      }
    }
    forall k | 0 <= k < |arr| ensures NearestOwn(ns, mac, arr[k]) {
      SlotNearest(ns, mac, k);
    }
  }

  /** The slot is for an entry joined to one of the device's own, and from the nearest of those. */
  ghost predicate NearestOwn(ns: Chain, mac: nat, s: Slot) {
    && (exists a: nat :: a < |ns| && ns[a].mac == mac && Joined(ns, a, s.peerIdx) && s.delta == s.peerIdx - a)
    && forall a: nat :: a < |ns| && ns[a].mac == mac && Joined(ns, a, s.peerIdx) ==> Abs(s.delta) <= Gap(a, s.peerIdx)
  }

  lemma {:induction false} SlotNearest(ns: Chain, mac: nat, k: nat)
    requires IdentitiesOk(ns) && ShapeOk(ns) && k < |SlotsFor(ns, mac)|
    ensures NearestOwn(ns, mac, SlotsFor(ns, mac)[k])
  {
    hide CallsUpTo, SlotsAfter, IdentitiesOk, Linked, SlotsFor;
    var b := SlotMeaning(ns, mac, k);
    var cs := Calls(ns);
    var p := cs[b].peer;
    forall a: nat | a < |ns| && ns[a].mac == mac && Joined(ns, a, p) ensures Distance(cs[b]) <= Gap(a, p) {
      if Linked(ns, a, p) {
        LinkedRange(ns, a, p);
        LinkCalled(ns, a, p, |ns|);
        var j :| 0 <= j < |cs| && cs[j] == Call(a, p, Rank(ns, p));
        assert Distance(cs[b]) <= Distance(cs[j]);
      } else {
        LinkedRange(ns, p, a);
        LinkCalled(ns, p, a, |ns|);
        var j :| 0 <= j < |cs| && cs[j] == Call(a, p, Rank(ns, a));
        assert Distance(cs[b]) <= Distance(cs[j]);
      }
    }
  }

  lemma {:induction false} LinkedRange(ns: Chain, s: nat, r: nat)
    requires Linked(ns, s, r)
    ensures s < |ns| && r < |ns| && IsSeparator(ns[s].kind) && IsRelay(ns[r].kind)
  {
  }

  // ---------------------------------------------------------------- the two choices

  /** The separator's device chooses the lowest group in which the two are linked. */
  lemma {:induction false} SeparatorChoice(ns: Chain, sepMac: nat, relayMac: nat, m: nat)
    requires IdentitiesOk(ns) && ShapeOk(ns) && IsLowest(ns, sepMac, relayMac, m)
    ensures KeyGid(SlotsFor(ns, sepMac), relayMac) == m
  {
    hide SlotsFor, IdentitiesOk, Rank, KeyGid;
    var s0, r0 :| MacLink(ns, sepMac, relayMac, s0, r0) && Rank(ns, r0) == m;
    var arr := SlotsFor(ns, sepMac);
    SlotGidsPositive(ns, sepMac);
    KeyIsLowest(arr, relayMac);
    var k, l := LinkHasSlots(ns, s0, r0);
    var s1, r1 := SeparatorSlot(ns, sepMac, s0, k);
    var h :| 0 <= h < |arr| && arr[h].peerMac == relayMac && arr[h].gid == KeyGid(arr, relayMac);
    var s2, r2 := SeparatorSlot(ns, sepMac, s0, h);
    assert MacLink(ns, sepMac, relayMac, s2, r2);
  }

  /** The relay's device chooses the group of the nearest relay for one of the separators. */
  lemma {:induction false} RelayKeyIsNearest(ns: Chain, sepMac: nat, relayMac: nat, s0: nat, r0: nat)
    returns (s: nat, r: nat)
    requires IdentitiesOk(ns) && ShapeOk(ns) && MacLink(ns, sepMac, relayMac, s0, r0)
    ensures IsNearest(ns, relayMac, s, r) && s < |ns| && ns[s].mac == sepMac
        && Rank(ns, r) == KeyGid(SlotsFor(ns, relayMac), sepMac)
  {
    hide SlotsFor, IdentitiesOk, Rank, KeyGid, ShapeOk, Linked, IsNearest;
    LinkedRange(ns, s0, r0);
    var arr := SlotsFor(ns, relayMac);
    SlotGidsPositive(ns, relayMac);
    KeyIsLowest(arr, sepMac);
    var k, l := LinkHasSlots(ns, s0, r0);
    var s1, r1 := RelaySlot(ns, relayMac, r0, l);
    var h :| 0 <= h < |arr| && arr[h].peerMac == sepMac && arr[h].gid == KeyGid(arr, sepMac);
    s, r := RelaySlot(ns, relayMac, r0, h);
  }

  lemma {:induction false} NearestLinked(ns: Chain, relayMac: nat, s: nat, r: nat)
    requires IsNearest(ns, relayMac, s, r)
    ensures Linked(ns, s, r) && s < |ns| && r < |ns| && ns[r].mac == relayMac
  {
  }

  /** The slot for a separator is in the group of its nearest relay. */
  lemma {:induction false} NearestSlot(ns: Chain, sepMac: nat, relayMac: nat, s: nat, r: nat)
    requires IdentitiesOk(ns) && ShapeOk(ns) && IsNearest(ns, relayMac, s, r) && s < |ns| && ns[s].mac == sepMac
    ensures KeyGid(SlotsFor(ns, relayMac), sepMac) <= Rank(ns, r)
  {
    hide SlotsFor, IdentitiesOk, Rank, KeyGid, ShapeOk;
    SlotGidsPositive(ns, relayMac);
    KeyIsLowest(SlotsFor(ns, relayMac), sepMac);
    var k, l := LinkHasSlots(ns, s, r);
    var s1, r1 := RelaySlot(ns, relayMac, r, l);
  }

  /**
   The relay's device chooses the shared lowest group exactly when, for some separator, its nearest relay lies in
   it.
  */
  lemma {:induction false} RelayChoice(ns: Chain, sepMac: nat, relayMac: nat, m: nat)
    requires IdentitiesOk(ns) && ShapeOk(ns) && IsLowest(ns, sepMac, relayMac, m)
    ensures KeyGid(SlotsFor(ns, relayMac), sepMac) >= m
    ensures KeyGid(SlotsFor(ns, relayMac), sepMac) == m <==> NearestInGroup(ns, sepMac, relayMac, m)
  {
    hide SlotsFor, IdentitiesOk, Rank, KeyGid, ShapeOk;
    var s0, r0 :| MacLink(ns, sepMac, relayMac, s0, r0) && Rank(ns, r0) == m;
    var s2, r2 := RelayKeyIsNearest(ns, sepMac, relayMac, s0, r0);
    NearestLinked(ns, relayMac, s2, r2);
    assert MacLink(ns, sepMac, relayMac, s2, r2);
    if NearestInGroup(ns, sepMac, relayMac, m) {
      var s: nat, r: nat :| IsNearest(ns, relayMac, s, r) && s < |ns| && ns[s].mac == sepMac && Rank(ns, r) == m;
      NearestSlot(ns, sepMac, relayMac, s, r);
    }
  }

  /**
   The two ends of a link choose the same key group if and only if, for some separator of the one address
   bounding the lowest group they share, the nearest relay of the other address lies in that group.
  */
  lemma {:induction false} KeysAgreeExactly(ns: Chain, sepMac: nat, relayMac: nat, m: nat)
    requires IdentitiesOk(ns) && ShapeOk(ns) && IsLowest(ns, sepMac, relayMac, m)
    ensures KeyGid(SlotsFor(ns, sepMac), relayMac) == KeyGid(SlotsFor(ns, relayMac), sepMac)
       <==> NearestInGroup(ns, sepMac, relayMac, m)
  {
    hide SlotsFor, IdentitiesOk, Rank, KeyGid, ShapeOk, IsLowest, NearestInGroup;
    SeparatorChoice(ns, sepMac, relayMac, m);
    RelayChoice(ns, sepMac, relayMac, m);
  }

  /** Two linked addresses share a lowest group. */
  lemma {:induction false} LowestExists(ns: Chain, sepMac: nat, relayMac: nat, s: nat, r: nat) returns (m: nat)
    requires MacLink(ns, sepMac, relayMac, s, r)
    ensures IsLowest(ns, sepMac, relayMac, m)
    decreases Rank(ns, r)
  {
    hide Rank;
    if a, b :| MacLink(ns, sepMac, relayMac, a, b) && Rank(ns, b) < Rank(ns, r) {
      m := LowestExists(ns, sepMac, relayMac, a, b);
    } else {
      m := Rank(ns, r);
    }
  }

  /** A relay of the address nearest to a linked separator exists. */
  lemma {:induction false} NearestExists(ns: Chain, relayMac: nat, s: nat, r: nat) returns (n: nat)
    requires Linked(ns, s, r) && ns[r].mac == relayMac
    ensures IsNearest(ns, relayMac, s, n)
    decreases Gap(s, r), Rank(ns, r)
  {
    hide Rank;
    if q: nat :|
      && Linked(ns, s, q) && ns[q].mac == relayMac
      && (Gap(s, q) < Gap(s, r) || (Gap(s, q) == Gap(s, r) && Rank(ns, q) < Rank(ns, r))) {
      n := NearestExists(ns, relayMac, s, q);
    } else {
      n := r;
    }
  }

  /** When all relays of an address lie in one group, both ends of each of its links choose the same key group. */
  lemma {:induction false} OneGroupAgrees(ns: Chain, sepMac: nat, relayMac: nat, s: nat, r: nat)
    requires IdentitiesOk(ns) && ShapeOk(ns) && MacLink(ns, sepMac, relayMac, s, r)
    requires forall i :: 0 <= i < |ns| && ns[i].mac == relayMac ==> Rank(ns, i) == Rank(ns, r)
    ensures KeyGid(SlotsFor(ns, sepMac), relayMac) == KeyGid(SlotsFor(ns, relayMac), sepMac)
  {
    hide SlotsFor, IdentitiesOk, Rank, KeyGid, ShapeOk;
    var m := LowestExists(ns, sepMac, relayMac, s, r);
    var n := NearestExists(ns, relayMac, s, r);
    assert IsNearest(ns, relayMac, s, n) && Rank(ns, n) == Rank(ns, r);
    KeysAgreeExactly(ns, sepMac, relayMac, m);
  }

  /**
   It can fail: with one emulated relay on both sides of a separator, unevenly far, the ends choose groups 1 and 2.
  */
  lemma {:induction false} KeysCanDisagree(a: nat, x: nat, b: nat, y: nat, z: nat)
    requires a != x && a != b && a != y && a != z && x != b && x != y && x != z && b != y && b != z && y != z
    ensures var ns := [Node(S, a, -1), Node(RM, y, 0), Node(R, z, -1), Node(S, x, -1), Node(RM, y, 2), Node(S, b, -1)];
            && ValidChain(ns)
            && KeyGid(SlotsFor(ns, x), y) == 1 && KeyGid(SlotsFor(ns, y), x) == 2
  {
    hide SlotsFor, KeyGid, Rank;
    var ns := [Node(S, a, -1), Node(RM, y, 0), Node(R, z, -1), Node(S, x, -1), Node(RM, y, 2), Node(S, b, -1)];
    SixDevices(ns);
    SixRanks(ns);
    assert MacLink(ns, x, y, 3, 1) && MacLink(ns, x, y, 3, 4);
    assert IsLowest(ns, x, y, 1);
    SeparatorChoice(ns, x, y, 1);
    RelayChoice(ns, x, y, 1);
    assert IsNearest(ns, y, 3, 4);
    NearestSlot(ns, x, y, 3, 4);
  }

  lemma {:induction false} SixDevices(ns: Chain)
    requires |ns| == 6
    ensures |Macs(ns)| <= 6
  {
    assert Macs(ns) == {ns[0].mac, ns[1].mac, ns[2].mac, ns[3].mac, ns[4].mac, ns[5].mac};
  }

  lemma {:induction false} SixRanks(ns: Chain)
    requires |ns| == 6 && IsSeparator(ns[0].kind) && IsRelay(ns[1].kind) && IsRelay(ns[2].kind)
        && IsSeparator(ns[3].kind)
    requires IsRelay(ns[4].kind) && IsSeparator(ns[5].kind)
    ensures Rank(ns, 1) == 1 && Rank(ns, 2) == 1 && Rank(ns, 4) == 2
  {
    assert Rank(ns, 0) == 0 && Rank(ns, 3) == Rank(ns, 2);
  }

  // ---------------------------------------------------------------- the link key

  /** What goes into the keyed hash beside the group's seed: the lower address, the higher, and the group. */
  datatype LmkInput = LmkInput(icm: nat, low: nat, high: nat, gid: nat)

  function Lmk(hmac: (nat, LmkInput) -> nat, seedOf: nat -> nat, icm: nat, local: nat, peer: nat, gid: nat): nat {
    hmac(seedOf(gid), InputOf(icm, local, peer, gid))
  }

  function InputOf(icm: nat, local: nat, peer: nat, gid: nat): LmkInput {
    LmkInput(icm, if local <= peer then local else peer, if local <= peer then peer else local, gid % 256)
  }

  /** The hash is fed the same for two links exactly when they join the same two addresses, whichever is local. */
  lemma {:induction false} SameInputExactly(icm: nat, icm': nat, a: nat, b: nat, c: nat, d: nat, gid: nat, gid': nat)
    ensures InputOf(icm, a, b, gid) == InputOf(icm', c, d, gid')
       <==> icm == icm' && ((a == c && b == d) || (a == d && b == c)) && gid % 256 == gid' % 256
  {
  }

  /** Both ends derive the same key whenever they choose the same group. */
  lemma {:induction false} SameKeyBothEnds(ns: Chain, hmac: (nat, LmkInput) -> nat, seedOf: nat -> nat, icm: nat,
                                           sepMac: nat, relayMac: nat, m: nat)
    requires IdentitiesOk(ns) && ShapeOk(ns) && IsLowest(ns, sepMac, relayMac, m)
    requires NearestInGroup(ns, sepMac, relayMac, m)
    ensures Lmk(hmac, seedOf, icm, sepMac, relayMac, KeyGid(SlotsFor(ns, sepMac), relayMac))
         == Lmk(hmac, seedOf, icm, relayMac, sepMac, KeyGid(SlotsFor(ns, relayMac), sepMac))
  {
    hide SlotsFor, IdentitiesOk, Rank, KeyGid, ShapeOk, IsLowest, NearestInGroup;
    KeysAgreeExactly(ns, sepMac, relayMac, m);
  }
}
