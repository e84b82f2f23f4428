/**
 The topology planner's chain: which node lists are accepted, and the relay blocks between separators that
 become groups.
*/
module PlannerChain {
  datatype Kind = S | SM | R | RM

  /** A chain entry; addresses are compared as numbers. `vi` is -1 for a physical device. */
  datatype Node = Node(kind: Kind, mac: nat, vi: int)

  type Chain = seq<Node>

  const MAX_PHYSICAL_DEVICES: nat := 14

  predicate IsSeparator(k: Kind) { k == S || k == SM }
  predicate IsRelay(k: Kind) { k == R || k == RM }

  // ---------------------------------------------------------------- what is accepted

  predicate ValidVi(n: Node) {
    match n.kind
    case S => n.vi == -1
    case R => n.vi == -1
    case SM => 0 <= n.vi <= 7
    case RM => 0 <= n.vi <= 15
  }

  /** Two entries may share an address only as children of one emulated device. */
  predicate Compatible(a: Node, b: Node) {
    a.mac == b.mac ==> a.kind == b.kind && (a.kind == SM || a.kind == RM) && a.vi != b.vi
  }

  ghost predicate IdentitiesOk(ns: Chain) {
    && (forall i :: 0 <= i < |ns| ==> ValidVi(ns[i]))
    && forall i, j :: 0 <= i < j < |ns| ==> Compatible(ns[i], ns[j])
  }

  function Macs(ns: Chain): set<nat> {
    set i | 0 <= i < |ns| :: ns[i].mac
  }

  ghost predicate ShapeOk(ns: Chain) {
    && ns != [] && IsSeparator(ns[0].kind) && IsSeparator(ns[|ns| - 1].kind)
    && forall i :: 0 < i < |ns| ==> !(IsSeparator(ns[i - 1].kind) && IsSeparator(ns[i].kind))
  }

  ghost predicate ValidChain(ns: Chain) {
    IdentitiesOk(ns) && |Macs(ns)| <= MAX_PHYSICAL_DEVICES && ShapeOk(ns)
  }

  /** At most fourteen devices. */
  lemma FourteenDevices(ns: Chain)
    requires IdentitiesOk(ns) && ShapeOk(ns)
    ensures ValidChain(ns) <==> |Macs(ns)| < 15
  {
  }

  /** The addresses of one kind, and the children seen for an address, as the parser keeps them. */
  class SeenMacs {
    var sensors: set<nat>
    var relays: set<nat>
    var semuParents: set<nat>
    var remuParents: set<nat>
    var semuVis: set<(nat, int)>
    var remuVis: set<(nat, int)>

    ghost predicate Holds(ns: Chain)
      reads this
    {
      && sensors == MacsOf(ns, S) && relays == MacsOf(ns, R) && semuParents == MacsOf(ns, SM)
           && remuParents == MacsOf(ns, RM)
      && semuVis == VisOf(ns, SM) && remuVis == VisOf(ns, RM)
    }

    constructor ()
      ensures Holds([])
    {
      sensors, relays, semuParents, remuParents, semuVis, remuVis := {}, {}, {}, {}, {}, {};
    }

    /** One chain entry: refused when it clashes with an earlier one. */
    method Accept(n: Node, ghost ns: Chain) returns (ok: bool)
      requires Holds(ns)
      modifies this
      ensures ok <==> ValidVi(n) && forall i :: 0 <= i < |ns| ==> Compatible(ns[i], n)
      ensures ok ==> Holds(ns + [n])
    {
      MacsOfMore(ns, n);
      ClashExactly(ns, n);
      if !ValidVi(n) {
        return false;
      }
      match n.kind {
        case S =>
          if n.mac in sensors || n.mac in relays || n.mac in semuParents || n.mac in remuParents {
            return false;
          }
          sensors := sensors + {n.mac};
        case R =>
          if n.mac in relays || n.mac in sensors || n.mac in semuParents || n.mac in remuParents {
            return false;
          }
          relays := relays + {n.mac};
        case SM =>
          if n.mac in sensors || n.mac in relays || n.mac in remuParents || (n.mac, n.vi) in semuVis {
            return false;
          }
          semuParents := semuParents + {n.mac};
          semuVis := semuVis + {(n.mac, n.vi)};
        case RM =>
          if n.mac in sensors || n.mac in relays || n.mac in semuParents || (n.mac, n.vi) in remuVis {
            return false;
          }
          remuParents := remuParents + {n.mac};
          remuVis := remuVis + {(n.mac, n.vi)};
      }
      return true;
    }
  }

  function MacsOf(ns: Chain, k: Kind): set<nat> {
    set i | 0 <= i < |ns| && ns[i].kind == k :: ns[i].mac
  }

  function VisOf(ns: Chain, k: Kind): set<(nat, int)> {
    set i | 0 <= i < |ns| && ns[i].kind == k :: (ns[i].mac, ns[i].vi)
  }

  lemma {:induction false} MacsOfMore(ns: Chain, n: Node)
    ensures forall k :: MacsOf(ns + [n], k) == MacsOf(ns, k) + (if n.kind == k then {n.mac} else {})
    ensures forall k :: VisOf(ns + [n], k) == VisOf(ns, k) + (if n.kind == k then {(n.mac, n.vi)} else {})
  {
    var more := ns + [n];
    forall k ensures MacsOf(more, k) == MacsOf(ns, k) + (if n.kind == k then {n.mac} else {}) {
      forall m | m in MacsOf(ns, k) + (if n.kind == k then {n.mac} else {}) ensures m in MacsOf(more, k) {
        if m in MacsOf(ns, k) {
          var i :| 0 <= i < |ns| && ns[i].kind == k && ns[i].mac == m;
          assert more[i] == ns[i];
        } else {
          assert more[|ns|] == n;
        }
      }
    }
    forall k ensures VisOf(more, k) == VisOf(ns, k) + (if n.kind == k then {(n.mac, n.vi)} else {}) {
      forall m | m in VisOf(ns, k) + (if n.kind == k then {(n.mac, n.vi)} else {}) ensures m in VisOf(more, k) {
        if m in VisOf(ns, k) {
          var i :| 0 <= i < |ns| && ns[i].kind == k && (ns[i].mac, ns[i].vi) == m;
          assert more[i] == ns[i];
        } else {
          assert more[|ns|] == n;
        }
      }
    }
  }

  /** An entry clashes with an earlier one exactly when its address is in a set it must not be in. */
  lemma {:induction false} ClashExactly(ns: Chain, n: Node)
    ensures (forall i :: 0 <= i < |ns| ==> Compatible(ns[i], n))
       <==> && (forall k :: k != n.kind ==> n.mac !in MacsOf(ns, k))
            && (n.kind == S || n.kind == R ==> n.mac !in MacsOf(ns, n.kind))
            && (n.mac, n.vi) !in VisOf(ns, n.kind)
  {
    if !(forall i :: 0 <= i < |ns| ==> Compatible(ns[i], n)) {
      var i :| 0 <= i < |ns| && !Compatible(ns[i], n);
      assert ns[i].mac in MacsOf(ns, ns[i].kind);
      if ns[i].kind == n.kind && ns[i].vi == n.vi {
        assert (ns[i].mac, ns[i].vi) in VisOf(ns, n.kind);
      }
    }
  }

  /** The four address sets are disjoint, so their sizes add up to the number of devices. */
  lemma {:induction false} DeviceCount(ns: Chain)
    requires IdentitiesOk(ns)
    ensures |MacsOf(ns, S)| + |MacsOf(ns, R)| + |MacsOf(ns, SM)| + |MacsOf(ns, RM)| == |Macs(ns)|
  {
    var s, r, sm, rm := MacsOf(ns, S), MacsOf(ns, R), MacsOf(ns, SM), MacsOf(ns, RM);
    assert Macs(ns) == s + r + sm + rm;
    forall m, k, l | m in MacsOf(ns, k) && m in MacsOf(ns, l) ensures k == l {
      KindOfMac(ns, m, k, l);
    }
    assert s !! r && (s + r) !! sm && (s + r + sm) !! rm;
  }

  lemma {:induction false} KindOfMac(ns: Chain, m: nat, k: Kind, l: Kind)
    requires IdentitiesOk(ns) && m in MacsOf(ns, k) && m in MacsOf(ns, l)
    ensures k == l
  {
    var i :| 0 <= i < |ns| && ns[i].kind == k && ns[i].mac == m;
    var j :| 0 <= j < |ns| && ns[j].kind == l && ns[j].mac == m;
    if i < j {
      assert Compatible(ns[i], ns[j]);
    } else if j < i {
      assert Compatible(ns[j], ns[i]);
    }
  }

  /** Accepts exactly the valid chains. */
  method ParseNodes(ns: Chain) returns (ok: bool)
    ensures ok <==> ValidChain(ns)
  {
    hide Compatible, ValidVi, MacsOf, VisOf, Macs;
    if ns == [] {
      return false;
    }
    var seen := new SeenMacs();
    var i := 0;
    assert ns[..0] == [];
    while i < |ns|
      invariant 0 <= i <= |ns| && seen.Holds(ns[..i]) && fresh(seen)
      invariant IdentitiesOk(ns[..i])
    {
      assert ns[..i + 1] == ns[..i] + [ns[i]];
      var accepted := seen.Accept(ns[i], ns[..i]);
      if !accepted {
        ClashIsInvalid(ns, i);
        return false;
      }
      i := i + 1;
    }
    assert ns[..i] == ns;
    DeviceCount(ns);
    if |seen.sensors| + |seen.relays| + |seen.semuParents| + |seen.remuParents| > MAX_PHYSICAL_DEVICES {
      return false;
    }
    if !IsSeparator(ns[0].kind) || !IsSeparator(ns[|ns| - 1].kind) {
      return false;
    }
    i := 1;
    while i < |ns|
      invariant 1 <= i <= |ns|
      invariant forall k :: 0 < k < i ==> !(IsSeparator(ns[k - 1].kind) && IsSeparator(ns[k].kind))
    {
      if IsSeparator(ns[i - 1].kind) && IsSeparator(ns[i].kind) {
        return false;
      }
      i := i + 1;
    }
    return true;
  }

  lemma {:induction false} ClashIsInvalid(ns: Chain, i: nat)
    requires i < |ns| && !(ValidVi(ns[i]) && forall k :: 0 <= k < i ==> Compatible(ns[..i][k], ns[i]))
    ensures !IdentitiesOk(ns)
  {
    hide Compatible, ValidVi;
    if ValidVi(ns[i]) {
      var k :| 0 <= k < i && !Compatible(ns[..i][k], ns[i]);
      assert !Compatible(ns[k], ns[i]);
    }
  }

  /** An address of a physical device belongs to one entry alone. */
  lemma {:induction false} PhysicalAlone(ns: Chain, i: nat, j: nat)
    requires IdentitiesOk(ns) && i < |ns| && j < |ns| && ns[i].mac == ns[j].mac && ns[i].vi == -1
    ensures i == j
  {
    assert ValidVi(ns[i]);
    assert (i < j ==> Compatible(ns[i], ns[j])) && (j < i ==> Compatible(ns[j], ns[i]));
  }

  /** Address, kind and child index name one entry. */
  lemma {:induction false} IdentityUnique(ns: Chain, i: nat, j: nat)
    requires IdentitiesOk(ns) && i < |ns| && j < |ns| && ns[i].mac == ns[j].mac && ns[i].vi == ns[j].vi
    ensures i == j
  {
    assert (i < j ==> Compatible(ns[i], ns[j])) && (j < i ==> Compatible(ns[j], ns[i]));
  }

  // ---------------------------------------------------------------- separators, blocks, groups

  /** The separators before position `i`; for a relay, the number of its group. */
  function Rank(ns: Chain, i: nat): nat
    requires i <= |ns|
  {
    if i == 0 then 0 else Rank(ns, i - 1) + (if IsSeparator(ns[i - 1].kind) then 1 else 0)
  }

  lemma {:induction false} RankGrows(ns: Chain, i: nat, j: nat)
    requires i <= j <= |ns|
    ensures Rank(ns, i) <= Rank(ns, j)
    ensures Rank(ns, i) == Rank(ns, j) <==> forall k :: i <= k < j ==> IsRelay(ns[k].kind)
    decreases j
  {
    if i < j {
      RankGrows(ns, i, j - 1);
      assert IsSeparator(ns[j - 1].kind) <==> !IsRelay(ns[j - 1].kind);
    }
  }

  /** Only relays strictly between two positions. */
  ghost predicate OnlyRelays(ns: Chain, a: int, b: int)
    requires -1 <= a && b <= |ns|
  {
    forall k :: a < k < b ==> IsRelay(ns[k].kind)
  }

  /** The separator that closes the block of position `i` on its left, and on its right. */
  function LeftSep(ns: Chain, i: nat): (s: nat)
    requires ShapeOk(ns) && 0 < i < |ns|
    ensures s < i && IsSeparator(ns[s].kind) && OnlyRelays(ns, s, i)
  {
    if IsSeparator(ns[i - 1].kind) then i - 1 else LeftSep(ns, i - 1)
  }

  function RightSep(ns: Chain, i: nat): (s: nat)
    requires ShapeOk(ns) && i < |ns| - 1
    ensures i < s < |ns| && IsSeparator(ns[s].kind) && OnlyRelays(ns, i, s)
    decreases |ns| - i
  {
    if IsSeparator(ns[i + 1].kind) then i + 1 else RightSep(ns, i + 1)
  }

  lemma {:induction false} RelayInside(ns: Chain, i: nat)
    requires ShapeOk(ns) && i < |ns| && IsRelay(ns[i].kind)
    ensures 0 < i < |ns| - 1
  {
  }

  datatype Group = Group(gid: nat, left: nat, right: nat, relays: seq<nat>)

  function Range(a: nat, b: nat): (r: seq<nat>)
    requires a <= b
    ensures |r| == b - a && forall k :: 0 <= k < |r| ==> r[k] == a + k
    decreases b - a
  {
    if a == b then [] else [a] + Range(a + 1, b)
  }

  /** The groups of a chain: one for each pair of neighbouring separators, numbered from one, its relays in order. */
  ghost predicate GroupsOf(ns: Chain, gs: seq<Group>)
    requires ShapeOk(ns)
  {
    && |gs| + 1 == Rank(ns, |ns|)
    && (forall k :: 0 <= k < |gs| ==> GroupAt(ns, gs, k))
    && (gs != [] ==> gs[0].left == 0 && gs[|gs| - 1].right == |ns| - 1)
    && forall k :: 0 < k < |gs| ==> gs[k].left == gs[k - 1].right
  }

  ghost predicate GroupAt(ns: Chain, gs: seq<Group>, k: nat)
    requires k < |gs|
  {
    var g := gs[k];
    && g.gid == k + 1 && g.left + 1 < g.right < |ns|
    && IsSeparator(ns[g.left].kind) && IsSeparator(ns[g.right].kind) && OnlyRelays(ns, g.left, g.right)
    && g.relays == Range(g.left + 1, g.right) && Rank(ns, g.left) == k
  }

  lemma GroupsGrow(ns: Chain, gs: seq<Group>, g: Group)
    requires forall k :: 0 <= k < |gs| ==> GroupAt(ns, gs, k)
    requires GroupAt(ns, gs + [g], |gs|)
    ensures forall k :: 0 <= k < |gs| + 1 ==> GroupAt(ns, gs + [g], k)
  {
    forall k | 0 <= k < |gs| ensures GroupAt(ns, gs + [g], k) {
      assert GroupAt(ns, gs, k);
    }
  }

  /** Never refuses a valid chain of two entries or more with as many seeds as groups, and finds exactly its groups. */
  method BuildGroups(ns: Chain, seedCount: nat) returns (ok: bool, groups: seq<Group>)
    requires ShapeOk(ns)
    ensures ok <==> |ns| >= 2 && seedCount + 1 == Rank(ns, |ns|)
    ensures ok ==> GroupsOf(ns, groups) && |groups| == seedCount
  {
    groups := [];
    var i := 0;
    while i < |ns|
      invariant 0 <= i <= |ns|
      invariant i == 0 ==> groups == []
      invariant 0 < i ==> IsSeparator(ns[i - 1].kind) && |groups| + 1 == Rank(ns, i)
      invariant forall k :: 0 <= k < |groups| ==> GroupAt(ns, groups, k)
      invariant groups != [] ==> groups[0].left == 0 && groups[|groups| - 1].right == i - 1
      invariant groups == [] ==> i <= 1
      invariant forall k :: 0 < k < |groups| ==> groups[k].left == groups[k - 1].right
    {
      if IsSeparator(ns[i].kind) {
        assert i == 0;
        i := i + 1;
        continue;
      }
      var left, start := i - 1, i;
      while i < |ns| && IsRelay(ns[i].kind)
        invariant start <= i <= |ns| && OnlyRelays(ns, left, i)
        invariant Rank(ns, i) == Rank(ns, start)
      {
        i := i + 1;
      }
      var right := i;
      GroupsGrow(ns, groups, Group(|groups| + 1, left, right, Range(start, i)));
      groups := groups + [Group(|groups| + 1, left, right, Range(start, i))];
      i := i + 1;
    }
    if groups == [] {
      return false, [];
    }
    if |groups| != seedCount {
      return false, [];
    }
    return true, groups;
  }
}
