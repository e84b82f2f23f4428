/**
 The service's request queue: a request goes in front of the first one of lower urgency, so the queue is always
 the stable sort by priority of the requests accepted and not yet removed.
*/
module RequestQueue {
  import opened FixedWidth

  datatype Request = Request(id: uint32, cmd: nat, source: nat, access: nat, timeout: uint32)

  /** A smaller number is more urgent. */
  datatype Pending = Pending(request: Request, priority: nat, deadline: uint32)

  datatype Outcome = QueueFull | TimedOut | BusyRadioTransition | Execute

  datatype Answer = Answer(request: Request, outcome: Outcome)

  // ---------------------------------------------------------------- stable order

  predicate Sorted(q: seq<Pending>) {
    forall i, j :: 0 <= i < j < |q| ==> q[i].priority <= q[j].priority
  }

  /** The requests of one priority, in order. */
  function OfPriority(q: seq<Pending>, p: nat): seq<Pending> {
    if q == [] then []
    else OfPriority(q[..|q| - 1], p) + (if q[|q| - 1].priority == p then [q[|q| - 1]] else [])
  }

  /** `q` holds the requests of `waiting`, most urgent first, and those of one priority in the order they came. */
  ghost predicate StableSorted(waiting: seq<Pending>, q: seq<Pending>) {
    Sorted(q) && |q| == |waiting| && forall p :: OfPriority(q, p) == OfPriority(waiting, p)
  }

  lemma {:induction false} OfPriorityAppend(a: seq<Pending>, b: seq<Pending>, p: nat)
    ensures OfPriority(a + b, p) == OfPriority(a, p) + OfPriority(b, p)
    decreases |b|
  {
    if b == [] {
      assert a + b == a;
    } else {
      var n := |b| - 1;
      assert (a + b)[..|a + b| - 1] == a + b[..n];
      OfPriorityAppend(a, b[..n], p);
    }
  }

  lemma {:induction false} OfPriorityOne(x: Pending, p: nat)
    ensures OfPriority([x], p) == if x.priority == p then [x] else []
  {
    assert [x][..0] == [];
    assert OfPriority([], p) == [];
  }

  /** No request of a priority means none is listed under it. */
  lemma {:induction false} NoneOfPriority(q: seq<Pending>, p: nat)
    requires forall i :: 0 <= i < |q| ==> q[i].priority != p
    ensures OfPriority(q, p) == []
    decreases |q|
  {
    if q != [] {
      NoneOfPriority(q[..|q| - 1], p);
    }
  }

  lemma {:induction false} ListedIsThere(q: seq<Pending>, p: nat)
    requires OfPriority(q, p) != []
    ensures exists i :: 0 <= i < |q| && q[i].priority == p
  {
    if forall i :: 0 <= i < |q| ==> q[i].priority != p {
      NoneOfPriority(q, p);
    }
  }

  /** The stable sort is unique. */
  lemma {:induction false} StableSortUnique(waiting: seq<Pending>, q: seq<Pending>, r: seq<Pending>)
    requires StableSorted(waiting, q) && StableSorted(waiting, r)
    ensures q == r
  {
    SortedByPriorities(q, r);
  }

  lemma {:induction false} SortedByPriorities(q: seq<Pending>, r: seq<Pending>)
    requires Sorted(q) && Sorted(r) && |q| == |r| && forall p :: OfPriority(q, p) == OfPriority(r, p)
    ensures q == r
    decreases |q|
  {
    hide OfPriority;
    if q != [] {
      var n := |q| - 1;
      var a, b := q[n], r[n];
      if a.priority != b.priority {
        LastPriority(q, r);
        LastPriority(r, q);
      }
      OfPriorityLast(q, a.priority);
      OfPriorityLast(r, a.priority);
      assert OfPriority(q, a.priority)[|OfPriority(q, a.priority)| - 1] == a;
      forall p ensures OfPriority(q[..n], p) == OfPriority(r[..n], p) {
        OfPriorityLast(q, p);
        OfPriorityLast(r, p);
      }
      SortedByPriorities(q[..n], r[..n]);
      assert q == q[..n] + [a] && r == r[..n] + [b];
    }
  }

  lemma {:induction false} OfPriorityLast(q: seq<Pending>, p: nat)
    requires q != []
    ensures OfPriority(q, p) == OfPriority(q[..|q| - 1], p) + if q[|q| - 1].priority == p then [q[|q| - 1]] else []
    ensures q[|q| - 1].priority == p ==> OfPriority(q[..|q| - 1], p) == OfPriority(q, p)[..|OfPriority(q, p)| - 1]
    ensures q[|q| - 1].priority != p ==> OfPriority(q[..|q| - 1], p) == OfPriority(q, p)
  {
  }

  lemma {:induction false} LastPriority(q: seq<Pending>, r: seq<Pending>)
    requires q != [] && |q| == |r| && Sorted(r) && forall p :: OfPriority(q, p) == OfPriority(r, p)
    ensures q[|q| - 1].priority <= r[|r| - 1].priority
  {
    var p := q[|q| - 1].priority;
    assert OfPriority(q, p) != [];
    ListedIsThere(r, p);
  }

  // ---------------------------------------------------------------- inserting, taking, cancelling

  lemma {:induction false} OfPriorityAround(a: seq<Pending>, x: Pending, b: seq<Pending>, p: nat)
    ensures OfPriority(a + [x] + b, p) == OfPriority(a, p) + (if x.priority == p then [x] else []) + OfPriority(b, p)
    ensures OfPriority(a + b, p) == OfPriority(a, p) + OfPriority(b, p)
  {
    hide OfPriority;
    OfPriorityAppend(a + [x], b, p);
    OfPriorityAppend(a, [x], p);
    OfPriorityAppend(a, b, p);
    OfPriorityOne(x, p);
  }

  lemma {:induction false} InsertSorted(q: seq<Pending>, x: Pending, i: nat)
    requires Sorted(q) && i <= |q|
    requires (forall k :: 0 <= k < i ==> q[k].priority <= x.priority) && (i < |q| ==> x.priority < q[i].priority)
    ensures Sorted(q[..i] + [x] + q[i..]) && forall k :: 0 <= k < |q[i..]| ==> x.priority < q[i..][k].priority
  {
    forall k | 0 <= k < |q[i..]| ensures x.priority < q[i..][k].priority {
      assert q[i..][k] == q[i + k];
    }
  }

  /** Inserting in front of the first less urgent request is appending to the arrivals. */
  lemma {:induction false} InsertKeeps(waiting: seq<Pending>, q: seq<Pending>, x: Pending, i: nat)
    requires StableSorted(waiting, q) && i <= |q|
    requires (forall k :: 0 <= k < i ==> q[k].priority <= x.priority) && (i < |q| ==> x.priority < q[i].priority)
    ensures StableSorted(waiting + [x], q[..i] + [x] + q[i..])
  {
    hide OfPriority, Sorted;
    var r := q[..i] + [x] + q[i..];
    InsertSorted(q, x, i);
    assert q == q[..i] + q[i..];
    forall p ensures OfPriority(r, p) == OfPriority(waiting + [x], p) {
      OfPriorityAround(q[..i], x, q[i..], p);
      OfPriorityAppend(waiting, [x], p);
      OfPriorityOne(x, p);
      if p == x.priority {
        NoneOfPriority(q[i..], p);
      }
    }
  }

  /** The earliest among the most urgent arrivals. */
  ghost predicate IsFirst(waiting: seq<Pending>, k: nat) {
    && k < |waiting|
    && (forall i :: 0 <= i < |waiting| ==> waiting[k].priority <= waiting[i].priority)
    && (forall i :: 0 <= i < k ==> waiting[k].priority < waiting[i].priority)
  }

  ghost function Without(waiting: seq<Pending>, k: nat): seq<Pending>
    requires k < |waiting|
  {
    waiting[..k] + waiting[k + 1..]
  }

  /**
   The front of the queue is the earliest of the most urgent arrivals, and the rest is the stable sort of the
   others.
  */
  lemma {:induction false} FrontIsFirst(waiting: seq<Pending>, q: seq<Pending>) returns (k: nat)
    requires StableSorted(waiting, q) && q != []
    ensures k < |waiting| && IsFirst(waiting, k) && waiting[k] == q[0] && StableSorted(Without(waiting, k), q[1..])
  {
    hide OfPriority;
    var p := q[0].priority;
    assert q == [] + [q[0]] + q[1..];
    OfPriorityAround([], q[0], q[1..], p);
    NoneOfPriority([], p);
    k := FirstListed(waiting, p);
    forall i | 0 <= i < |waiting| ensures p <= waiting[i].priority {
      PresentIsListed(waiting, i);
      ListedIsThere(q, waiting[i].priority);
    }
    forall x ensures OfPriority(q[1..], x) == OfPriority(Without(waiting, k), x) {
      FrontListed(waiting, q, k, x);
    }
  }

  lemma {:induction false} FrontListed(waiting: seq<Pending>, q: seq<Pending>, k: nat, x: nat)
    requires q != [] && k < |waiting| && waiting[k] == q[0] && OfPriority(q, x) == OfPriority(waiting, x)
    requires forall i :: 0 <= i < k ==> waiting[i].priority != q[0].priority
    ensures OfPriority(q[1..], x) == OfPriority(Without(waiting, k), x)
  {
    hide OfPriority;
    assert q == [] + [q[0]] + q[1..];
    assert waiting == waiting[..k] + [waiting[k]] + waiting[k + 1..];
    OfPriorityAround([], q[0], q[1..], x);
    OfPriorityAround(waiting[..k], waiting[k], waiting[k + 1..], x);
    NoneOfPriority([], x);
    if x == q[0].priority {
      NoneOfPriority(waiting[..k], x);
      Peeled(q[0], OfPriority(q[1..], x), OfPriority(waiting[k + 1..], x));
    } else {
      PlusNothing([], OfPriority(q[1..], x));
      PlusNothing(OfPriority(waiting[..k], x), OfPriority(waiting[k + 1..], x));
    }
  }

  lemma PlusNothing(a: seq<Pending>, b: seq<Pending>)
    ensures a + [] + b == a + b && [] + b == b && a + [] == a
  {
  }

  lemma Peeled(x: Pending, a: seq<Pending>, b: seq<Pending>)
    requires [] + [x] + a == [] + [x] + b
    ensures a == b == [] + b
  {
    assert ([] + [x] + a)[1..] == a && ([] + [x] + b)[1..] == b;
  }

  /** The first arrival of a priority heads its list. */
  lemma {:induction false} FirstListed(waiting: seq<Pending>, p: nat) returns (k: nat)
    requires OfPriority(waiting, p) != []
    ensures k < |waiting| && waiting[k] == OfPriority(waiting, p)[0] && waiting[k].priority == p
    ensures forall i :: 0 <= i < k ==> waiting[i].priority != p
    decreases |waiting|
  {
    var n := |waiting| - 1;
    if OfPriority(waiting[..n], p) == [] {
      k := n;
      forall i | 0 <= i < n ensures waiting[i].priority != p {
        if waiting[i].priority == p { PresentIsListed(waiting[..n], i); }
      }
    } else {
      k := FirstListed(waiting[..n], p);
    }
  }

  lemma {:induction false} PresentIsListed(q: seq<Pending>, i: nat)
    requires i < |q|
    ensures OfPriority(q, q[i].priority) != []
    decreases |q|
  {
    if i < |q| - 1 {
      PresentIsListed(q[..|q| - 1], i);
    }
  }

  function Kept(q: seq<Pending>, blocked: nat -> bool): seq<Pending> {
    if q == [] then []
    else Kept(q[..|q| - 1], blocked) + (if blocked(q[|q| - 1].request.cmd) then [] else [q[|q| - 1]])
  }

  function Removed(q: seq<Pending>, blocked: nat -> bool): seq<Pending> {
    if q == [] then []
    else Removed(q[..|q| - 1], blocked) + (if blocked(q[|q| - 1].request.cmd) then [q[|q| - 1]] else [])
  }

  /** Keeping the unblocked commutes with listing a priority. */
  lemma {:induction false} KeptOfPriority(q: seq<Pending>, blocked: nat -> bool, p: nat)
    ensures OfPriority(Kept(q, blocked), p) == Kept(OfPriority(q, p), blocked)
    decreases |q|
  {
    if q != [] {
      var n := |q| - 1;
      KeptOfPriority(q[..n], blocked, p);
      var last := if blocked(q[n].request.cmd) then [] else [q[n]];
      OfPriorityAppend(Kept(q[..n], blocked), last, p);
      OfPriorityOne(q[n], p);
      assert OfPriority([], p) == [];
      var tail := if q[n].priority == p then [q[n]] else [];
      KeptAppend(OfPriority(q[..n], p), tail, blocked);
      KeptOne(q[n], blocked);
    }
  }

  lemma {:induction false} KeptAppend(a: seq<Pending>, b: seq<Pending>, blocked: nat -> bool)
    ensures Kept(a + b, blocked) == Kept(a, blocked) + Kept(b, blocked)
    decreases |b|
  {
    if b == [] {
      assert a + b == a;
    } else {
      var n := |b| - 1;
      assert (a + b)[..|a + b| - 1] == a + b[..n];
      KeptAppend(a, b[..n], blocked);
    }
  }

  lemma {:induction false} KeptOne(x: Pending, blocked: nat -> bool)
    ensures Kept([x], blocked) == (if blocked(x.request.cmd) then [] else [x]) && Kept([], blocked) == []
  {
    assert [x][..0] == [];
  }

  lemma {:induction false} KeptSorted(q: seq<Pending>, blocked: nat -> bool)
    requires Sorted(q)
    ensures Sorted(Kept(q, blocked)) && forall i :: 0 <= i < |Kept(q, blocked)| ==> Kept(q, blocked)[i] in q
    decreases |q|
  {
    if q != [] {
      var n := |q| - 1;
      KeptSorted(q[..n], blocked);
      assert q == q[..n] + [q[n]];
      forall i | 0 <= i < |Kept(q[..n], blocked)| ensures Kept(q[..n], blocked)[i].priority <= q[n].priority {
        var x := Kept(q[..n], blocked)[i];
        var k :| 0 <= k < n && q[..n][k] == x;
        assert q[k] == x;
      }
    }
  }

  lemma {:induction false} LastDropped(q: seq<Pending>, w: seq<Pending>, k: nat, p: nat)
    requires q != [] && k < |w| && w[k] == q[|q| - 1] && OfPriority(q, p) == OfPriority(w, p)
    requires forall i :: k < i < |w| ==> w[i].priority != w[k].priority
    ensures OfPriority(q[..|q| - 1], p) == OfPriority(Without(w, k), p)
  {
    hide OfPriority;
    var n := |q| - 1;
    assert q == q[..n] + [q[n]] + [];
    assert w == w[..k] + [w[k]] + w[k + 1..];
    OfPriorityAround(q[..n], q[n], [], p);
    OfPriorityAround(w[..k], w[k], w[k + 1..], p);
    NoneOfPriority([], p);
    if p == w[k].priority {
      NoneOfPriority(w[k + 1..], p);
      PeeledLast(w[k], OfPriority(q[..n], p), OfPriority(w[..k], p));
    } else {
      PlusNothing(OfPriority(q[..n], p), []);
      PlusNothing(OfPriority(w[..k], p), OfPriority(w[k + 1..], p));
    }
  }

  lemma PeeledLast(x: Pending, a: seq<Pending>, b: seq<Pending>)
    requires a + [x] + [] == b + [x] + []
    ensures a == b == b + []
  {
    assert |a| == |b| && (a + [x] + [])[..|a|] == a && (b + [x] + [])[..|b|] == b;
  }

  lemma {:induction false} KeptAround(a: seq<Pending>, x: Pending, b: seq<Pending>, blocked: nat -> bool)
    ensures |Kept(a + [x] + b, blocked)| == |Kept(a + b, blocked)| + (if blocked(x.request.cmd) then 0 else 1)
  {
    hide Kept;
    KeptAppend(a + [x], b, blocked);
    KeptAppend(a, [x], blocked);
    KeptAppend(a, b, blocked);
    KeptOne(x, blocked);
  }

  /** How many of a list are unblocked depends only on what it lists per priority. */
  lemma {:induction false} KeptCount(q: seq<Pending>, w: seq<Pending>, blocked: nat -> bool)
    requires |q| == |w| && forall p :: OfPriority(q, p) == OfPriority(w, p)
    ensures |Kept(q, blocked)| == |Kept(w, blocked)|
    decreases |q|
  {
    hide OfPriority, Kept;
    if q == [] {
      assert w == [];
    } else {
      var n := |q| - 1;
      PresentIsListed(q, n);
      var j := LastListed(q, q[n].priority);
      var k := LastListed(w, q[n].priority);
      forall p ensures OfPriority(q[..n], p) == OfPriority(Without(w, k), p) {
        LastDropped(q, w, k, p);
      }
      KeptCount(q[..n], Without(w, k), blocked);
      KeptAround(q[..n], q[n], [], blocked);
      KeptAround(w[..k], w[k], w[k + 1..], blocked);
      assert q == q[..n] + [q[n]] + [] && q[..n] + [] == q[..n];
      assert w == w[..k] + [w[k]] + w[k + 1..];
    }
  }

  lemma {:induction false} LastListed(w: seq<Pending>, p: nat) returns (k: nat)
    requires OfPriority(w, p) != []
    ensures k < |w| && w[k] == OfPriority(w, p)[|OfPriority(w, p)| - 1] && w[k].priority == p
    ensures forall i :: k < i < |w| ==> w[i].priority != p
    decreases |w|
  {
    var n := |w| - 1;
    if w[n].priority == p {
      k := n;
    } else {
      k := LastListed(w[..n], p);
    }
  }

  /** Cancelling keeps the stable sort of the unblocked arrivals. */
  lemma {:induction false} CancelKeeps(waiting: seq<Pending>, q: seq<Pending>, blocked: nat -> bool)
    requires StableSorted(waiting, q)
    ensures StableSorted(Kept(waiting, blocked), Kept(q, blocked))
  {
    KeptSorted(q, blocked);
    KeptCount(q, waiting, blocked);
    forall p ensures OfPriority(Kept(q, blocked), p) == OfPriority(Kept(waiting, blocked), p) {
      KeptOfPriority(q, blocked, p);
      KeptOfPriority(waiting, blocked, p);
    }
  }

  // ---------------------------------------------------------------- the service

  class RequestService {
    var queue: seq<Pending>
    var depth: nat
    var now: uint32
    var answers: seq<Answer>
    ghost var waiting: seq<Pending>
    ghost var offered: seq<Request>

    ghost predicate Valid()
      reads this
    {
      StableSorted(waiting, queue) && |queue| <= depth
    }

    constructor (maxDepth: nat)
      ensures Valid() && queue == [] && depth == (if maxDepth == 0 then 1 else maxDepth) && now == 0 && answers == []
          && offered == []
    {
      queue, now, answers, waiting, offered := [], 0, [], [], [];
      depth := if maxDepth == 0 then 1 else maxDepth;
    }

    /** `priority` and `defaultTimeout` are the command's own, from the command tables. */
    method Submit(r: Request, priority: nat, defaultTimeout: uint32) returns (ok: bool)
      requires Valid()
      modifies this
      ensures Valid() && depth == old(depth) && now == old(now) && offered == old(offered) + [r]
      ensures ok <==> old(|queue|) < depth
      ensures var deadline := Wrap32(now + if r.timeout == 0 then defaultTimeout else r.timeout);
              ok ==> waiting == old(waiting) + [Pending(r, priority, deadline)]
      ensures ok ==> answers == old(answers)
      ensures !ok ==> waiting == old(waiting) && queue == old(queue) && answers == old(answers) + [Answer(r, QueueFull)]
    {
      offered := offered + [r];
      if |queue| >= depth {
        answers := answers + [Answer(r, QueueFull)];
        return false;
      }
      var p := Pending(r, priority, Wrap32(now + if r.timeout == 0 then defaultTimeout else r.timeout));
      var i := 0;
      while i < |queue| && !(p.priority < queue[i].priority)
        invariant 0 <= i <= |queue|
        invariant forall k :: 0 <= k < i ==> queue[k].priority <= p.priority
      {
        i := i + 1;
      }
      InsertKeeps(waiting, queue, p, i);
      queue := queue[..i] + [p] + queue[i..];
      waiting := waiting + [p];
      return true;
    }

    /** A tick takes the front request, and either times it out or executes it. */
    method TakeNext(at: uint32) returns (taken: bool)
      requires Valid()
      modifies this
      ensures Valid() && depth == old(depth) && now == at && offered == old(offered)
      ensures taken <==> old(queue) != []
      ensures !taken ==> waiting == old(waiting) && answers == old(answers)
      ensures taken ==> exists k: nat :: IsFirst(old(waiting), k) && waiting == Without(old(waiting), k)
                          && answers == old(answers)
                               + [Answer(old(waiting)[k].request,
                                         if Elapsed(at, old(waiting)[k].deadline) >= 0 then TimedOut else Execute)]
    {
      hide StableSorted, IsFirst, Elapsed;
      now := at;
      if queue == [] {
        return false;
      }
      ghost var k := FrontIsFirst(waiting, queue);
      var p := queue[0];
      queue := queue[1..];
      ghost var before := waiting;
      waiting := Without(waiting, k);
      if Elapsed(now, p.deadline) >= 0 {
        answers := answers + [Answer(p.request, TimedOut)];
      } else {
        answers := answers + [Answer(p.request, Execute)];
      }
      assert IsFirst(before, k) && before[k] == p;
      return true;
    }

    /** A radio transition begins: blocked requests leave with an answer each, the others keep their places. */
    method CancelPendingMutatingRequestsForTransition(blocked: nat -> bool)
      requires Valid()
      modifies this
      ensures Valid() && depth == old(depth) && now == old(now) && offered == old(offered)
      ensures waiting == Kept(old(waiting), blocked) && queue == Kept(old(queue), blocked)
      ensures answers == old(answers) + Busy(Removed(old(queue), blocked))
    {
      hide StableSorted, Kept, Removed, Busy;
      CancelKeeps(waiting, queue, blocked);
      KeptShorter(queue, blocked);
      ghost var before, first := queue, answers;
      var kept: seq<Pending> := [];
      ghost var i := 0;
      NothingKept(blocked);
      assert before[..0] == [] && first + [] == first;
      while queue != []
        invariant 0 <= i <= |before| && queue == before[i..]
        invariant kept == Kept(before[..i], blocked)
        invariant answers == first + Busy(Removed(before[..i], blocked))
        invariant waiting == old(waiting) && depth == old(depth) && now == old(now) && offered == old(offered)
        decreases |queue|
      {
        var pending := queue[0];
        queue := queue[1..];
        KeptNext(before, i, blocked);
        if !blocked(pending.request.cmd) {
          kept := kept + [pending];
        } else {
          BusyMore(Removed(before[..i], blocked), pending);
          answers := answers + [Answer(pending.request, BusyRadioTransition)];
        }
        i := i + 1;
      }
      assert before[..i] == before;
      queue := kept;
      waiting := Kept(waiting, blocked);
    }
  }

  lemma {:induction false} KeptNext(q: seq<Pending>, i: nat, blocked: nat -> bool)
    requires i < |q|
    ensures Kept(q[..i + 1], blocked) == if blocked(q[i].request.cmd) then Kept(q[..i], blocked)
        else Kept(q[..i], blocked) + [q[i]]
    ensures Removed(q[..i + 1], blocked) == if blocked(q[i].request.cmd) then Removed(q[..i], blocked) + [q[i]]
        else Removed(q[..i], blocked)
    ensures q[i..][0] == q[i] && q[i..][1..] == q[i + 1..]
  {
    assert q[..i + 1][..i] == q[..i];
  }

  function Busy(ps: seq<Pending>): seq<Answer> {
    if ps == [] then [] else Busy(ps[..|ps| - 1]) + [Answer(ps[|ps| - 1].request, BusyRadioTransition)]
  }

  lemma {:induction false} BusyMore(ps: seq<Pending>, p: Pending)
    ensures Busy(ps + [p]) == Busy(ps) + [Answer(p.request, BusyRadioTransition)]
  {
    assert (ps + [p])[..|ps|] == ps;
  }

  lemma NothingKept(blocked: nat -> bool)
    ensures Kept([], blocked) == [] && Removed([], blocked) == [] && Busy([]) == []
  {
  }

  lemma {:induction false} KeptShorter(q: seq<Pending>, blocked: nat -> bool)
    ensures |Kept(q, blocked)| <= |q|
    decreases |q|
  {
    if q != [] {
      KeptShorter(q[..|q| - 1], blocked);
    }
  }
}
