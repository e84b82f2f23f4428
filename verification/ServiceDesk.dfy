/**
 What the service does with the requests a tick brings: it takes in the first ones while there is room and refuses the
 others, and then one request leaves, the earliest of the most urgent.
*/
module ServiceDesk {
  import opened FixedWidth
  import opened RequestQueue

  /** The command tables: priority and default timeout of a command. */
  type Tables = nat -> (nat, uint32)

  /** The service as its clients see it. */
  datatype Desk = Desk(waiting: seq<Pending>, answers: seq<Answer>, offered: seq<Request>, depth: nat, now: uint32)

  ghost function DeskOf(s: RequestService): (d: Desk)
    reads s
  {
    Desk(s.waiting, s.answers, s.offered, s.depth, s.now)
  }

  function Enqueued(r: Request, tables: Tables, now: uint32): Pending {
    var (priority, timeout) := tables(r.cmd);
    Pending(r, priority, Wrap32(now + if r.timeout == 0 then timeout else r.timeout))
  }

  /** One request offered. */
  function Offer(d: Desk, tables: Tables, r: Request): Desk {
    if |d.waiting| < d.depth then d.(offered := d.offered + [r], waiting := d.waiting + [Enqueued(r, tables, d.now)])
    else d.(offered := d.offered + [r], answers := d.answers + [Answer(r, QueueFull)])
  }

  function OfferAll(d: Desk, tables: Tables, rs: seq<Request>): (e: Desk)
    ensures e.offered == d.offered + rs && e.depth == d.depth && e.now == d.now
  {
    if rs == [] then d else Offer(OfferAll(d, tables, rs[..|rs| - 1]), tables, rs[|rs| - 1])
  }

  lemma {:induction false} OfferMore(d: Desk, tables: Tables, a: seq<Request>, b: seq<Request>)
    ensures OfferAll(d, tables, a + b) == OfferAll(OfferAll(d, tables, a), tables, b)
    decreases |b|
  {
    hide Offer;
    if b == [] {
      assert a + b == a;
    } else {
      var n := |b| - 1;
      assert (a + b)[..|a + b| - 1] == a + b[..n];
      OfferMore(d, tables, a, b[..n]);
    }
  }

  // ---------------------------------------------------------------- who gets in

  function EnqueuedAll(rs: seq<Request>, tables: Tables, now: uint32): (ps: seq<Pending>)
    ensures |ps| == |rs| && forall i :: 0 <= i < |rs| ==> ps[i] == Enqueued(rs[i], tables, now)
  {
    if rs == [] then [] else EnqueuedAll(rs[..|rs| - 1], tables, now) + [Enqueued(rs[|rs| - 1], tables, now)]
  }

  function RefusedAll(rs: seq<Request>): (answers: seq<Answer>)
    ensures |answers| == |rs| && forall i :: 0 <= i < |rs| ==> answers[i] == Answer(rs[i], QueueFull)
  {
    if rs == [] then [] else RefusedAll(rs[..|rs| - 1]) + [Answer(rs[|rs| - 1], QueueFull)]
  }

  lemma {:induction false} RoomForAll(d: Desk, tables: Tables, rs: seq<Request>)
    requires |d.waiting| + |rs| <= d.depth
    ensures OfferAll(d, tables, rs) == d.(offered := d.offered + rs,
                                          waiting := d.waiting + EnqueuedAll(rs, tables, d.now))
    decreases |rs|
  {
    hide Enqueued;
    if rs != [] {
      RoomForAll(d, tables, rs[..|rs| - 1]);
    }
  }

  lemma {:induction false} RoomForNone(d: Desk, tables: Tables, rs: seq<Request>)
    requires |d.waiting| >= d.depth
    ensures OfferAll(d, tables, rs) == d.(offered := d.offered + rs, answers := d.answers + RefusedAll(rs))
    decreases |rs|
  {
    if rs != [] {
      RoomForNone(d, tables, rs[..|rs| - 1]);
    }
  }

  /** A request gets its command's priority, and its own time to live, or its command's when it names none. */
  lemma {:induction false} EnqueuedFor(d: Desk, tables: Tables, rs: seq<Request>, i: nat)
    requires |d.waiting| + |rs| <= d.depth && i < |rs|
    ensures var e := OfferAll(d, tables, rs);
            && |e.waiting| == |d.waiting| + |rs|
            && e.waiting[|d.waiting| + i].request == rs[i]
            && e.waiting[|d.waiting| + i].priority == tables(rs[i].cmd).0
            && (rs[i].timeout != 0 ==> e.waiting[|d.waiting| + i].deadline == Wrap32(d.now + rs[i].timeout))
            && (rs[i].timeout == 0 ==> e.waiting[|d.waiting| + i].deadline == Wrap32(d.now + tables(rs[i].cmd).1))
  {
    hide OfferAll, RefusedAll, Elapsed, IsFirst;
    RoomForAll(d, tables, rs);
    assert EnqueuedAll(rs, tables, d.now)[i] == Enqueued(rs[i], tables, d.now);
  }

  /** As many as there is room for get in, the first ones, in order; each of the others is answered as refused. */
  lemma {:induction false} FirstGetIn(d: Desk, tables: Tables, rs: seq<Request>)
    requires |d.waiting| <= d.depth
    ensures var k := Min(|rs|, d.depth - |d.waiting|);
            OfferAll(d, tables, rs) == Desk(d.waiting + EnqueuedAll(rs[..k], tables, d.now),
                                            d.answers + RefusedAll(rs[k..]), d.offered + rs, d.depth, d.now)
  {
    hide OfferAll, EnqueuedAll;
    var k := Min(|rs|, d.depth - |d.waiting|);
    assert rs[..k] + rs[k..] == rs;
    OfferMore(d, tables, rs[..k], rs[k..]);
    RoomForAll(d, tables, rs[..k]);
    var e := OfferAll(d, tables, rs[..k]);
    if rs[k..] == [] {
      NoneOffered(e, tables);
    } else {
      RoomForNone(e, tables, rs[k..]);
    }
    assert d.offered + rs == d.offered + rs[..k] + rs[k..];
  }

  lemma {:induction false} NoneOffered(d: Desk, tables: Tables)
    ensures OfferAll(d, tables, []) == d && RefusedAll([]) == []
  {
  }

  // ---------------------------------------------------------------- a tick at the desk

  /** Between the two desks only requests were offered. */
  ghost predicate TakenIn(d: Desk, e: Desk, tables: Tables) {
    |d.offered| <= |e.offered| && e == OfferAll(d, tables, e.offered[|d.offered|..])
  }

  lemma NothingTakenIn(d: Desk, tables: Tables)
    ensures TakenIn(d, d, tables)
  {
    assert d.offered[|d.offered|..] == [];
  }

  lemma {:induction false} OneTakenIn(d: Desk, tables: Tables, r: Request)
    ensures TakenIn(d, Offer(d, tables, r), tables)
  {
    var e := Offer(d, tables, r);
    assert e.offered[|d.offered|..] == [r] && [r][..0] == [];
    NoneOffered(d, tables);
  }

  lemma {:induction false} TakenInTwice(d: Desk, e: Desk, f: Desk, tables: Tables)
    requires TakenIn(d, e, tables) && TakenIn(e, f, tables)
    ensures TakenIn(d, f, tables)
  {
    hide OfferAll;
    var a, b := e.offered[|d.offered|..], f.offered[|e.offered|..];
    OfferMore(d, tables, a, b);
    assert f.offered == e.offered + b && e.offered == d.offered + a;
    assert f.offered[|d.offered|..] == a + b;
  }

  /** The service's turn at `at`: the earliest of the most urgent leaves, timed out exactly past its deadline. */
  ghost predicate ServesOne(d: Desk, e: Desk, at: uint32) {
    && e.offered == d.offered && e.depth == d.depth && e.now == at
    && (d.waiting == [] ==> e.waiting == [] && e.answers == d.answers)
    && (d.waiting != [] ==>
          exists k: nat :: IsFirst(d.waiting, k) && e.waiting == Without(d.waiting, k)
            && e.answers == d.answers + [Answer(d.waiting[k].request, Fate(d.waiting[k], at))])
  }

  function Fate(p: Pending, at: uint32): Outcome {
    if Elapsed(at, p.deadline) >= 0 then TimedOut else Execute
  }

  /** A request is late exactly from its deadline on, for half of the clock's range; otherwise it is carried out. */
  lemma LateExactly(p: Pending, at: uint32)
    ensures Fate(p, at) == TimedOut <==> (at - p.deadline) % 0x1_0000_0000 < 0x8000_0000
    ensures Fate(p, at) == Execute <==> (at - p.deadline) % 0x1_0000_0000 >= 0x8000_0000
  {
  }

  /** The desk when all that `e` has more than `d` has been offered. */
  function AfterOffers(d: Desk, e: Desk, tables: Tables): Desk {
    if |d.offered| <= |e.offered| then OfferAll(d, tables, e.offered[|d.offered|..]) else d
  }

  /** A tick at the desk: what was offered is taken in, and then one request is served. */
  ghost predicate Ticked(d: Desk, e: Desk, tables: Tables, at: uint32) {
    |d.offered| <= |e.offered| && ServesOne(AfterOffers(d, e, tables), e, at)
  }

  lemma TickedThrough(d: Desk, between: Desk, e: Desk, tables: Tables, at: uint32)
    requires TakenIn(d, between, tables) && ServesOne(between, e, at)
    ensures Ticked(d, e, tables, at) && AfterOffers(d, e, tables) == between
  {
    hide OfferAll;
  }
}
