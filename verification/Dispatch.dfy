/**
 Handing messages to the mailboxes they are routed to. Whatever the traffic, each mailbox ends up as if only its own
 messages had been pushed into it, in order.
*/
module Dispatch {
  import opened FixedWidth
  import opened Options
  import opened QueueTransport

  /** A mailbox's address, size and overflow policy. */
  datatype Limit = Limit(source: nat, size: nat, policy: OverflowPolicy)

  /** No route means everyone. */
  predicate Reaches(route: Option<nat>, limit: Limit) {
    route == None || route == Some(limit.source)
  }

  function SentTo<T>(boxes: seq<Mailbox<T>>, limits: seq<Limit>, route: Option<nat>, x: T): (bs: seq<Mailbox<T>>)
    requires |boxes| == |limits|
    ensures |bs| == |boxes|
  {
    if boxes == [] then []
    else
      var n := |boxes| - 1;
      SentTo(boxes[..n], limits[..n], route, x)
        + [if Reaches(route, limits[n]) then Pushed(boxes[n], limits[n].size, limits[n].policy, x) else boxes[n]]
  }

  lemma {:induction false} SentToAt<T>(boxes: seq<Mailbox<T>>, limits: seq<Limit>, route: Option<nat>, x: T)
    requires |boxes| == |limits|
    ensures forall i :: 0 <= i < |boxes| ==>
              SentTo(boxes, limits, route, x)[i] ==
                (if Reaches(route, limits[i]) then Pushed(boxes[i], limits[i].size, limits[i].policy, x) else boxes[i])
    decreases |boxes|
  {
    hide Reaches, Pushed;
    if boxes != [] {
      SentToAt(boxes[..|boxes| - 1], limits[..|boxes| - 1], route, x);
    }
  }

  /** How many mailboxes a route reaches. */
  function Routes(limits: seq<Limit>, route: Option<nat>): nat {
    if limits == [] then 0
    else Routes(limits[..|limits| - 1], route) + if Reaches(route, limits[|limits| - 1]) then 1 else 0
  }

  predicate Takes<T>(box: Mailbox<T>, limit: Limit, route: Option<nat>) {
    Reaches(route, limit) && Admit(|box.pending|, limit.size, limit.policy) != Rejected
  }

  /** How many of them let the newcomer in. */
  function Accepting<T>(boxes: seq<Mailbox<T>>, limits: seq<Limit>, route: Option<nat>): (n: nat)
    requires |boxes| == |limits|
    ensures n <= Routes(limits, route)
  {
    if limits == [] then 0
    else
      var n := |limits| - 1;
      Accepting(boxes[..n], limits[..n], route) + if Takes(boxes[n], limits[n], route) then 1 else 0
  }

  lemma {:induction false} RoutesNext<T>(boxes: seq<Mailbox<T>>, limits: seq<Limit>, i: nat, route: Option<nat>)
    requires |boxes| == |limits| && i < |limits|
    ensures Routes(limits[..i + 1], route) == Routes(limits[..i], route) + if Reaches(route, limits[i]) then 1 else 0
    ensures Accepting(boxes[..i + 1], limits[..i + 1], route)
         == Accepting(boxes[..i], limits[..i], route) + if Takes(boxes[i], limits[i], route) then 1 else 0
  {
    assert limits[..i + 1][..i] == limits[..i] && boxes[..i + 1][..i] == boxes[..i];
  }

  lemma {:induction false} RoutesNone<T>(boxes: seq<Mailbox<T>>, limits: seq<Limit>, route: Option<nat>)
    requires boxes == [] && limits == []
    ensures Routes(limits, route) == 0 == Accepting(boxes, limits, route)
  {
  }

  /** The places of the mailboxes of one source. */
  function OfSource(limits: seq<Limit>, source: nat): set<nat> {
    set j: nat | j < |limits| && IsOf(limits, j, source)
  }

  predicate IsOf(limits: seq<Limit>, j: nat, source: nat) {
    j < |limits| && limits[j].source == source
  }

  lemma OfSourceMore(limits: seq<Limit>, source: nat)
    requires limits != []
    ensures var n := |limits| - 1;
            |OfSource(limits, source)| == |OfSource(limits[..n], source)| + if limits[n].source == source then 1 else 0
  {
    var n := |limits| - 1;
    assert forall j: nat ::
             (IsOf(limits, j, source) <==> IsOf(limits[..n], j, source) || (j == n && IsOf(limits, n, source)));
    if limits[n].source == source {
      assert OfSource(limits, source) == OfSource(limits[..n], source) + {n};
    } else {
      assert OfSource(limits, source) == OfSource(limits[..n], source);
    }
  }

  lemma {:induction false} RoutesOfSource(limits: seq<Limit>, source: nat)
    ensures Routes(limits, Some(source)) == |OfSource(limits, source)|
    decreases |limits|
  {
    hide OfSource;
    if limits != [] {
      OfSourceMore(limits, source);
      RoutesOfSource(limits[..|limits| - 1], source);
    } else {
      NoneOfSource(source);
    }
  }

  lemma NoneOfSource(source: nat)
    ensures OfSource([], source) == {}
  {
  }

  lemma {:induction false} RoutesToAll(limits: seq<Limit>)
    ensures Routes(limits, None) == |limits|
    decreases |limits|
  {
    if limits != [] {
      RoutesToAll(limits[..|limits| - 1]);
    }
  }

  // ---------------------------------------------------------------- a run of messages

  /** All the messages, one after the other. */
  function SentAll<T>(boxes: seq<Mailbox<T>>, limits: seq<Limit>, route: T -> Option<nat>,
                      items: seq<T>): (bs: seq<Mailbox<T>>)
    requires |boxes| == |limits|
    ensures |bs| == |boxes|
  {
    if items == [] then boxes
    else
      var n := |items| - 1;
      SentTo(SentAll(boxes, limits, route, items[..n]), limits, route(items[n]), items[n])
  }

  /** How many of them reach no mailbox at all. */
  function Unrouted<T>(limits: seq<Limit>, route: T -> Option<nat>, items: seq<T>): nat {
    if items == [] then 0
    else
      var n := |items| - 1;
      Unrouted(limits, route, items[..n]) + if Routes(limits, route(items[n])) == 0 then 1 else 0
  }

  /** How many of them no mailbox lets in. */
  function Undelivered<T>(boxes: seq<Mailbox<T>>, limits: seq<Limit>, route: T -> Option<nat>, items: seq<T>): nat
    requires |boxes| == |limits|
  {
    if items == [] then 0
    else
      var n := |items| - 1;
      Undelivered(boxes, limits, route, items[..n])
        + if Accepting(SentAll(boxes, limits, route, items[..n]), limits, route(items[n])) == 0 then 1 else 0
  }

  lemma {:induction false} OneMore<T>(boxes: seq<Mailbox<T>>, limits: seq<Limit>, route: T -> Option<nat>,
                                      items: seq<T>, i: nat)
    requires |boxes| == |limits| && i < |items|
    ensures var before, x := SentAll(boxes, limits, route, items[..i]), items[i];
            && SentAll(boxes, limits, route, items[..i + 1]) == SentTo(before, limits, route(x), x)
            && Unrouted(limits, route, items[..i + 1])
               == Unrouted(limits, route, items[..i]) + (if Routes(limits, route(x)) == 0 then 1 else 0)
            && Undelivered(boxes, limits, route, items[..i + 1])
               == Undelivered(boxes, limits, route, items[..i])
                   + (if Accepting(before, limits, route(x)) == 0 then 1 else 0)
  {
    assert items[..i + 1][..i] == items[..i];
  }

  /** The messages routed to one mailbox. */
  function Mine<T>(items: seq<T>, route: T -> Option<nat>, limit: Limit): (mine: seq<T>)
    ensures |mine| <= |items|
  {
    if items == [] then []
    else
      var n := |items| - 1;
      Mine(items[..n], route, limit) + if Reaches(route(items[n]), limit) then [items[n]] else []
  }

  function PushedAll<T>(m: Mailbox<T>, size: nat, policy: OverflowPolicy, xs: seq<T>): Mailbox<T> {
    if xs == [] then m else Pushed(PushedAll(m, size, policy, xs[..|xs| - 1]), size, policy, xs[|xs| - 1])
  }

  /** A mailbox never notices the messages for others. */
  lemma {:induction false} EachGetsItsOwn<T>(boxes: seq<Mailbox<T>>, limits: seq<Limit>, route: T -> Option<nat>,
                                             items: seq<T>, i: nat)
    requires |boxes| == |limits| && i < |boxes|
    ensures SentAll(boxes, limits, route, items)[i]
         == PushedAll(boxes[i], limits[i].size, limits[i].policy, Mine(items, route, limits[i]))
    decreases |items|
  {
    hide Pushed, Reaches, SentTo;
    if items != [] {
      var n := |items| - 1;
      SentToAt(SentAll(boxes, limits, route, items[..n]), limits, route(items[n]), items[n]);
      EachGetsItsOwn(boxes, limits, route, items[..n], i);
      var before := Mine(items[..n], route, limits[i]);
      assert (before + [items[n]])[..|before|] == before;
      assert before + [] == before;
    }
  }

  /** What a full mailbox keeps of its messages: the first ones when it refuses, the last ones when it drops. */
  function Kept<T>(pending: seq<T>, size: nat, policy: OverflowPolicy, xs: seq<T>): seq<T> {
    var all := pending + xs;
    if policy == RejectNew || size == 0 then
      if |all| <= size then all else if |pending| <= size then all[..size] else pending
    else if |all| <= size then all
    else all[|all| - size..]
  }

  lemma {:induction false} RefusingKeeps<T>(m: Mailbox<T>, size: nat, policy: OverflowPolicy, xs: seq<T>)
    requires policy == RejectNew || size == 0
    ensures PushedAll(m, size, policy, xs).pending == Kept(m.pending, size, policy, xs)
    decreases |xs|
  {
    if xs == [] {
      assert m.pending + xs == m.pending;
    } else {
      var n := |xs| - 1;
      RefusingKeeps(m, size, policy, xs[..n]);
      assert m.pending + xs == m.pending + xs[..n] + [xs[n]];
    }
  }

  lemma {:induction false} DroppingKeeps<T>(m: Mailbox<T>, size: nat, xs: seq<T>)
    requires |m.pending| <= size && size > 0
    ensures PushedAll(m, size, DropOldest, xs).pending == Kept(m.pending, size, DropOldest, xs)
    decreases |xs|
  {
    hide Pushed;
    if xs == [] {
      assert m.pending + xs == m.pending;
    } else {
      var n := |xs| - 1;
      DroppingKeeps(m, size, xs[..n]);
      KeepsOneMore(PushedAll(m, size, DropOldest, xs[..n]), m.pending, size, xs[..n], xs[n]);
      assert xs == xs[..n] + [xs[n]];
    }
  }

  lemma {:induction false} KeepsOneMore<T>(m: Mailbox<T>, pending: seq<T>, size: nat, xs: seq<T>, x: T)
    requires m.pending == Kept(pending, size, DropOldest, xs) && size > 0
    ensures Pushed(m, size, DropOldest, x).pending == Kept(pending, size, DropOldest, xs + [x])
  {
    assert pending + (xs + [x]) == pending + xs + [x];
    SlidesOn(pending + xs, x, size);
  }

  lemma SlidesOn<T>(all: seq<T>, x: T, size: nat)
    requires 0 < size
    ensures |all| >= size ==> all[|all| - size..][1..] + [x] == (all + [x])[|all| + 1 - size..]
  {
  }

  /** A mailbox that never outgrew its size ends with its oldest messages, or with its newest, by its policy. */
  lemma {:induction false} PushedAllKeeps<T>(m: Mailbox<T>, size: nat, policy: OverflowPolicy, xs: seq<T>)
    requires |m.pending| <= size
    ensures PushedAll(m, size, policy, xs).pending == Kept(m.pending, size, policy, xs)
  {
    hide PushedAll, Kept;
    if policy == RejectNew || size == 0 {
      RefusingKeeps(m, size, policy, xs);
    } else {
      DroppingKeeps(m, size, xs);
    }
  }

  /** With room for all its messages, a mailbox gets them all, in order, and nothing else. */
  lemma {:induction false} RoomMeansDelivered<T>(boxes: seq<Mailbox<T>>, limits: seq<Limit>, route: T -> Option<nat>,
                                                 items: seq<T>, i: nat)
    requires |boxes| == |limits| && i < |boxes|
    requires |boxes[i].pending| + |Mine(items, route, limits[i])| <= limits[i].size
    ensures SentAll(boxes, limits, route, items)[i].pending == boxes[i].pending + Mine(items, route, limits[i])
  {
    hide SentAll, PushedAll;
    EachGetsItsOwn(boxes, limits, route, items, i);
    PushedAllKeeps(boxes[i], limits[i].size, limits[i].policy, Mine(items, route, limits[i]));
  }

  // ---------------------------------------------------------------- counters

  /** What the mailboxes' own counters say was let in and refused. */
  function LetIn<T>(boxes: seq<Mailbox<T>>): nat {
    if boxes == [] then 0 else LetIn(boxes[..|boxes| - 1]) + boxes[|boxes| - 1].stats.enqueued
  }

  function Refused<T>(boxes: seq<Mailbox<T>>): nat {
    if boxes == [] then 0 else Refused(boxes[..|boxes| - 1]) + boxes[|boxes| - 1].stats.rejected
  }

  /** The counters move by exactly the mailboxes reached. */
  lemma {:induction false} SendingCounts<T>(boxes: seq<Mailbox<T>>, limits: seq<Limit>, route: Option<nat>, x: T)
    requires |boxes| == |limits|
    ensures LetIn(SentTo(boxes, limits, route, x)) == LetIn(boxes) + Accepting(boxes, limits, route)
    ensures Refused(SentTo(boxes, limits, route, x)) + Accepting(boxes, limits, route)
        == Refused(boxes) + Routes(limits, route)
    decreases |boxes|
  {
    hide Pushed, Admit, Reaches;
    if boxes != [] {
      var n := |boxes| - 1;
      SendingCounts(boxes[..n], limits[..n], route, x);
      var after := SentTo(boxes, limits, route, x);
      assert after[..n] == SentTo(boxes[..n], limits[..n], route, x);
      PushCounts(boxes[n], limits[n].size, limits[n].policy, x);
    }
  }

  lemma PushCounts<T>(m: Mailbox<T>, size: nat, policy: OverflowPolicy, x: T)
    ensures Pushed(m, size, policy, x).stats.enqueued == m.stats.enqueued
        + if Admit(|m.pending|, size, policy) != Rejected then 1 else 0
    ensures Pushed(m, size, policy, x).stats.rejected == m.stats.rejected
        + if Admit(|m.pending|, size, policy) == Rejected then 1 else 0
  {
  }

  /** What the runtime counts of the messages it hands out: dispatched, dropped, without a route, refused. */
  datatype Tally = Tally(dispatched: nat, dropped: nat, unrouted: nat, refused: nat)

  /** The tally agrees with what the mailboxes themselves counted, and every message is dispatched or dropped. */
  ghost predicate Tallied<T>(t0: Tally, t1: Tally, before: seq<Mailbox<T>>, limits: seq<Limit>, route: T -> Option<nat>,
                             items: seq<T>)
    requires |before| == |limits|
  {
    var after := SentAll(before, limits, route, items);
    && t1.dispatched - t0.dispatched == LetIn(after) - LetIn(before)
    && t1.refused - t0.refused == Refused(after) - Refused(before)
    && t1.unrouted - t0.unrouted == Unrouted(limits, route, items)
    && t1.dropped - t0.dropped == Undelivered(before, limits, route, items)
  }

  lemma {:induction false} TallyStart<T>(t: Tally, before: seq<Mailbox<T>>, limits: seq<Limit>, route: T -> Option<nat>)
    requires |before| == |limits|
    ensures Tallied(t, t, before, limits, route, []) && SentAll(before, limits, route, []) == before
  {
  }

  lemma {:induction false} TallyMore<T>(t0: Tally, t1: Tally, before: seq<Mailbox<T>>, limits: seq<Limit>,
                                        route: T -> Option<nat>, items: seq<T>, i: nat, delivered: nat, rejected: nat)
    requires |before| == |limits| && i < |items| && Tallied(t0, t1, before, limits, route, items[..i])
    requires Routes(limits, route(items[i])) == delivered + rejected
    requires delivered == Accepting(SentAll(before, limits, route, items[..i]), limits, route(items[i]))
    ensures SentAll(before, limits, route, items[..i + 1])
         == SentTo(SentAll(before, limits, route, items[..i]), limits, route(items[i]), items[i])
    ensures Tallied(t0, Tally(t1.dispatched + delivered, t1.dropped + if delivered == 0 then 1 else 0,
                              t1.unrouted + if delivered + rejected == 0 then 1 else 0, t1.refused + rejected),
                    before, limits, route, items[..i + 1])
  {
    hide SentTo, SentAll, Routes, Accepting, LetIn, Refused, Unrouted, Undelivered;
    OneMore(before, limits, route, items, i);
    SendingCounts(SentAll(before, limits, route, items[..i]), limits, route(items[i]), items[i]);
  }

  /** The first `limit` messages of a queue leave it, and all of them go where their routes say. */
  ghost predicate Handed<T>(queue: seq<T>, left: seq<T>, limit: nat, before: seq<Mailbox<T>>, after: seq<Mailbox<T>>,
                            limits: seq<Limit>, route: T -> Option<nat>, t0: Tally, t1: Tally)
    requires |before| == |limits|
  {
    var sent := queue[..Min(limit, |queue|)];
    && queue == sent + left
    && after == SentAll(before, limits, route, sent)
    && Tallied(t0, t1, before, limits, route, sent)
  }
}
