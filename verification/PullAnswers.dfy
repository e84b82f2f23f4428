/**
 How a pull is answered, reply by reply. A strict node-bundle pull is answered as deferred, and stays, until the last
 missing page of the walk arrives; that page is answered Ok and removes it. All other pulls are judged by the reply
 alone.
*/
module PullAnswers {
  import opened FixedWidth
  import opened NodeBundle
  import opened TopologyStaging

  /**
   A reply that says something: a positive control result, or a descriptor that is no error and can be written out.
  */
  predicate Sound(reply: Reply) {
    || (reply.Control? && reply.ok)
    || (reply.Descriptor? && !reply.kind.ErrorKind? && reply.reencoded)
  }

  predicate IsFailure(reply: Reply) {
    reply.Descriptor? && reply.kind.ErrorKind?
  }

  /** The event is a reply that belongs to pull `p`, the `i`-th pending one. */
  ghost predicate Addressed(s: Service, e: Event, p: Pending, i: nat) {
    && e.ReplyEvent? && e.corr != 0 && i < |s.pending| && s.pending[i] == p && Matches(p, e.from, e.corr)
    && forall j :: 0 <= j < i ==> !Matches(s.pending[j], e.from, e.corr)
  }

  /** One answer goes out and the pull is gone; nothing else changes. */
  ghost predicate Closes(s: Service, s': Service, i: nat, p: Pending, status: Status)
    requires i < |s.pending|
  {
    && s'.log == s.log + [Respond(p.source, p.cmd, p.reqId, p.peer, status)]
    && s'.pending == s.pending[..i] + s.pending[i + 1..]
    && s'.deferred == s.deferred && s'.nextCorr == s.nextCorr && s'.now == s.now
  }

  /** One answer goes out and the pull stays, for `timeout` longer; nothing else changes. */
  ghost predicate StaysOpen(s: Service, s': Service, i: nat, p: Pending, mode: Mode, timeout: uint32)
    requires i < |s.pending|
  {
    && s'.log == s.log + [Respond(p.source, p.cmd, p.reqId, p.peer, OkDeferred)]
    && s'.pending == s.pending[i := p.(mode := mode, chunks := p.chunks + 1, deadline := Wrap32(s.now + timeout))]
    && s'.deferred == s.deferred && s'.nextCorr == s.nextCorr && s'.now == s.now
  }

  lemma ReplyFinds(s: Service, e: Event, p: Pending, i: nat)
    requires Addressed(s, e, p, i)
    ensures FindPending(s.pending, e.from, e.corr) == i && Proper(e)
  {
    hide Matches;
  }

  /**
   Which replies belong to a pull: those of its peer, with its one correlation if it has one, and otherwise any from its
   first to its last; a correlation left at zero stands for the request's id. A stage accepts only the last one sent.
  */
  lemma BelongsExactly(p: Pending, from: nat, corr: uint32)
    ensures p.mode.Staging? ==> (Matches(p, from, corr) <==> from == p.peer && corr == p.corrLast)
    ensures !p.mode.Staging? && p.corrFirst == p.corrLast != 0 ==>
              (Matches(p, from, corr) <==> from == p.peer && corr == p.corrFirst)
    ensures !p.mode.Staging? && p.corrFirst == p.corrLast == 0 ==>
              (Matches(p, from, corr) <==> from == p.peer && corr == p.reqId)
    ensures !p.mode.Staging? && 0 < p.corrFirst <= p.corrLast ==>
              (Matches(p, from, corr) <==> from == p.peer && p.corrFirst <= corr <= p.corrLast)
  {
  }

  // ---------------------------------------------------------------- plain and loose pulls

  /**
   A plain pull ends with its first reply: Ok for a sound one, an error descriptor's failure, or an internal error.
  */
  lemma PlainAnswered(s: Service, e: Event, p: Pending, i: nat)
    requires Addressed(s, e, p, i) && p.mode.Plain?
    ensures Sound(e.reply) ==> Closes(s, Handle(s, e), i, p, Ok)
    ensures IsFailure(e.reply) ==> Closes(s, Handle(s, e), i, p, Failure(e.reply.kind.code))
    ensures !Sound(e.reply) && !IsFailure(e.reply) ==> Closes(s, Handle(s, e), i, p, InternalError)
  {
    ReplyFinds(s, e, p, i);
    hide Matches, FindPending;
  }

  /** A page that says more will follow. */
  predicate MoreFollows(reply: Reply) {
    && reply.Descriptor? && (reply.kind.BundleKind? || reply.kind.DataKind?)
    && reply.kind.page.Paged? && !reply.kind.page.done
  }

  /** A loose bundle pull stays exactly at a sound page that says more will follow; any other reply ends it. */
  lemma LooseAnswered(s: Service, e: Event, p: Pending, i: nat)
    requires Addressed(s, e, p, i) && p.mode.LooseBundle?
    ensures Sound(e.reply) && MoreFollows(e.reply) ==> StaysOpen(s, Handle(s, e), i, p, p.mode, e.timeout)
    ensures Sound(e.reply) && !MoreFollows(e.reply) ==> Closes(s, Handle(s, e), i, p, Ok)
    ensures IsFailure(e.reply) ==> Closes(s, Handle(s, e), i, p, Failure(e.reply.kind.code))
    ensures !Sound(e.reply) && !IsFailure(e.reply) ==> Closes(s, Handle(s, e), i, p, InternalError)
  {
    ReplyFinds(s, e, p, i);
    hide Matches, FindPending;
  }

  /** A strict pull is ended by whatever is not a sound bundle: a positive control result counts as success. */
  lemma StrictRefuses(s: Service, e: Event, p: Pending, i: nat)
    requires Addressed(s, e, p, i) && p.mode.StrictBundle?
    requires !(Sound(e.reply) && e.reply.Descriptor? && e.reply.kind.BundleKind?)
    ensures Sound(e.reply) && e.reply.Control? ==> Closes(s, Handle(s, e), i, p, Ok)
    ensures IsFailure(e.reply) ==> Closes(s, Handle(s, e), i, p, Failure(e.reply.kind.code))
    ensures !(Sound(e.reply) && e.reply.Control?) && !IsFailure(e.reply) ==>
              Closes(s, Handle(s, e), i, p, InternalError)
  {
    ReplyFinds(s, e, p, i);
    hide Matches, FindPending, Complete, OnPage;
  }

  // ---------------------------------------------------------------- strict pulls

  predicate AllArrived(pages: seq<Page>, arrivals: seq<nat>) {
    forall k :: 0 <= k < |pages| ==> k in arrivals
  }

  predicate Indexes(arrivals: seq<nat>, pages: seq<Page>) {
    forall k :: 0 <= k < |arrivals| ==> arrivals[k] < |pages|
  }

  /** The pull has recorded the pages of these arrivals. */
  ghost predicate HasRecorded(p: Pending, pages: seq<Page>, arrivals: seq<nat>)
    requires Indexes(arrivals, pages)
  {
    p.mode == StrictBundle(After(pages, arrivals))
  }

  /** The event brings page `k` of the walk to the pull. */
  ghost predicate Brings(s: Service, e: Event, p: Pending, i: nat, pages: seq<Page>, k: nat) {
    Addressed(s, e, p, i) && k < |pages| && e.reply == Descriptor(BundleKind(pages[k]), true)
  }

  /**
   Whatever has arrived before, in whatever order: with this page every page of the walk has arrived, and the pull is
   answered Ok and gone; or one is still missing, and it is answered as deferred and stays.
  */
  lemma {:induction false} PageAnswered(s: Service, e: Event, p: Pending, i: nat, pages: seq<Page>, total: uint16,
                                        arrivals: seq<nat>, k: nat)
    requires Walk(pages, total) && Indexes(arrivals, pages) && HasRecorded(p, pages, arrivals)
    requires Brings(s, e, p, i, pages, k)
    ensures AllArrived(pages, arrivals + [k]) ==> Closes(s, Handle(s, e), i, p, Ok)
    ensures !AllArrived(pages, arrivals + [k]) ==>
              StaysOpen(s, Handle(s, e), i, p, StrictBundle(After(pages, arrivals + [k])), e.timeout)
  {
    ReplyFinds(s, e, p, i);
    CompletesOnLastMissingPage(pages, total, arrivals + [k]);
    assert (arrivals + [k])[..|arrivals|] == arrivals;
    hide Matches, FindPending, Complete, OnPage, Walk;
  }

  // ---------------------------------------------------------------- whole runs

  /** What happens while a strict pull waits: a page of the walk arrives for it, or something that leaves it alone. */
  datatype Happening = Arrival(event: Event, place: nat, k: nat) | Elsewhere(event: Event)

  /** The pull as it stays after a page. */
  ghost function Kept(s: Service, e: Event, p: Pending, pages: seq<Page>, arrivals: seq<nat>): Pending
    requires e.ReplyEvent? && Indexes(arrivals, pages)
  {
    p.(mode := StrictBundle(After(pages, arrivals)), chunks := p.chunks + 1, deadline := Wrap32(s.now + e.timeout))
  }

  /** The happenings befall pull `p`, with the pages of `arrivals` recorded; nothing follows the last missing page. */
  ghost predicate Befall(s: Service, p: Pending, pages: seq<Page>, arrivals: seq<nat>, hs: seq<Happening>)
    requires Indexes(arrivals, pages)
    decreases |hs|
  {
    hs != [] ==>
      match hs[0]
      case Arrival(e, i, k) =>
        && Brings(s, e, p, i, pages, k)
        && (AllArrived(pages, arrivals + [k]) ==> |hs| == 1)
        && Proper(e)
        && Befall(Handle(s, e), Kept(s, e, p, pages, arrivals + [k]), pages, arrivals + [k], hs[1..])
      case Elsewhere(e) =>
        && Proper(e) && p in Handle(s, e).pending
        && Befall(Handle(s, e), p, pages, arrivals, hs[1..])
  }

  predicate AllProper(hs: seq<Happening>) {
    forall i :: 0 <= i < |hs| ==> Proper(hs[i].event)
  }

  ghost function Finally(s: Service, hs: seq<Happening>): Service
    requires AllProper(hs)
    decreases |hs|
  {
    if hs == [] then s else Finally(Handle(s, hs[0].event), hs[1..])
  }

  function Arrivals(hs: seq<Happening>): seq<nat> {
    if hs == [] then [] else (if hs[0].Arrival? then [hs[0].k] else []) + Arrivals(hs[1..])
  }

  /** What the log gains by the arrivals. */
  ghost function Told(s: Service, hs: seq<Happening>): seq<Entry>
    requires AllProper(hs)
    decreases |hs|
  {
    if hs == [] then []
    else
      var s' := Handle(s, hs[0].event);
      (if hs[0].Arrival? && |s.log| <= |s'.log| then s'.log[|s.log|..] else []) + Told(s', hs[1..])
  }

  /** The right answers to `more`, after `arrivals`: deferred until nothing is missing any more, then Ok. */
  function RightAnswers(p: Pending, pages: seq<Page>, arrivals: seq<nat>, more: seq<nat>): seq<Entry>
    decreases |more|
  {
    if more == [] then []
    else
      var now := arrivals + [more[0]];
      [Respond(p.source, p.cmd, p.reqId, p.peer, if AllArrived(pages, now) then Ok else OkDeferred)]
        + RightAnswers(p, pages, now, more[1..])
  }

  predicate SameRequest(p: Pending, q: Pending) {
    p == q.(mode := p.mode, chunks := p.chunks, deadline := p.deadline)
  }

  /** The last step was the one that closed the pull. */
  ghost predicate JustClosed(s: Service, p: Pending) {
    exists before: Service, i: nat, q: Pending ::
      i < |before.pending| && before.pending[i] == q && SameRequest(q, p) && Closes(before, s, i, q, Ok)
  }

  lemma {:induction false} BefallProper(s: Service, p: Pending, pages: seq<Page>, arrivals: seq<nat>,
                                        hs: seq<Happening>)
    requires Indexes(arrivals, pages) && Befall(s, p, pages, arrivals, hs)
    ensures AllProper(hs)
    decreases |hs|
  {
    hide Handle, Brings, Kept, AllArrived, Proper;
    if hs != [] {
      match hs[0] {
        case Arrival(e, i, k) =>
          PlaceInWalk(s, e, p, i, pages, k);
          BefallProper(Handle(s, e), Kept(s, e, p, pages, arrivals + [k]), pages, arrivals + [k], hs[1..]);
        case Elsewhere(e) =>
          BefallProper(Handle(s, e), p, pages, arrivals, hs[1..]);
      }
      assert forall i :: 0 < i < |hs| ==> hs[i] == hs[1..][i - 1];
    }
  }

  lemma PlaceInWalk(s: Service, e: Event, p: Pending, i: nat, pages: seq<Page>, k: nat)
    requires Brings(s, e, p, i, pages, k)
    ensures e.ReplyEvent? && k < |pages| && i < |s.pending| && s.pending[i] == p
  {
  }

  lemma {:induction false} SameAnswers(p: Pending, q: Pending, pages: seq<Page>, arrivals: seq<nat>, more: seq<nat>)
    requires SameRequest(q, p)
    ensures RightAnswers(q, pages, arrivals, more) == RightAnswers(p, pages, arrivals, more)
    decreases |more|
  {
    if more != [] {
      SameAnswers(p, q, pages, arrivals + [more[0]], more[1..]);
    }
  }

  lemma SameOnceMore(s: Service, p: Pending, q: Pending)
    requires SameRequest(q, p)
    ensures JustClosed(s, q) ==> JustClosed(s, p)
    ensures forall r :: SameRequest(r, q) ==> SameRequest(r, p)
  {
    hide Closes;
    if JustClosed(s, q) {
      var before: Service, i: nat, r: Pending :|
        i < |before.pending| && before.pending[i] == r && SameRequest(r, q) && Closes(before, s, i, r, Ok);
      assert SameRequest(r, p);
    }
  }

  lemma SameAsItself(p: Pending)
    ensures SameRequest(p, p)
  {
  }

  /** The pull a page leaves behind. */
  lemma {:induction false} StaysWithPage(s: Service, e: Event, p: Pending, i: nat, pages: seq<Page>, arrivals: seq<nat>)
    requires e.ReplyEvent? && Indexes(arrivals, pages) && i < |s.pending|
    requires StaysOpen(s, Handle(s, e), i, p, StrictBundle(After(pages, arrivals)), e.timeout)
    ensures var q := Kept(s, e, p, pages, arrivals);
            && q in Handle(s, e).pending && SameRequest(q, p) && HasRecorded(q, pages, arrivals)
            && Handle(s, e).log == s.log + [Respond(p.source, p.cmd, p.reqId, p.peer, OkDeferred)]
  {
    hide Handle;
    assert Handle(s, e).pending[i] == Kept(s, e, p, pages, arrivals);
  }

  lemma ClosedByPage(s: Service, e: Event, p: Pending, i: nat)
    requires i < |s.pending| && s.pending[i] == p && Proper(e) && Closes(s, Handle(s, e), i, p, Ok)
    ensures JustClosed(Handle(s, e), p)
    ensures Handle(s, e).log == s.log + [Respond(p.source, p.cmd, p.reqId, p.peer, Ok)]
  {
    hide Handle;
    assert SameRequest(p, p);
  }

  /**
   In every run: while the pages of one walk arrive for a strict pull, in any order and however often, with anything in
   between that leaves the pull alone, each is answered as deferred and the pull stays with what it has recorded; the
   one that brings the last missing page is answered Ok, and the pull is gone.
  */
  lemma {:induction false} StrictPullRun(s: Service, p: Pending, pages: seq<Page>, total: uint16, arrivals: seq<nat>,
                                         hs: seq<Happening>)
    requires Walk(pages, total) && Indexes(arrivals, pages) && HasRecorded(p, pages, arrivals) && p in s.pending
    requires !AllArrived(pages, arrivals) && Befall(s, p, pages, arrivals, hs) && AllProper(hs)
    ensures Indexes(arrivals + Arrivals(hs), pages)
    ensures Told(s, hs) == RightAnswers(p, pages, arrivals, Arrivals(hs))
    ensures AllArrived(pages, arrivals + Arrivals(hs)) ==> JustClosed(Finally(s, hs), p)
    ensures !AllArrived(pages, arrivals + Arrivals(hs)) ==>
              exists q :: q in Finally(s, hs).pending && SameRequest(q, p)
                          && HasRecorded(q, pages, arrivals + Arrivals(hs))
    decreases |hs|
  {
    hide Handle, Walk, OnPage, AllArrived, Proper, Closes, StaysOpen, Brings, Kept, SameRequest, JustClosed, After;
    if hs == [] {
      assert arrivals + [] == arrivals;
      SameAsItself(p);
      assert p in Finally(s, hs).pending;
    } else {
      match hs[0] {
        case Arrival(e, i, k) =>
          var now, s1 := arrivals + [k], Handle(s, e);
          PlaceInWalk(s, e, p, i, pages, k);
          PageAnswered(s, e, p, i, pages, total, arrivals, k);
          var rest := hs[1..];
          assert arrivals + Arrivals(hs) == now + Arrivals(rest);
          assert Arrivals(hs) == [k] + Arrivals(rest) && ([k] + Arrivals(rest))[1..] == Arrivals(rest);
          if AllArrived(pages, now) {
            ClosedByPage(s, e, p, i);
            assert rest == [] && now + [] == now;
          } else {
            StaysWithPage(s, e, p, i, pages, now);
            var q := Kept(s, e, p, pages, now);
            StrictPullRun(s1, q, pages, total, now, rest);
            SameAnswers(p, q, pages, now, Arrivals(rest));
            SameOnceMore(Finally(s1, rest), p, q);
          }
        case Elsewhere(e) =>
          StrictPullRun(Handle(s, e), p, pages, total, arrivals, hs[1..]);
          assert Arrivals(hs) == [] + Arrivals(hs[1..]) == Arrivals(hs[1..]);
          assert Told(s, hs) == [] + Told(Handle(s, e), hs[1..]) == Told(Handle(s, e), hs[1..]);
      }
    }
  }

  lemma {:induction false} ReplacedIsThere(ps: seq<Pending>, p: Pending)
    ensures p in Replace(ps, p)
  {
    if ps != [] {
      ReplacedIsThere(ps[1..], p);
    }
  }

  /** A strict pull starts out with nothing recorded, answered as deferred. */
  lemma StrictPullStarts(s: Service, e: Event, pages: seq<Page>)
    requires e.PullCmd? && Proper(e) && e.reqId != 0 && e.mode == StrictBundle(NO_BUNDLE)
    ensures Handle(s, e).log == s.log + [Respond(e.source, e.cmd, e.reqId, e.peer, OkDeferred)]
    ensures exists p :: p in Handle(s, e).pending && HasRecorded(p, pages, [])
                        && p.reqId == p.corrFirst == p.corrLast == e.reqId && p.peer == e.peer && p.source == e.source
                        && p.cmd == e.cmd && p.deadline == Wrap32(s.now + e.timeout)
  {
    var p := Pending(e.reqId, e.cmd, e.source, e.peer, Wrap32(s.now + e.timeout), e.reqId, e.reqId, e.mode, 0);
    ReplacedIsThere(s.pending, p);
    assert p in Handle(s, e).pending && HasRecorded(p, pages, []);
  }
}
