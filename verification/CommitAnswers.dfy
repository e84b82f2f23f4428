/**
 What the stage and commit commands are answered, what a failing stage reply leads to, and how the commits that waited
 for a stage leave: one by one, in order, with the log entries spelled out.
*/
module CommitAnswers {
  import opened FixedWidth
  import opened TopologyStaging
  import opened PullAnswers

  /** A stage of the peer is in flight. */
  ghost predicate StageInFlight(s: Service, peer: nat) {
    exists i :: 0 <= i < |s.pending| && s.pending[i].peer == peer && s.pending[i].cmd == STAGE_SET
  }

  // ---------------------------------------------------------------- commands

  /** A stage is refused exactly while the peer has one in flight; otherwise its first frame is sent, or fails. */
  lemma StageCommandAnswered(s: Service, e: Event)
    requires e.StageCmd?
    ensures var (s', corr) := (Handle(s, e), if s.nextCorr < 0x8000_0000 then 0x8000_0000 else s.nextCorr);
            var answer := (status: Status) => Respond(e.source, STAGE_SET, e.reqId, e.peer, status);
            && s'.deferred == s.deferred && s'.now == s.now
            && (StageInFlight(s, e.peer) ==> s' == s.(log := s.log + [answer(QueueFull)]))
            && (!StageInFlight(s, e.peer) && !e.sendOk ==>
                  s'.log == s.log + [answer(InternalError)] && s'.pending == s.pending)
            && (!StageInFlight(s, e.peer) && e.sendOk ==>
                  s'.log == s.log + [Opened(e.peer, e.reqId, e.snapshot), Sent(e.peer, corr, Clear),
                                     answer(OkDeferred)])
            && (!StageInFlight(s, e.peer) && e.sendOk && e.reqId != 0 ==>
                  exists p :: p in s'.pending && p.mode.Staging? && p.mode.stage.snapshot == e.snapshot
                              && p.mode.stage.step == WaitClear && p.peer == e.peer && p.source == e.source
                              && p.reqId == e.reqId && p.cmd == STAGE_SET && p.corrFirst == p.corrLast == corr
                              && p.deadline == Wrap32(s.now + e.timeout))
  {
    if !StageInFlight(s, e.peer) && e.sendOk && e.reqId != 0 {
      var corr := AllocateCorr(s.nextCorr);
      var p := Pending(e.reqId, STAGE_SET, e.source, e.peer, Wrap32(s.now + e.timeout), corr, corr,
                       Staging(Stage(WaitClear, 0, 0, corr, 0, e.snapshot, |s.log|)), 0);
      ReplacedIsThere(s.pending, p);
      assert p in Handle(s, e).pending;
    }
  }

  /** The same requester's commit for the same peer already waits. */
  ghost predicate AlreadyWaits(s: Service, reqId: uint32, source: nat, peer: nat) {
    exists i :: 0 <= i < |s.deferred| && s.deferred[i].reqId == reqId && s.deferred[i].source == source
                && s.deferred[i].peer == peer
  }

  /** A commit waits exactly while its peer's stage is in flight, once; otherwise it goes out at once, or fails. */
  lemma CommitCommandAnswered(s: Service, e: Event)
    requires e.CommitCmd?
    ensures var s' := Handle(s, e);
            var answer := (status: Status) => Respond(e.source, COMMIT, e.reqId, e.peer, status);
            var d := DeferredCommit(e.reqId, e.source, e.peer, Wrap32(s.now + e.timeout));
            && s'.nextCorr == s.nextCorr && s'.now == s.now
            && (StageInFlight(s, e.peer) && AlreadyWaits(s, e.reqId, e.source, e.peer) ==>
                  s' == s.(log := s.log + [answer(OkDeferred)]))
            && (StageInFlight(s, e.peer) && !AlreadyWaits(s, e.reqId, e.source, e.peer) ==>
                  s' == s.(deferred := s.deferred + [d], log := s.log + [Queued(d), answer(OkDeferred)]))
            && (!StageInFlight(s, e.peer) && !e.sendOk ==> s' == s.(log := s.log + [answer(InternalError)]))
            && (!StageInFlight(s, e.peer) && e.sendOk ==>
                  s'.deferred == s.deferred && s'.log == s.log + [Sent(e.peer, e.reqId, Commit), answer(OkDeferred)])
            && (!StageInFlight(s, e.peer) && e.sendOk && e.reqId != 0 ==>
                  Pending(e.reqId, COMMIT, e.source, e.peer, Wrap32(s.now + e.timeout), e.reqId, e.reqId, Plain, 0)
                    in s'.pending)
  {
    var p := Pending(e.reqId, COMMIT, e.source, e.peer, Wrap32(s.now + e.timeout), e.reqId, e.reqId, Plain, 0);
    ReplacedIsThere(s.pending, p);
  }

  /** A pull and another one that takes its place: of the same source and peer, with the same correlations. */
  predicate SameTracked(a: Pending, b: Pending) {
    (a.source, a.peer, a.corrFirst, a.corrLast) == (b.source, b.peer, b.corrFirst, b.corrLast)
  }

  /** Tracking a pull overwrites the first with the same requester, peer and correlations, or adds it at the end. */
  lemma {:induction false} TrackedInPlace(ps: seq<Pending>, p: Pending)
    ensures p.reqId == 0 ==> Track(ps, p) == ps
    ensures p.reqId != 0 && (forall i :: 0 <= i < |ps| ==> !SameTracked(ps[i], p)) ==> Track(ps, p) == ps + [p]
    ensures p.reqId != 0 && (exists i :: 0 <= i < |ps| && SameTracked(ps[i], p)) ==>
              exists i :: 0 <= i < |ps| && SameTracked(ps[i], p) && (forall j :: 0 <= j < i ==> !SameTracked(ps[j], p))
                          && Track(ps, p) == ps[i := p]
    decreases |ps|
  {
    if p.reqId != 0 && ps != [] {
      if SameTracked(ps[0], p) {
        assert Track(ps, p) == ps[0 := p];
      } else {
        TrackedInPlace(ps[1..], p);
        assert forall i :: 0 < i < |ps| ==> ps[i] == ps[1..][i - 1];
        if i :| 0 <= i < |ps| && SameTracked(ps[i], p) {
          assert SameTracked(ps[1..][i - 1], p);
          var j :| 0 <= j < |ps[1..]| && SameTracked(ps[1..][j], p)
                   && (forall k :: 0 <= k < j ==> !SameTracked(ps[1..][k], p)) && Track(ps[1..], p) == ps[1..][j := p];
          assert Track(ps, p) == ps[j + 1 := p];
        }
      }
    }
  }

  // ---------------------------------------------------------------- how waiting commits leave

  /** The log entries of the commits of a peer whose stage has ended, in the order they waited. */
  function Released(ds: seq<DeferredCommit>, peer: nat, status: Status, sends: seq<bool>): seq<Entry>
    decreases |ds|
  {
    if ds == [] then []
    else
      var d, rest := ds[0], Released(ds[1..], peer, status, sends);
      var sent := |sends| < |ds| || sends[|sends| - |ds|];
      if d.peer != peer then rest
      else if status != Ok then [Left(d, StageFailed(status)), Respond(d.source, COMMIT, d.reqId, peer, status)] + rest
      else if sent then [Left(d, Dispatched), Sent(peer, d.reqId, Commit)] + rest
      else [Left(d, SendFailed), Respond(d.source, COMMIT, d.reqId, peer, InternalError)] + rest
  }

  /**
   When a stage has ended, exactly its peer's commits leave: with the stage's own failure, or, after a success, as
   commit frames on the radio; the pulls change only by the commits that went out.
  */
  lemma {:induction false} ReleasedExactly(s: Service, ds: seq<DeferredCommit>, keep: seq<DeferredCommit>, peer: nat,
                                           status: Status, sends: seq<bool>)
    ensures var s' := ReleaseCommits(s, ds, keep, peer, status, sends);
            && s'.log == s.log + Released(ds, peer, status, sends)
            && s'.nextCorr == s.nextCorr && s'.now == s.now && (status != Ok ==> s'.pending == s.pending)
    decreases |ds|
  {
    hide Track, CommitPending;
    if ds != [] {
      if ds[0].peer != peer {
        ReleasedExactly(s, ds[1..], keep + [ds[0]], peer, status, sends);
      } else {
        var sendOk := if |sends| >= |ds| then sends[|sends| - |ds|] else true;
        ReleasedExactly(ReleaseOne(s, ds[0], status, sendOk), ds[1..], keep, peer, status, sends);
      }
    }
  }

  /** A dispatched commit is tracked for the time it had left, or for 1500 milliseconds when it had none. */
  lemma DispatchedIsTracked(s: Service, d: DeferredCommit)
    requires d.reqId != 0
    ensures var left := if d.deadline > s.now then d.deadline - s.now else 1500;
            Pending(d.reqId, COMMIT, d.source, d.peer, Wrap32(s.now + left), d.reqId, d.reqId, Plain, 0)
              in ReleaseOne(s, d, Ok, true).pending
  {
    ReplacedIsThere(s.pending, CommitPending(d, s.now));
  }

  /** The commits that are still in time, in order, and the log entries of the others. */
  function InTime(ds: seq<DeferredCommit>, now: uint32): (seq<DeferredCommit>, seq<Entry>)
    decreases |ds|
  {
    if ds == [] then ([], [])
    else
      var d, rest := ds[0], InTime(ds[1..], now);
      if Elapsed(now, d.deadline) < 0 then ([d] + rest.0, rest.1)
      else (rest.0, [Left(d, TimedOut), Respond(d.source, COMMIT, d.reqId, d.peer, Timeout)] + rest.1)
  }

  lemma {:induction false} ExpiresExactly(s: Service, ds: seq<DeferredCommit>, keep: seq<DeferredCommit>)
    ensures ExpireCommits(s, ds, keep)
         == s.(deferred := keep + InTime(ds, s.now).0, log := s.log + InTime(ds, s.now).1)
    decreases |ds|
  {
    hide Elapsed;
    if ds == [] {
      assert keep + [] == keep && s.log + [] == s.log;
    } else if Elapsed(s.now, ds[0].deadline) >= 0 {
      var two := [Left(ds[0], TimedOut), Respond(ds[0].source, COMMIT, ds[0].reqId, ds[0].peer, Timeout)];
      ExpiresExactly(s.(log := s.log + two), ds[1..], keep);
      assert s.log + two + InTime(ds[1..], s.now).1 == s.log + (two + InTime(ds[1..], s.now).1);
    } else {
      ExpiresExactly(s, ds[1..], keep + [ds[0]]);
      assert keep + [ds[0]] + InTime(ds[1..], s.now).0 == keep + ([ds[0]] + InTime(ds[1..], s.now).0);
    }
  }

  /** Time passing: exactly the pulls and the commits past their deadlines go, the commits with an answer. */
  lemma {:induction false} PruneExactly(s: Service, e: Event)
    requires e.PruneAt?
    ensures var s' := Handle(s, e);
            && s'.now == e.now && s'.nextCorr == s.nextCorr
            && s'.deferred == InTime(s.deferred, e.now).0 && s'.log == s.log + InTime(s.deferred, e.now).1
            && (forall p :: p in s'.pending <==> p in s.pending && Elapsed(e.now, p.deadline) < 0)
  {
    hide Elapsed;
    var s1 := s.(now := e.now, pending := Unexpired(s.pending, e.now));
    ExpiresExactly(s1, s1.deferred, []);
    UnexpiredExactly(s.pending, e.now);
    assert [] + InTime(s.deferred, e.now).0 == InTime(s.deferred, e.now).0;
  }

  lemma {:induction false} UnexpiredExactly(ps: seq<Pending>, now: uint32)
    ensures forall p :: p in Unexpired(ps, now) <==> p in ps && Elapsed(now, p.deadline) < 0
    decreases |ps|
  {
    hide Elapsed;
    if ps != [] {
      UnexpiredExactly(ps[1..], now);
      assert forall p :: p in ps <==> p == ps[0] || p in ps[1..];
    }
  }

  // ---------------------------------------------------------------- a stage that goes on

  /**
   An acknowledgement before the last makes a stage go on with one more frame under a new id; the reply to that frame is
   then the only one that belongs to it, and it has the full time again. A frame that cannot be sent ends it.
  */
  lemma StageGoesOn(s: Service, e: Event, p: Pending, i: nat)
    requires Addressed(s, e, p, i) && p.mode.Staging? && e.reply.Descriptor? && e.reply.kind.AckKind?
    requires p.mode.stage.step in {WaitClear, WaitBegin, WaitGroup, WaitSlot}
    ensures var (s', id) := (Handle(s, e), if s.nextCorr < 0x8000_0000 then 0x8000_0000 else s.nextCorr);
            && s'.nextCorr == (if id == 0xFFFF_FFFF then 0x8000_0000 else id + 1) && s'.now == s.now
            && (e.sendOk ==>
                  && s'.deferred == s.deferred && |s'.pending| == |s.pending| && |s'.log| == |s.log| + 3
                  && var q := s'.pending[i];
                     && s'.pending == s.pending[i := q] && q.mode.Staging?
                     && q.mode.stage.snapshot == p.mode.stage.snapshot
                     && q == Pending(p.reqId, p.cmd, p.source, p.peer, Wrap32(s.now + e.timeout), id, id, q.mode,
                                     p.chunks + 1)
                     && s'.log[|s.log| + 1].Sent?
                     && s'.log == s.log + [Acked(p.peer, e.corr), Sent(p.peer, id, s'.log[|s.log| + 1].frame),
                                           Respond(p.source, p.cmd, p.reqId, p.peer, OkDeferred)])
            && (!e.sendOk ==>
                  && s'.pending == s.pending[..i] + s.pending[i + 1..]
                  && s'.log == s.log + [Acked(p.peer, e.corr)]
                                     + [Respond(p.source, p.cmd, p.reqId, p.peer, InternalError)]
                                     + Released(s.deferred, p.peer, InternalError, e.sends))
  {
    ReplyFinds(s, e, p, i);
    if !e.sendOk {
      var s1 := s.(nextCorr := NextCorr(AllocateCorr(s.nextCorr)), log := s.log + [Acked(p.peer, e.corr)]);
      var s2 := s1.(pending := s.pending[..i] + s.pending[i + 1..],
                    log := s1.log + [Respond(p.source, p.cmd, p.reqId, p.peer, InternalError)]);
      ReleasedExactly(s2, s2.deferred, [], p.peer, InternalError, e.sends);
    }
    hide Matches, FindPending, Released, ReleaseCommits;
  }

  // ---------------------------------------------------------------- a stage that fails

  /**
   Any reply but an acknowledgement ends a stage: with the failure an error descriptor tells, or an internal error; and
   the commits that waited for it leave with the same answer.
  */
  lemma StageFails(s: Service, e: Event, p: Pending, i: nat)
    requires Addressed(s, e, p, i) && p.mode.Staging? && !(e.reply.Descriptor? && e.reply.kind.AckKind?)
    ensures var status := if IsFailure(e.reply) then Failure(e.reply.kind.code) else InternalError;
            var s' := Handle(s, e);
            && s'.log == s.log + [Respond(p.source, p.cmd, p.reqId, p.peer, status)]
                              + Released(s.deferred, p.peer, status, e.sends)
            && s'.pending == s.pending[..i] + s.pending[i + 1..] && s'.nextCorr == s.nextCorr
  {
    ReplyFinds(s, e, p, i);
    var status := if IsFailure(e.reply) then Failure(e.reply.kind.code) else InternalError;
    var s2 := s.(pending := s.pending[..i] + s.pending[i + 1..],
                 log := s.log + [Respond(p.source, p.cmd, p.reqId, p.peer, status)]);
    ReleasedExactly(s2, s2.deferred, [], p.peer, status, e.sends);
    hide Matches, FindPending, Released, ReleaseCommits, OnStageAck;
  }
}
