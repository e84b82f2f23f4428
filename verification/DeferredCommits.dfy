/**
 Commits that arrive while their peer is being staged: each leaves the waiting list exactly once, none is
 sent before the stage ended Ok, and commits for other peers keep their place.
*/
module DeferredCommits {
  import opened FixedWidth
  import opened TopologyStaging

  function QueuedIn(log: seq<Entry>): multiset<DeferredCommit> {
    if log == [] then multiset{}
    else QueuedIn(log[..|log| - 1]) + (if log[|log| - 1].Queued? then multiset{log[|log| - 1].commit} else multiset{})
  }

  function LeftIn(log: seq<Entry>): multiset<DeferredCommit> {
    if log == [] then multiset{}
    else LeftIn(log[..|log| - 1]) + (if log[|log| - 1].Left? then multiset{log[|log| - 1].commit} else multiset{})
  }

  /** What follows a commit leaving the list: the one answer its requester gets, or the frame. */
  predicate Answers(left: Entry, next: Entry)
    requires left.Left?
  {
    var d := left.commit;
    match left.how
    case StageFailed(status) => status != Ok && next == Respond(d.source, COMMIT, d.reqId, d.peer, status)
    case SendFailed => next == Respond(d.source, COMMIT, d.reqId, d.peer, InternalError)
    case TimedOut => next == Respond(d.source, COMMIT, d.reqId, d.peer, Timeout)
    case Dispatched => next == Sent(d.peer, d.reqId, Commit)
  }

  ghost predicate LeavesAnswered(log: seq<Entry>) {
    forall i :: 0 <= i < |log| && log[i].Left? ==> i + 1 < |log| && Answers(log[i], log[i + 1])
  }

  /** Everything ever deferred is still waiting or has left, once, and everyone who left was answered. */
  ghost predicate Conserved(log: seq<Entry>, waiting: multiset<DeferredCommit>) {
    QueuedIn(log) == waiting + LeftIn(log) && LeavesAnswered(log)
  }

  lemma AnsweredTwo(log: seq<Entry>, a: Entry, b: Entry)
    requires LeavesAnswered(log) && !b.Left? && (a.Left? ==> Answers(a, b))
    ensures LeavesAnswered(log + [a, b])
  {
  }

  lemma AnsweredOne(log: seq<Entry>, e: Entry)
    requires LeavesAnswered(log) && !e.Left?
    ensures LeavesAnswered(log + [e])
  {
  }

  lemma {:induction false} OneMore(log: seq<Entry>, e: Entry)
    ensures QueuedIn(log + [e]) == QueuedIn(log) + (if e.Queued? then multiset{e.commit} else multiset{})
    ensures LeftIn(log + [e]) == LeftIn(log) + (if e.Left? then multiset{e.commit} else multiset{})
  {
    assert (log + [e])[..|log|] == log;
  }

  lemma {:induction false} TwoMore(log: seq<Entry>, a: Entry, b: Entry)
    requires !b.Queued? && !b.Left?
    ensures QueuedIn(log + [a, b]) == QueuedIn(log) + (if a.Queued? then multiset{a.commit} else multiset{})
    ensures LeftIn(log + [a, b]) == LeftIn(log) + (if a.Left? then multiset{a.commit} else multiset{})
  {
    assert log + [a, b] == (log + [a]) + [b];
    OneMore(log, a);
    OneMore(log + [a], b);
  }

  /** The stage of `peer` last ended Ok and no stage has been opened since. */
  ghost predicate StageJustEndedOk(log: seq<Entry>, peer: nat) {
    exists j :: 0 <= j < |log| && EndedOkAt(log, j, peer)
  }

  ghost predicate EndedOkAt(log: seq<Entry>, j: nat, peer: nat)
    requires j < |log|
  {
    && log[j].Respond? && log[j].cmd == STAGE_SET && log[j].peer == peer && log[j].status == Ok
    && forall m :: j < m < |log| ==> !log[m].Opened?
  }

  ghost predicate DispatchesBacked(log: seq<Entry>) {
    forall i :: 0 <= i < |log| && log[i].Left? && log[i].how == Dispatched ==>
        StageJustEndedOk(log[..i], log[i].commit.peer)
  }

  lemma BackedGrows(log: seq<Entry>, e: Entry)
    requires DispatchesBacked(log)
    requires e.Left? && e.how == Dispatched ==> StageJustEndedOk(log, e.commit.peer)
    ensures DispatchesBacked(log + [e])
  {
    var log' := log + [e];
    forall i | 0 <= i < |log'| && log'[i].Left? && log'[i].how == Dispatched
      ensures StageJustEndedOk(log'[..i], log'[i].commit.peer)
    {
      assert log'[..i] == log[..i];
      assert log[..|log|] == log;
    }
  }

  lemma EndedOkStays(log: seq<Entry>, e: Entry, peer: nat)
    requires StageJustEndedOk(log, peer) && !e.Opened?
    ensures StageJustEndedOk(log + [e], peer)
  {
    var j :| 0 <= j < |log| && EndedOkAt(log, j, peer);
    assert EndedOkAt(log + [e], j, peer);
  }

  ghost predicate DeferredOk(s: Service) {
    Conserved(s.log, multiset(s.deferred)) && DispatchesBacked(s.log)
  }

  /** The commits of other peers, in order. */
  function Others(ds: seq<DeferredCommit>, peer: nat): seq<DeferredCommit> {
    if ds == [] then [] else (if ds[0].peer != peer then [ds[0]] else []) + Others(ds[1..], peer)
  }

  lemma ReleaseOneLeaves(s: Service, d: DeferredCommit, rest: multiset<DeferredCommit>, status: Status, sendOk: bool)
    requires Conserved(s.log, rest + multiset{d}) && DispatchesBacked(s.log)
    requires status == Ok ==> StageJustEndedOk(s.log, d.peer)
    ensures var s' := ReleaseOne(s, d, status, sendOk);
            && Conserved(s'.log, rest) && DispatchesBacked(s'.log)
            && (status == Ok ==> StageJustEndedOk(s'.log, d.peer))
  {
    hide Track;
    var s' := ReleaseOne(s, d, status, sendOk);
    var a, b := s'.log[|s.log|], s'.log[|s.log| + 1];
    assert s'.log == s.log + [a, b] == (s.log + [a]) + [b];
    TwoMore(s.log, a, b);
    AnsweredTwo(s.log, a, b);
    BackedGrows(s.log, a);
    BackedGrows(s.log + [a], b);
    if status == Ok {
      EndedOkStays(s.log, a, d.peer);
      EndedOkStays(s.log + [a], b, d.peer);
    }
    hide QueuedIn, LeftIn, LeavesAnswered, DispatchesBacked, StageJustEndedOk;
  }

  lemma FirstOf(keep: seq<DeferredCommit>, ds: seq<DeferredCommit>)
    requires ds != []
    ensures multiset(keep + [ds[0]]) + multiset(ds[1..]) == multiset(keep) + multiset(ds)
    ensures multiset(keep) + multiset(ds[1..]) + multiset{ds[0]} == multiset(keep) + multiset(ds)
  {
    assert ds == [ds[0]] + ds[1..];
  }

  /** Releasing a peer's commits: all of them leave, each once. */
  lemma {:induction false} ReleaseLeaves(s: Service, ds: seq<DeferredCommit>, keep: seq<DeferredCommit>, peer: nat,
                                         status: Status, sends: seq<bool>)
    requires Conserved(s.log, multiset(keep) + multiset(ds)) && DispatchesBacked(s.log)
    requires status == Ok ==> StageJustEndedOk(s.log, peer)
    ensures DeferredOk(ReleaseCommits(s, ds, keep, peer, status, sends))
    decreases |ds|
  {
    hide Conserved, DispatchesBacked, StageJustEndedOk, ReleaseOne;
    if ds == [] {
      assert multiset(keep) + multiset(ds) == multiset(keep);
    } else {
      FirstOf(keep, ds);
      if ds[0].peer != peer {
        ReleaseLeaves(s, ds[1..], keep + [ds[0]], peer, status, sends);
      } else {
        var sendOk := if |sends| >= |ds| then sends[|sends| - |ds|] else true;
        ReleaseOneLeaves(s, ds[0], multiset(keep) + multiset(ds[1..]), status, sendOk);
        ReleaseLeaves(ReleaseOne(s, ds[0], status, sendOk), ds[1..], keep, peer, status, sends);
      }
    }
  }

  /** The commits of other peers stay, in order. */
  lemma {:induction false} ReleaseKeepsOthers(s: Service, ds: seq<DeferredCommit>, keep: seq<DeferredCommit>, peer: nat,
                                              status: Status, sends: seq<bool>)
    ensures ReleaseCommits(s, ds, keep, peer, status, sends).deferred == keep + Others(ds, peer)
    decreases |ds|
  {
    hide ReleaseOne;
    if ds != [] {
      if ds[0].peer != peer {
        ReleaseKeepsOthers(s, ds[1..], keep + [ds[0]], peer, status, sends);
        assert keep + ([ds[0]] + Others(ds[1..], peer)) == keep + [ds[0]] + Others(ds[1..], peer);
      } else {
        var sendOk := if |sends| >= |ds| then sends[|sends| - |ds|] else true;
        ReleaseKeepsOthers(ReleaseOne(s, ds[0], status, sendOk), ds[1..], keep, peer, status, sends);
        assert [] + Others(ds[1..], peer) == Others(ds[1..], peer);
      }
    }
  }

  /** One commit leaves, with an answer that is no dispatch. */
  lemma LeaveUnsent(log: seq<Entry>, d: DeferredCommit, how: Leaving, b: Entry, rest: multiset<DeferredCommit>)
    requires Conserved(log, rest + multiset{d}) && DispatchesBacked(log) && how != Dispatched
        && Answers(Left(d, how), b)
    ensures Conserved(log + [Left(d, how), b], rest) && DispatchesBacked(log + [Left(d, how), b])
  {
    TwoMore(log, Left(d, how), b);
    AnsweredTwo(log, Left(d, how), b);
    BackedGrows(log, Left(d, how));
    BackedGrows(log + [Left(d, how)], b);
    assert (log + [Left(d, how)]) + [b] == log + [Left(d, how), b];
    hide QueuedIn, LeftIn, LeavesAnswered, DispatchesBacked;
  }

  lemma {:induction false} ExpireLeaves(s: Service, ds: seq<DeferredCommit>, keep: seq<DeferredCommit>)
    requires Conserved(s.log, multiset(keep) + multiset(ds)) && DispatchesBacked(s.log)
    ensures DeferredOk(ExpireCommits(s, ds, keep))
    decreases |ds|
  {
    hide Conserved, DispatchesBacked, Elapsed;
    if ds == [] {
      assert multiset(keep) + multiset(ds) == multiset(keep);
    } else {
      FirstOf(keep, ds);
      if Elapsed(s.now, ds[0].deadline) >= 0 {
        var b := Respond(ds[0].source, COMMIT, ds[0].reqId, ds[0].peer, Timeout);
        LeaveUnsent(s.log, ds[0], TimedOut, b, multiset(keep) + multiset(ds[1..]));
        ExpireLeaves(s.(log := s.log + [Left(ds[0], TimedOut), b]), ds[1..], keep);
      } else {
        ExpireLeaves(s, ds[1..], keep + [ds[0]]);
      }
    }
  }

  lemma PlainEntry(log: seq<Entry>, e: Entry, waiting: multiset<DeferredCommit>)
    requires Conserved(log, waiting) && DispatchesBacked(log) && !e.Queued? && !e.Left?
    ensures Conserved(log + [e], waiting) && DispatchesBacked(log + [e])
  {
    OneMore(log, e);
    AnsweredOne(log, e);
    BackedGrows(log, e);
    hide QueuedIn, LeftIn, LeavesAnswered, DispatchesBacked;
  }

  /** Entries that neither queue nor release a commit. */
  lemma {:induction false} PlainEntries(log: seq<Entry>, es: seq<Entry>, waiting: multiset<DeferredCommit>)
    requires Conserved(log, waiting) && DispatchesBacked(log)
    requires forall i :: 0 <= i < |es| ==> !es[i].Queued? && !es[i].Left?
    ensures Conserved(log + es, waiting) && DispatchesBacked(log + es)
    decreases |es|
  {
    hide Conserved, DispatchesBacked;
    if es == [] {
      assert log + es == log;
    } else {
      var n := |es| - 1;
      PlainEntries(log, es[..n], waiting);
      PlainEntry(log + es[..n], es[n], waiting);
      assert log + es == log + es[..n] + [es[n]];
    }
  }

  lemma {:induction false} StageEndOk(s2: Service, p: Pending, status: Status, before: seq<Entry>, sends: seq<bool>)
    requires s2.log == before + [RespondFor(p, status)] && p.cmd == STAGE_SET
    requires Conserved(s2.log, multiset(s2.deferred)) && DispatchesBacked(s2.log)
    ensures DeferredOk(ReleaseCommits(s2, s2.deferred, [], p.peer, status, sends))
  {
    assert multiset([]) + multiset(s2.deferred) == multiset(s2.deferred);
    if status == Ok {
      assert EndedOkAt(s2.log, |before|, p.peer);
    }
    ReleaseLeaves(s2, s2.deferred, [], p.peer, status, sends);
  }

  lemma StagingOk(s: Service, i: nat, corr: uint32, reply: Reply, sendOk: bool, timeout: uint32, sends: seq<bool>)
    requires DeferredOk(s) && i < |s.pending| && s.pending[i].mode.Staging? && s.pending[i].cmd == STAGE_SET
    ensures DeferredOk(OnStaging(s, i, corr, reply, sendOk, timeout, sends))
  {
    hide Conserved, DispatchesBacked, StageJustEndedOk, ReleaseCommits, OnStageReply;
    var p := s.pending[i];
    var acked := reply.Descriptor? && reply.kind.AckKind?;
    var newCorr := AllocateCorr(s.nextCorr);
    var r := OnStageReply(p.mode.stage, corr, newCorr, reply, sendOk);
    var before := s.log + (if acked then [Acked(p.peer, corr)] else []);
    assert before == s.log || before == s.log + [Acked(p.peer, corr)];
    if acked {
      PlainEntry(s.log, Acked(p.peer, corr), multiset(s.deferred));
    }
    if r.Continues? {
      var es := [Sent(p.peer, newCorr, r.frame), RespondFor(p, OkDeferred)];
      PlainEntries(before, es, multiset(s.deferred));
    } else {
      PlainEntry(before, RespondFor(p, r.status), multiset(s.deferred));
      forall s2: Service | s2.log == before + [RespondFor(p, r.status)] && s2.deferred == s.deferred
        ensures DeferredOk(ReleaseCommits(s2, s2.deferred, [], p.peer, r.status, sends)) {
        StageEndOk(s2, p, r.status, before, sends);
      }
    }
  }

  lemma Queue(log: seq<Entry>, d: DeferredCommit, waiting: seq<DeferredCommit>)
    requires Conserved(log, multiset(waiting)) && DispatchesBacked(log)
    ensures Conserved(log + [Queued(d)], multiset(waiting + [d])) && DispatchesBacked(log + [Queued(d)])
  {
    OneMore(log, Queued(d));
    AnsweredOne(log, Queued(d));
    BackedGrows(log, Queued(d));
    assert multiset(waiting + [d]) == multiset(waiting) + multiset{d};
    hide QueuedIn, LeftIn, LeavesAnswered, DispatchesBacked;
  }

  lemma CommitOk(s: Service, reqId: uint32, source: nat, peer: nat, sendOk: bool, timeout: uint32)
    requires DeferredOk(s)
    ensures DeferredOk(CommitCommand(s, reqId, source, peer, sendOk, timeout))
  {
    hide Conserved, DispatchesBacked, Track, HasStage;
    var s' := CommitCommand(s, reqId, source, peer, sendOk, timeout);
    var d := DeferredCommit(reqId, source, peer, Wrap32(s.now + timeout));
    var b := Respond(source, COMMIT, reqId, peer, OkDeferred);
    if s'.deferred == s.deferred + [d] {
      Queue(s.log, d, s.deferred);
      PlainEntry(s.log + [Queued(d)], b, multiset(s.deferred + [d]));
    } else {
      var es := s'.log[|s.log|..];
      assert s'.log == s.log + es;
      PlainEntries(s.log, es, multiset(s.deferred));
    }
  }

  lemma HandleKeeps(s: Service, e: Event)
    requires DeferredOk(s) && Proper(e) && forall i :: 0 <= i < |s.pending| && s.pending[i].mode.Staging? ==>
        s.pending[i].cmd == STAGE_SET
    ensures DeferredOk(Handle(s, e))
  {
    hide DeferredOk, OnStaging, CommitCommand, Track;
    match e {
      case CommitCmd(reqId, source, peer, sendOk, timeout) => CommitOk(s, reqId, source, peer, sendOk, timeout);
      case ReplyEvent(from, corr, reply, sendOk, timeout, sends) =>
        var i := FindPending(s.pending, from, corr);
        if corr != 0 && i < |s.pending| {
          if s.pending[i].mode.Staging? {
            StagingOk(s, i, corr, reply, sendOk, timeout, sends);
          } else {
            OthersKeep(s, OnOther(s, i, reply, timeout));
          }
        }
      case PruneAt(now) => PruneKeeps(s, now);
      case _ => OthersKeep(s, Handle(s, e));
    }
  }

  lemma PruneKeeps(s: Service, now: uint32)
    requires DeferredOk(s)
    ensures DeferredOk(Prune(s, now))
  {
    var s1 := s.(now := now, pending := Unexpired(s.pending, now));
    assert multiset([]) + multiset(s1.deferred) == multiset(s1.deferred);
    ExpireLeaves(s1, s1.deferred, []);
  }

  lemma OthersKeep(s: Service, s': Service)
    requires DeferredOk(s) && s'.deferred == s.deferred && s.log <= s'.log
    requires forall i :: |s.log| <= i < |s'.log| ==> !s'.log[i].Queued? && !s'.log[i].Left?
    ensures DeferredOk(s')
  {
    var es := s'.log[|s.log|..];
    assert s'.log == s.log + es;
    PlainEntries(s.log, es, multiset(s.deferred));
  }
}
