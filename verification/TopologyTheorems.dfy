/**
 Staging and deferred commits over every run of the service from its empty start: whatever commands, replies
 and timeouts arrive, and in whatever order.
*/
module TopologyTheorems {
  import opened FixedWidth
  import opened TopologyTypes
  import opened TopologyPayload
  import opened TopologyStaging
  import opened TopologyStagingSafety
  import opened TopologySlave
  import opened DeferredCommits

  ghost predicate AllProper(es: seq<Event>) {
    forall i :: 0 <= i < |es| ==> Proper(es[i])
  }

  // ---------------------------------------------------------------- every staging frame is the script's next

  /**
   Since entry `a` opened a stage for the peer, the peer was sent the script's frames in order, each after the
   acknowledgement of the one before, up to the frame of entry `i`.
  */
  ghost predicate ScriptedFrom(log: seq<Entry>, a: nat, i: nat)
    requires a < i < |log|
  {
    && log[i].Sent? && log[a].Opened? && log[a].peer == log[i].peer
    && var ms := Moves(log[i].peer, log[a + 1..i + 1]);
       && Paced(ms, Script(log[a].snapshot))
       && ms != [] && ms[|ms| - 1] == SentMove(log[i].corr, log[i].frame)
  }

  ghost predicate Scripted(log: seq<Entry>, i: nat)
    requires i < |log|
  {
    exists a :: 0 <= a < i && ScriptedFrom(log, a, i)
  }

  predicate StagingSend(e: Entry) {
    e.Sent? && e.frame != Commit
  }

  ghost predicate AllScripted(log: seq<Entry>) {
    forall i :: 0 <= i < |log| && StagingSend(log[i]) ==> Scripted(log, i)
  }

  lemma ScriptedStays(log: seq<Entry>, es: seq<Entry>, i: nat)
    requires i < |log| && Scripted(log, i)
    ensures Scripted(log + es, i)
  {
    var a :| 0 <= a < i && ScriptedFrom(log, a, i);
    assert (log + es)[a + 1..i + 1] == log[a + 1..i + 1];
    assert ScriptedFrom(log + es, a, i);
  }

  lemma NoSendKeeps(log: seq<Entry>, es: seq<Entry>)
    requires AllScripted(log) && forall i :: 0 <= i < |es| ==> !StagingSend(es[i])
    ensures AllScripted(log + es)
  {
    hide Scripted;
    forall i | 0 <= i < |log + es| && StagingSend((log + es)[i]) ensures Scripted(log + es, i) {
      if i < |log| {
        ScriptedStays(log, es, i);
      }
    }
  }

  lemma RecordIsPaced(log: seq<Entry>, p: Pending)
    requires p.mode.Staging? && StageOk(log, p)
    ensures p.mode.stage.openedAt < |log|
    ensures log[p.mode.stage.openedAt] == Opened(p.peer, p.reqId, p.mode.stage.snapshot)
    ensures Paced(MovesAfter(p.peer, log, p.mode.stage.openedAt), Script(p.mode.stage.snapshot))
  {
  }

  /** The last two entries are a send to the peer and the response to its client: the last move is that send. */
  lemma {:induction false} LastMoveIsSend(peer: nat, log: seq<Entry>, a: nat, i: nat)
    requires i + 2 == |log| && a < i && log[i].Sent? && log[i].peer == peer && log[i + 1].Respond?
    ensures MovesAfter(peer, log, a) == Moves(peer, log[a + 1..i + 1])
         == Moves(peer, log[a + 1..i]) + [SentMove(log[i].corr, log[i].frame)]
  {
    var tail := log[a + 1..];
    assert tail[..|tail| - 1] == log[a + 1..i + 1] && tail[|tail| - 1] == log[i + 1];
    assert log[a + 1..i + 1][..i - a - 1] == log[a + 1..i];
    assert Moves(peer, log[a + 1..i + 1]) + [] == Moves(peer, log[a + 1..i + 1]);
  }

  /** The send a stage request's own record vouches for. */
  lemma SendIsScripted(log: seq<Entry>, p: Pending, i: nat)
    requires p.mode.Staging? && StageOk(log, p) && i + 2 == |log| && p.mode.stage.openedAt < i
    requires log[i].Sent? && log[i].peer == p.peer && log[i + 1].Respond?
    ensures Scripted(log, i)
  {
    hide StageOk, Paced, Script, Moves, MovesAfter;
    RecordIsPaced(log, p);
    LastMoveIsSend(p.peer, log, p.mode.stage.openedAt, i);
    assert ScriptedFrom(log, p.mode.stage.openedAt, i);
  }

  lemma OneSendKeeps(log: seq<Entry>, es: seq<Entry>, p: Pending, k: nat)
    requires AllScripted(log) && k + 2 == |es| && es[k].Sent? && es[k].peer == p.peer && es[k + 1].Respond?
    requires forall j :: 0 <= j < k ==> !StagingSend(es[j])
    requires p.mode.Staging? && StageOk(log + es, p) && p.mode.stage.openedAt < |log| + k
    ensures AllScripted(log + es)
  {
    hide Scripted, StageOk;
    SendIsScripted(log + es, p, |log| + k);
    forall i | 0 <= i < |log + es| && StagingSend((log + es)[i]) ensures Scripted(log + es, i) {
      if i < |log| {
        ScriptedStays(log, es, i);
      } else {
        assert (log + es)[i] == es[i - |log|];
      }
    }
  }

  lemma {:induction false} ReleaseSendsNone(s: Service, ds: seq<DeferredCommit>, keep: seq<DeferredCommit>, peer: nat,
                                            status: Status, sends: seq<bool>)
    requires AllScripted(s.log)
    ensures AllScripted(ReleaseCommits(s, ds, keep, peer, status, sends).log)
    decreases |ds|
  {
    hide AllScripted, Track;
    if ds != [] {
      if ds[0].peer != peer {
        ReleaseSendsNone(s, ds[1..], keep + [ds[0]], peer, status, sends);
      } else {
        var sendOk := if |sends| >= |ds| then sends[|sends| - |ds|] else true;
        var s1 := ReleaseOne(s, ds[0], status, sendOk);
        var es := s1.log[|s.log|..];
        assert s1.log == s.log + es;
        NoSendKeeps(s.log, es);
        hide ReleaseOne;
        ReleaseSendsNone(s1, ds[1..], keep, peer, status, sends);
      }
    }
  }

  lemma {:induction false} ExpireSendsNone(s: Service, ds: seq<DeferredCommit>, keep: seq<DeferredCommit>)
    requires AllScripted(s.log)
    ensures AllScripted(ExpireCommits(s, ds, keep).log)
    decreases |ds|
  {
    hide AllScripted, Elapsed;
    if ds != [] {
      var es := [Left(ds[0], TimedOut), Respond(ds[0].source, COMMIT, ds[0].reqId, ds[0].peer, Timeout)];
      if Elapsed(s.now, ds[0].deadline) >= 0 {
        NoSendKeeps(s.log, es);
        ExpireSendsNone(s.(log := s.log + es), ds[1..], keep);
      } else {
        ExpireSendsNone(s, ds[1..], keep + [ds[0]]);
      }
    }
  }

  lemma StagingEndScripted(s: Service, i: nat, corr: uint32, reply: Reply, sendOk: bool, timeout: uint32,
                           sends: seq<bool>)
    requires AllScripted(s.log) && i < |s.pending| && s.pending[i].mode.Staging?
    requires OnStageReply(s.pending[i].mode.stage, corr, AllocateCorr(s.nextCorr), reply, sendOk).Ended?
    ensures AllScripted(OnStaging(s, i, corr, reply, sendOk, timeout, sends).log)
  {
    hide AllScripted, ReleaseCommits, OnStageReply, AllocateCorr;
    var p := s.pending[i];
    var status := OnStageReply(p.mode.stage, corr, AllocateCorr(s.nextCorr), reply, sendOk).status;
    var acks := if reply.Descriptor? && reply.kind.AckKind? then [Acked(p.peer, corr)] else [];
    var es := acks + [RespondFor(p, status)];
    NoSendKeeps(s.log, es);
    assert s.log + es == s.log + acks + [RespondFor(p, status)];
    assert s.log + [] == s.log;
    forall s2: Service | s2.log == s.log + es
      ensures AllScripted(ReleaseCommits(s2, s2.deferred, [], p.peer, status, sends).log)
    {
      ReleaseSendsNone(s2, s2.deferred, [], p.peer, status, sends);
    }
  }

  lemma StagingReplyScripted(s: Service, i: nat, corr: uint32, reply: Reply, sendOk: bool, timeout: uint32,
                             sends: seq<bool>)
    requires ServiceOk(s) && AllScripted(s.log)
    requires i < |s.pending| && s.pending[i].mode.Staging? && corr == s.pending[i].corrLast
    ensures AllScripted(OnStaging(s, i, corr, reply, sendOk, timeout, sends).log)
  {
    hide AllScripted, ReleaseCommits, OnStageReply, StageOk, OksBacked, AllocateCorr;
    var p := s.pending[i];
    var newCorr := AllocateCorr(s.nextCorr);
    var r := OnStageReply(p.mode.stage, corr, newCorr, reply, sendOk);
    if r.Ended? {
      StagingEndScripted(s, i, corr, reply, sendOk, timeout, sends);
    } else {
      var acks := if reply.Descriptor? && reply.kind.AckKind? then [Acked(p.peer, corr)] else [];
      var s' := OnStaging(s, i, corr, reply, sendOk, timeout, sends);
      ContinuesOk(s, i, corr, reply, sendOk, timeout, sends);
      var es := acks + [Sent(p.peer, newCorr, r.frame), RespondFor(p, OkDeferred)];
      assert s'.log == s.log + es;
      KeepsOpening(p.mode.stage, corr, newCorr, reply, sendOk);
      assert PendingOk(s.log, p) && PendingOk(s'.log, s'.pending[i]);
      assert p.mode.stage.openedAt < |s.log| by { OpenedBefore(s.log, p); }
      OneSendKeeps(s.log, es, s'.pending[i], |acks|);
    }
  }

  lemma OpenedBefore(log: seq<Entry>, p: Pending)
    requires p.mode.Staging? && StageOk(log, p)
    ensures p.mode.stage.openedAt < |log|
  {
  }

  lemma KeepsOpening(st: Stage, corr: uint32, newCorr: uint32, reply: Reply, sendOk: bool)
    requires OnStageReply(st, corr, newCorr, reply, sendOk).Continues?
    ensures OnStageReply(st, corr, newCorr, reply, sendOk).next.openedAt == st.openedAt
  {
  }

  lemma StageCommandScripted(s: Service, reqId: uint32, source: nat, peer: nat, snapshot: Snapshot, sendOk: bool,
                             timeout: uint32)
    requires ServiceOk(s) && AllScripted(s.log)
    ensures AllScripted(StageCommand(s, reqId, source, peer, snapshot, sendOk, timeout).log)
  {
    hide AllScripted, Track, HasStage, ListOk, OksBacked;
    var s' := StageCommand(s, reqId, source, peer, snapshot, sendOk, timeout);
    if HasStage(s.pending, peer) || !sendOk {
      var es := s'.log[|s.log|..];
      assert s'.log == s.log + es;
      NoSendKeeps(s.log, es);
    } else {
      var corr := AllocateCorr(s.nextCorr);
      var p := Pending(reqId, STAGE_SET, source, peer, Wrap32(s.now + timeout), corr, corr,
                       Staging(Stage(WaitClear, 0, 0, corr, 0, snapshot, |s.log|)), 0);
      var es := [Opened(peer, reqId, snapshot), Sent(peer, corr, Clear),
                 Respond(source, STAGE_SET, reqId, peer, OkDeferred)];
      OpeningInPace(s.log, p, es);
      hide StageOk;
      OneSendKeeps(s.log, es, p, 1);
    }
  }

  lemma HandleScripted(s: Service, e: Event)
    requires ServiceOk(s) && AllScripted(s.log) && Proper(e)
    ensures AllScripted(Handle(s, e).log)
  {
    hide AllScripted, OnStaging, StageCommand, Track, ListOk, OksBacked, HasStage, Unexpired, ExpireCommits;
    match e {
      case StageCmd(reqId, source, peer, snapshot, sendOk, timeout) =>
        StageCommandScripted(s, reqId, source, peer, snapshot, sendOk, timeout);
      case ReplyEvent(from, corr, reply, sendOk, timeout, sends) =>
        var i := FindPending(s.pending, from, corr);
        if corr != 0 && i < |s.pending| {
          if s.pending[i].mode.Staging? {
            StagingReplyScripted(s, i, corr, reply, sendOk, timeout, sends);
          } else {
            AppendedOnly(s, Handle(s, e));
          }
        }
      case PruneAt(now) =>
        var s1 := s.(now := now, pending := Unexpired(s.pending, now));
        ExpireSendsNone(s1, s1.deferred, []);
      case _ => AppendedOnly(s, Handle(s, e));
    }
  }

  lemma AppendedOnly(s: Service, s': Service)
    requires AllScripted(s.log) && s.log <= s'.log
    requires forall i :: |s.log| <= i < |s'.log| ==> !StagingSend(s'.log[i])
    ensures AllScripted(s'.log)
  {
    var es := s'.log[|s.log|..];
    assert s'.log == s.log + es;
    NoSendKeeps(s.log, es);
  }

  /**
   In every run, every staging frame ever sent is the next one of its stage request's script, sent after the
   acknowledgement of the one before.
  */
  lemma {:induction false} EveryFrameScripted(es: seq<Event>)
    requires AllProper(es)
    ensures AllScripted(HandleAll(EMPTY_SERVICE, es).log)
    decreases |es|
  {
    if es != [] {
      var init := es[..|es| - 1];
      EveryFrameScripted(init);
      RunOk(init);
      hide AllScripted, ServiceOk, Handle;
      HandleScripted(HandleAll(EMPTY_SERVICE, init), es[|es| - 1]);
    }
  }

  // ---------------------------------------------------------------- an Ok answer means the snapshot is installed

  function FramesOf(ms: seq<Move>): seq<StageFrame> {
    if ms == [] then []
    else FramesOf(ms[..|ms| - 1]) + (if ms[|ms| - 1].SentMove? then [ms[|ms| - 1].frame] else [])
  }

  function AcksOf(ms: seq<Move>): nat {
    if ms == [] then 0 else AcksOf(ms[..|ms| - 1]) + (if ms[|ms| - 1].AckMove? then 1 else 0)
  }

  lemma PacedPrefix(ms: seq<Move>, script: seq<StageFrame>, n: nat)
    requires Paced(ms, script) && n <= |ms|
    ensures Paced(ms[..n], script)
  {
    forall i | 0 <= i < n ensures PacedMove(ms[..n], script, i) {
      assert PacedMove(ms, script, i);
    }
  }

  lemma PacedAt(ms: seq<Move>, script: seq<StageFrame>, n: nat)
    requires Paced(ms, script) && n < |ms|
    ensures n % 2 == 0 ==> ms[n].SentMove? && n / 2 < |script| && ms[n].frame == script[n / 2]
    ensures n % 2 == 1 ==> ms[n].AckMove?
  {
    assert PacedMove(ms, script, n);
  }

  lemma {:induction false} PacedFrames(ms: seq<Move>, script: seq<StageFrame>)
    requires Paced(ms, script)
    ensures (|ms| + 1) / 2 <= |script| && FramesOf(ms) == script[..(|ms| + 1) / 2] && AcksOf(ms) == |ms| / 2
    decreases |ms|
  {
    hide Paced;
    if ms != [] {
      var n := |ms| - 1;
      PacedPrefix(ms, script, n);
      PacedFrames(ms[..n], script);
      PacedAt(ms, script, n);
      var k := n / 2;
      if n == 2 * k {
        assert (n + 1) / 2 == k && (n + 2) / 2 == k + 1;
        assert script[..k + 1] == script[..k] + [script[k]];
      } else {
        assert (n + 1) / 2 == k + 1 == (n + 2) / 2;
      }
    }
  }

  /**
   In every run, a stage request is answered Ok only after the peer was sent the whole script since its
   opening, with `3 + |groups| + |slots|` acknowledgements; the frames delivered in order leave any slave
   with exactly the requested snapshot.
  */
  lemma OkMeansInstalled(es: seq<Event>, i: nat, slave: SlaveStage) returns (a: nat)
    requires AllProper(es)
    requires i < |HandleAll(EMPTY_SERVICE, es).log|
    requires var e := HandleAll(EMPTY_SERVICE, es).log[i]; e.Respond? && e.cmd == STAGE_SET && e.status == Ok
    ensures var log := HandleAll(EMPTY_SERVICE, es).log;
            && a < i && log[a].Opened? && log[a].peer == log[i].peer && log[a].reqId == log[i].reqId
            && var snap, ms := log[a].snapshot, Moves(log[i].peer, log[a + 1..i]);
               && FramesOf(ms) == Script(snap) && AcksOf(ms) == 3 + |snap.groups| + |snap.slots|
               && (Valid(snap) ==> Installs(slave, FramesOf(ms), snap))
  {
    RunOk(es);
    var log := HandleAll(EMPTY_SERVICE, es).log;
    assert CompletedIn(log[..i], log[i].peer, log[i].reqId);
    a :| 0 <= a < i && CompletedFrom(log[..i], a, log[i].peer, log[i].reqId);
    assert log[..i][a + 1..] == log[a + 1..i];
    var ms := Moves(log[i].peer, log[a + 1..i]);
    PacedFrames(ms, Script(log[a].snapshot));
    ScriptAt(log[a].snapshot, 0);
    hide HandleAll, ServiceOk, Script, Paced, Moves, Valid, Holds;
    assert Script(log[a].snapshot)[..|Script(log[a].snapshot)|] == Script(log[a].snapshot);
    if Valid(log[a].snapshot) {
      ScriptInstallsSnapshot(slave, log[a].snapshot);
    }
  }

  ghost predicate Installs(t: SlaveStage, fs: seq<StageFrame>, snap: Snapshot) {
    var r := Replay(t, fs);
    r.Some? && !r.value.active && r.value.applied.Some? && Holds(r.value.applied.value, snap)
  }

  /** In every run, the acknowledgement of the finalize frame is what answers the request Ok. */
  lemma {:induction false} FinalAckAnswersOk(es: seq<Event>, from: nat, corr: uint32, reencoded: bool, sendOk: bool,
                                             timeout: uint32, sends: seq<bool>)
    requires AllProper(es)
    ensures var s := HandleAll(EMPTY_SERVICE, es);
            var i := FindPending(s.pending, from, corr);
            corr != 0 && i < |s.pending| && s.pending[i].mode.Staging? ==>
              var p := s.pending[i];
              var r := OnStageReply(p.mode.stage, corr, AllocateCorr(s.nextCorr), Descriptor(AckKind, reencoded),
                                    sendOk);
              && (r == Ended(Ok) <==> p.mode.stage.step == WaitFinalize)
              && (r.Continues? <==> p.mode.stage.step != WaitFinalize && sendOk)
  {
    RunOk(es);
    hide OksBacked, HandleAll, FindPending;
    var s := HandleAll(EMPTY_SERVICE, es);
    var i := FindPending(s.pending, from, corr);
    if i < |s.pending| && s.pending[i].mode.Staging? {
      assert PendingOk(s.log, s.pending[i]);
    }
  }

  // ---------------------------------------------------------------- deferred commits

  /**
   In every run: each commit ever deferred is still waiting or has left the list, once, with its one answer;
   and none was sent unless its peer's stage had ended Ok and no stage had been opened since.
  */
  lemma {:induction false} CommitsConserved(es: seq<Event>)
    requires AllProper(es)
    ensures DeferredOk(HandleAll(EMPTY_SERVICE, es))
    decreases |es|
  {
    if es == [] {
      assert QueuedIn([]) == multiset(EMPTY_SERVICE.deferred) + LeftIn([]);
    } else {
      var init := es[..|es| - 1];
      CommitsConserved(init);
      RunOk(init);
      var s := HandleAll(EMPTY_SERVICE, init);
      forall i | 0 <= i < |s.pending| && s.pending[i].mode.Staging? ensures s.pending[i].cmd == STAGE_SET {
        assert PendingOk(s.log, s.pending[i]);
      }
      hide ServiceOk, DeferredOk, Handle;
      HandleKeeps(s, es[|es| - 1]);
    }
  }

  /** A reply never drops, adds or reorders the waiting commits of other peers. */
  lemma {:induction false} OtherCommitsKeepOrder(s: Service, from: nat, corr: uint32, reply: Reply, sendOk: bool,
                                                 timeout: uint32, sends: seq<bool>)
    ensures Others(OnPullResponse(s, from, corr, reply, sendOk, timeout, sends).deferred, from)
        == Others(s.deferred, from)
  {
    hide ReleaseCommits, OnStageReply, Others;
    var i := FindPending(s.pending, from, corr);
    if corr != 0 && i < |s.pending| && s.pending[i].mode.Staging? {
      forall s2: Service, status | s2.deferred == s.deferred
        ensures Others(ReleaseCommits(s2, s2.deferred, [], from, status, sends).deferred, from)
            == Others(s.deferred, from)
      {
        ReleaseKeepsOthers(s2, s2.deferred, [], from, status, sends);
        OthersTwice(s.deferred, from);
      }
    }
  }

  lemma {:induction false} OthersTwice(ds: seq<DeferredCommit>, peer: nat)
    ensures Others([] + Others(ds, peer), peer) == Others(ds, peer)
    decreases |ds|
  {
    assert [] + Others(ds, peer) == Others(ds, peer);
    if ds != [] {
      OthersTwice(ds[1..], peer);
      var rest := Others(ds[1..], peer);
      assert [] + rest == rest;
      assert ds[0].peer != peer ==> ([ds[0]] + rest)[1..] == rest;
    }
  }
}
