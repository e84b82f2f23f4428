/**
 Staging proceeds strictly frame by frame: whatever replies arrive, and in whatever order, the frames a peer
 is sent for one stage request follow the script, each after the acknowledgement of the one before, and the
 request is answered Ok only when the whole script has been acknowledged.
*/
module TopologyStagingSafety {
  import opened FixedWidth
  import opened TopologyTypes
  import opened TopologyStaging

  // ---------------------------------------------------------------- the script and the moves made so far

  function GroupFrames(gs: seq<Group>): (fs: seq<StageFrame>)
    ensures |fs| == |gs| && forall i :: 0 <= i < |gs| ==> fs[i] == SetGroup(gs[i])
  {
    if gs == [] then [] else GroupFrames(gs[..|gs| - 1]) + [SetGroup(gs[|gs| - 1])]
  }

  function SlotFrames(ss: seq<Slot>): (fs: seq<StageFrame>)
    ensures |fs| == |ss| && forall i :: 0 <= i < |ss| ==> fs[i] == SetSlot(ss[i])
  {
    if ss == [] then [] else SlotFrames(ss[..|ss| - 1]) + [SetSlot(ss[|ss| - 1])]
  }

  /** All frames of one stage request, in order. */
  function Script(snap: Snapshot): seq<StageFrame> {
    [Clear, BeginStage(snap.schema, snap.version, snap.neg, snap.pos)]
      + GroupFrames(snap.groups) + SlotFrames(snap.slots) + [Finalize]
  }

  /** A frame sent to a peer, or an acknowledgement accepted from it. */
  datatype Move = SentMove(corr: uint32, frame: StageFrame) | AckMove(corr: uint32)

  function MovesOf(peer: nat, e: Entry): seq<Move> {
    match e
    case Sent(p, corr, frame) => if p == peer then [SentMove(corr, frame)] else []
    case Acked(p, corr) => if p == peer then [AckMove(corr)] else []
    case _ => []
  }

  function Moves(peer: nat, log: seq<Entry>): seq<Move> {
    if log == [] then [] else Moves(peer, log[..|log| - 1]) + MovesOf(peer, log[|log| - 1])
  }

  lemma Associate(x: seq<Move>, y: seq<Move>, z: seq<Move>)
    ensures (x + y) + z == x + (y + z)
  {
  }

  lemma {:induction false} MovesAppend(peer: nat, a: seq<Entry>, b: seq<Entry>)
    ensures Moves(peer, a + b) == Moves(peer, a) + Moves(peer, b)
    decreases |b|
  {
    hide MovesOf;
    if b == [] {
      assert a + b == a;
    } else {
      var n := |b| - 1;
      assert (a + b)[..|a + b| - 1] == a + b[..n] && (a + b)[|a + b| - 1] == b[n];
      MovesAppend(peer, a, b[..n]);
      Associate(Moves(peer, a), Moves(peer, b[..n]), MovesOf(peer, b[n]));
    }
  }

  /** Sent and acknowledged in turn: frame after frame of the script, each acknowledged before the next goes out. */
  ghost predicate Paced(ms: seq<Move>, script: seq<StageFrame>) {
    forall i :: 0 <= i < |ms| ==> PacedMove(ms, script, i)
  }

  ghost predicate PacedMove(ms: seq<Move>, script: seq<StageFrame>, i: nat)
    requires i < |ms|
  {
    if i % 2 == 0 then ms[i].SentMove? && i / 2 < |script| && ms[i].frame == script[i / 2]
    else ms[i] == AckMove(ms[i - 1].corr)
  }

  // ---------------------------------------------------------------- one stage request

  ghost predicate CursorsOk(st: Stage) {
    match st.step
    case NoStep => false
    case WaitClear => st.groupCursor == 0 == st.slotCursor
    case WaitBegin => st.groupCursor == 0 == st.slotCursor
    case WaitGroup => 0 < st.groupCursor <= |st.snapshot.groups| && st.slotCursor == 0
    case WaitSlot => st.groupCursor == |st.snapshot.groups| && 0 < st.slotCursor <= |st.snapshot.slots|
    case WaitFinalize => st.groupCursor == |st.snapshot.groups| && st.slotCursor == |st.snapshot.slots|
  }

  /** How many frames of the script are out. */
  function Position(st: Stage): nat {
    match st.step
    case NoStep => 0
    case WaitClear => 1
    case WaitFinalize => 3 + st.groupCursor + st.slotCursor
    case _ => 2 + st.groupCursor + st.slotCursor
  }

  /** The request's own view agrees with the moves `ms` made for it. */
  ghost predicate InPace(p: Pending, ms: seq<Move>)
    requires p.mode.Staging?
  {
    var st := p.mode.stage;
    && CursorsOk(st)
    && st.seen == Min(Position(st) - 1, 0xFFFF)
    && (st.step == WaitFinalize ==> st.finalizeCorr == p.corrLast)
    && Paced(ms, Script(st.snapshot)) && |ms| == 2 * Position(st) - 1 && ms[|ms| - 1].corr == p.corrLast
  }

  /** The moves with `peer` logged after entry `a`. */
  ghost function MovesAfter(peer: nat, log: seq<Entry>, a: nat): seq<Move>
    requires a < |log|
  {
    Moves(peer, log[a + 1..])
  }

  ghost predicate StageOk(log: seq<Entry>, p: Pending)
    requires p.mode.Staging?
  {
    var st := p.mode.stage;
    && st.openedAt < |log| && log[st.openedAt] == Opened(p.peer, p.reqId, st.snapshot)
    && InPace(p, MovesAfter(p.peer, log, st.openedAt))
  }

  lemma ScriptAt(snap: Snapshot, k: nat)
    requires k <= |snap.groups| + |snap.slots| + 2
    ensures |Script(snap)| == |snap.groups| + |snap.slots| + 3
    ensures k == 0 ==> Script(snap)[k] == Clear
    ensures k == 1 ==> Script(snap)[k] == BeginStage(snap.schema, snap.version, snap.neg, snap.pos)
    ensures 2 <= k < 2 + |snap.groups| ==> Script(snap)[k] == SetGroup(snap.groups[k - 2])
    ensures 2 + |snap.groups| <= k < 2 + |snap.groups| + |snap.slots| ==>
        Script(snap)[k] == SetSlot(snap.slots[k - 2 - |snap.groups|])
    ensures k == 2 + |snap.groups| + |snap.slots| ==> Script(snap)[k] == Finalize
  {
  }

  /** The frame that follows an acknowledgement is the next one of the script. */
  lemma NextFrameIsScripted(st: Stage, corr: uint32, newCorr: uint32)
    requires CursorsOk(st) && st.seen == Min(Position(st) - 1, 0xFFFF) && OnStageAck(st, corr, newCorr, true).Continues?
    ensures var r := OnStageAck(st, corr, newCorr, true);
            && CursorsOk(r.next) && r.next.snapshot == st.snapshot && r.next.openedAt == st.openedAt
            && r.next.seen == Min(Position(r.next) - 1, 0xFFFF)
            && (r.next.step == WaitFinalize ==> r.next.finalizeCorr == newCorr)
            && Position(r.next) == Position(st) + 1 <= |Script(st.snapshot)|
            && r.frame == Script(st.snapshot)[Position(st)]
  {
    ScriptAt(st.snapshot, if st.step == WaitFinalize then 0 else Position(st));
    hide Script;
  }

  /** Acknowledged and answered: two more moves keep the pace. */
  lemma PacedGrows(ms: seq<Move>, script: seq<StageFrame>, corr: uint32, newCorr: uint32, k: nat)
    requires Paced(ms, script) && k > 0 && |ms| == 2 * k - 1 && ms[|ms| - 1].corr == corr && k < |script|
    ensures var ms' := ms + [AckMove(corr)] + [SentMove(newCorr, script[k])];
            Paced(ms', script) && |ms'| == 2 * (k + 1) - 1 && ms'[|ms'| - 1].corr == newCorr
  {
    var ms' := ms + [AckMove(corr)] + [SentMove(newCorr, script[k])];
    forall i | 0 <= i < |ms'| ensures PacedMove(ms', script, i) {
      if i < |ms| { assert PacedMove(ms, script, i); }
    }
  }

  lemma PacedEnds(ms: seq<Move>, script: seq<StageFrame>, corr: uint32)
    requires Paced(ms, script) && |ms| == 2 * |script| - 1 && ms[|ms| - 1].corr == corr
    ensures Paced(ms + [AckMove(corr)], script) && |ms + [AckMove(corr)]| == 2 * |script|
  {
    var ms' := ms + [AckMove(corr)];
    forall i | 0 <= i < |ms'| ensures PacedMove(ms', script, i) {
      if i < |ms| { assert PacedMove(ms, script, i); }
    }
  }

  /** The log between opening and answer shows the whole script, every frame acknowledged. */
  ghost predicate CompletedIn(log: seq<Entry>, peer: nat, reqId: uint32) {
    exists a :: 0 <= a < |log| && CompletedFrom(log, a, peer, reqId)
  }

  ghost predicate CompletedFrom(log: seq<Entry>, a: nat, peer: nat, reqId: uint32)
    requires a < |log|
  {
    && log[a].Opened? && log[a].peer == peer && log[a].reqId == reqId
    && var ms := MovesAfter(peer, log, a);
       Paced(ms, Script(log[a].snapshot)) && |ms| == 2 * |Script(log[a].snapshot)|
  }

  /** Every Ok answer to a stage request is backed by a completed script. */
  ghost predicate OksBacked(log: seq<Entry>) {
    forall i :: 0 <= i < |log| && log[i].Respond? && log[i].cmd == STAGE_SET && log[i].status == Ok ==>
      CompletedIn(log[..i], log[i].peer, log[i].reqId)
  }

  // ---------------------------------------------------------------- the pending list

  ghost predicate StagesDistinct(ps: seq<Pending>) {
    forall i, j :: 0 <= i < j < |ps| && ps[i].mode.Staging? && ps[j].mode.Staging? ==> ps[i].peer != ps[j].peer
  }

  ghost predicate PendingOk(log: seq<Entry>, p: Pending) {
    (p.mode.Staging? ==> StageOk(log, p)) && (p.cmd == STAGE_SET <==> p.mode.Staging?)
  }

  ghost predicate ListOk(log: seq<Entry>, ps: seq<Pending>) {
    StagesDistinct(ps) && forall i :: 0 <= i < |ps| ==> PendingOk(log, ps[i])
  }

  ghost predicate ServiceOk(s: Service) {
    ListOk(s.log, s.pending) && OksBacked(s.log)
  }

  /** Nothing in `es` moves a frame to or from `peer`. */
  ghost predicate Quiet(peer: nat, es: seq<Entry>) {
    forall i :: 0 <= i < |es| ==> MovesOf(peer, es[i]) == []
  }

  lemma {:induction false} QuietMoves(peer: nat, es: seq<Entry>)
    requires Quiet(peer, es)
    ensures Moves(peer, es) == []
    decreases |es|
  {
    if es != [] {
      QuietMoves(peer, es[..|es| - 1]);
    }
  }

  lemma {:induction false} MovesAfterAppend(peer: nat, log: seq<Entry>, es: seq<Entry>, a: nat)
    requires a < |log|
    ensures MovesAfter(peer, log + es, a) == MovesAfter(peer, log, a) + Moves(peer, es)
  {
    hide Moves;
    assert (log + es)[a + 1..] == log[a + 1..] + es;
    MovesAppend(peer, log[a + 1..], es);
  }

  lemma StageUntouched(log: seq<Entry>, es: seq<Entry>, p: Pending)
    requires PendingOk(log, p) && (p.mode.Staging? ==> Quiet(p.peer, es))
    ensures PendingOk(log + es, p)
  {
    if p.mode.Staging? {
      hide Moves, MovesAfter, InPace, Quiet;
      var a := p.mode.stage.openedAt;
      MovesAfterAppend(p.peer, log, es, a);
      QuietMoves(p.peer, es);
      assert MovesAfter(p.peer, log, a) + [] == MovesAfter(p.peer, log, a);
    }
  }

  ghost predicate NoStageOk(es: seq<Entry>) {
    forall i :: 0 <= i < |es| ==> !(es[i].Respond? && es[i].cmd == STAGE_SET && es[i].status == Ok)
  }

  lemma OksStayBacked(log: seq<Entry>, es: seq<Entry>)
    requires OksBacked(log) && NoStageOk(es)
    ensures OksBacked(log + es)
  {
    var log' := log + es;
    forall i | 0 <= i < |log'| && log'[i].Respond? && log'[i].cmd == STAGE_SET && log'[i].status == Ok
      ensures CompletedIn(log'[..i], log'[i].peer, log'[i].reqId)
    {
      var e := log'[i];
      assert i >= |log| ==> e in es;
      assert log'[..i] == log[..i];
    }
  }

  // ---------------------------------------------------------------- lists of pending pulls

  ghost predicate NoStageAt(ps: seq<Pending>, peer: nat) {
    forall i :: 0 <= i < |ps| && ps[i].mode.Staging? ==> ps[i].peer != peer
  }

  /** Only `peer` is sent or acknowledges anything in `es`. */
  ghost predicate MovesOnly(peer: nat, es: seq<Entry>) {
    forall i :: 0 <= i < |es| && (es[i].Sent? || es[i].Acked?) ==> es[i].peer == peer
  }

  lemma ListUntouched(log: seq<Entry>, es: seq<Entry>, ps: seq<Pending>, peer: nat)
    requires ListOk(log, ps) && MovesOnly(peer, es) && NoStageAt(ps, peer)
    ensures ListOk(log + es, ps)
  {
    forall i | 0 <= i < |ps| ensures PendingOk(log + es, ps[i]) {
      StageUntouched(log, es, ps[i]);
    }
  }

  lemma WithoutKeeps(log: seq<Entry>, ps: seq<Pending>, i: nat)
    requires ListOk(log, ps) && i < |ps|
    ensures ListOk(log, Without(ps, i))
    ensures ps[i].mode.Staging? ==> NoStageAt(Without(ps, i), ps[i].peer)
  {
    hide PendingOk;
  }

  lemma {:induction false} ReplaceKeeps(log: seq<Entry>, ps: seq<Pending>, p: Pending)
    requires ListOk(log, ps) && PendingOk(log, p) && (p.mode.Staging? ==> NoStageAt(ps, p.peer))
    ensures ListOk(log, Replace(ps, p))
    ensures forall peer :: NoStageAt(ps, peer) && (p.mode.Staging? ==> p.peer != peer) ==>
        NoStageAt(Replace(ps, p), peer)
    decreases |ps|
  {
    hide PendingOk;
    if ps != [] && !SameKey(ps[0], p) {
      assert ListOk(log, ps[1..]);
      ReplaceKeeps(log, ps[1..], p);
      var rest := Replace(ps[1..], p);
      if ps[0].mode.Staging? {
        assert NoStageAt(ps[1..], ps[0].peer);
        assert NoStageAt(rest, ps[0].peer);
      }
      forall peer | NoStageAt(ps, peer) && (p.mode.Staging? ==> p.peer != peer)
          ensures NoStageAt(Replace(ps, p), peer) {
        assert NoStageAt(ps[1..], peer);
      }
    }
  }

  lemma TrackKeeps(log: seq<Entry>, ps: seq<Pending>, p: Pending)
    requires ListOk(log, ps) && PendingOk(log, p) && (p.mode.Staging? ==> NoStageAt(ps, p.peer))
    ensures ListOk(log, Track(ps, p))
    ensures forall peer :: NoStageAt(ps, peer) && (p.mode.Staging? ==> p.peer != peer) ==> NoStageAt(Track(ps, p), peer)
  {
    hide PendingOk;
    if p.reqId != 0 {
      ReplaceKeeps(log, ps, p);
    }
  }

  lemma {:induction false} UnexpiredKeeps(log: seq<Entry>, ps: seq<Pending>, now: uint32)
    requires ListOk(log, ps)
    ensures ListOk(log, Unexpired(ps, now))
    ensures forall peer :: NoStageAt(ps, peer) ==> NoStageAt(Unexpired(ps, now), peer)
    decreases |ps|
  {
    hide PendingOk;
    if ps != [] {
      assert ListOk(log, ps[1..]);
      UnexpiredKeeps(log, ps[1..], now);
      forall peer | NoStageAt(ps, peer) ensures NoStageAt(ps[1..], peer) {
      }
      if ps[0].mode.Staging? {
        assert NoStageAt(ps[1..], ps[0].peer);
        assert NoStageAt(Unexpired(ps[1..], now), ps[0].peer);
      }
    }
  }

  lemma NoStageFound(log: seq<Entry>, ps: seq<Pending>, peer: nat)
    requires ListOk(log, ps) && !HasStage(ps, peer)
    ensures NoStageAt(ps, peer)
  {
  }

  // ---------------------------------------------------------------- steps

  lemma ReleaseOneKeeps(s: Service, d: DeferredCommit, status: Status, sendOk: bool)
    requires ServiceOk(s) && NoStageAt(s.pending, d.peer)
    ensures ServiceOk(ReleaseOne(s, d, status, sendOk)) && NoStageAt(ReleaseOne(s, d, status, sendOk).pending, d.peer)
  {
    hide ListOk, OksBacked, NoStageAt;
    var s' := ReleaseOne(s, d, status, sendOk);
    var es := s'.log[|s.log|..];
    assert s'.log == s.log + es;
    assert NoStageOk(es) && MovesOnly(d.peer, es);
    OksStayBacked(s.log, es);
    ListUntouched(s.log, es, s.pending, d.peer);
    if status == Ok && sendOk {
      TrackKeeps(s'.log, s.pending, CommitPending(d, s.now));
    }
  }

  lemma {:induction false} ReleaseKeeps(s: Service, ds: seq<DeferredCommit>, keep: seq<DeferredCommit>, peer: nat,
                                        status: Status, sends: seq<bool>)
    requires ServiceOk(s) && NoStageAt(s.pending, peer)
    ensures ServiceOk(ReleaseCommits(s, ds, keep, peer, status, sends))
    decreases |ds|
  {
    hide ListOk, OksBacked, NoStageAt, ReleaseOne;
    if ds != [] {
      if ds[0].peer != peer {
        ReleaseKeeps(s, ds[1..], keep + [ds[0]], peer, status, sends);
      } else {
        var sendOk := if |sends| >= |ds| then sends[|sends| - |ds|] else true;
        ReleaseOneKeeps(s, ds[0], status, sendOk);
        ReleaseKeeps(ReleaseOne(s, ds[0], status, sendOk), ds[1..], keep, peer, status, sends);
      }
    }
  }

  lemma {:induction false} ExpireKeeps(s: Service, ds: seq<DeferredCommit>, keep: seq<DeferredCommit>)
    requires ServiceOk(s)
    ensures ServiceOk(ExpireCommits(s, ds, keep))
    decreases |ds|
  {
    hide ListOk, OksBacked;
    if ds != [] {
      if Elapsed(s.now, ds[0].deadline) >= 0 {
        var es := [Left(ds[0], TimedOut), Respond(ds[0].source, COMMIT, ds[0].reqId, ds[0].peer, Timeout)];
        QuietKeeps(s, es);
        ExpireKeeps(s.(log := s.log + es), ds[1..], keep);
      } else {
        ExpireKeeps(s, ds[1..], keep + [ds[0]]);
      }
    }
  }

  /** Entries that move nothing and answer no stage request with Ok change nothing. */
  lemma QuietKeeps(s: Service, es: seq<Entry>)
    requires ServiceOk(s) && NoStageOk(es) && forall i :: 0 <= i < |es| ==> !es[i].Sent? && !es[i].Acked?
    ensures ServiceOk(s.(log := s.log + es))
  {
    OksStayBacked(s.log, es);
    forall i | 0 <= i < |s.pending| ensures PendingOk(s.log + es, s.pending[i]) {
      StageUntouched(s.log, es, s.pending[i]);
    }
  }

  /** What one accepted acknowledgement adds to the log of an unfinished request. */
  function ContinueEntries(p: Pending, corr: uint32, newCorr: uint32, frame: StageFrame): seq<Entry> {
    [Acked(p.peer, corr), Sent(p.peer, newCorr, frame), RespondFor(p, OkDeferred)]
  }

  lemma MovesOfContinue(p: Pending, corr: uint32, newCorr: uint32, frame: StageFrame)
    ensures Moves(p.peer, ContinueEntries(p, corr, newCorr, frame)) == [AckMove(corr), SentMove(newCorr, frame)]
  {
    var es := ContinueEntries(p, corr, newCorr, frame);
    assert es[..2][..1] == [es[0]] && es[..2][..1][..0] == [];
    assert Moves(p.peer, es[..2][..1]) == [AckMove(corr)];
    assert Moves(p.peer, es[..2]) == [AckMove(corr)] + [SentMove(newCorr, frame)];
  }

  /** The acknowledged request keeps in pace with the log. */
  lemma ContinueKeepsPace(log: seq<Entry>, p: Pending, p': Pending, corr: uint32, newCorr: uint32)
    requires PendingOk(log, p) && p.mode.Staging? && corr == p.corrLast
    requires OnStageAck(p.mode.stage, corr, newCorr, true).Continues?
    requires p'.mode == Staging(OnStageAck(p.mode.stage, corr, newCorr, true).next) && p'.corrLast == newCorr
    requires p'.peer == p.peer && p'.reqId == p.reqId && p'.cmd == p.cmd
    ensures PendingOk(log + ContinueEntries(p, corr, newCorr, OnStageAck(p.mode.stage, corr, newCorr, true).frame), p')
  {
    var st := p.mode.stage;
    var r := OnStageAck(st, corr, newCorr, true);
    var es := ContinueEntries(p, corr, newCorr, r.frame);
    var ms := MovesAfter(p.peer, log, st.openedAt);
    NextFrameIsScripted(st, corr, newCorr);
    PacedGrows(ms, Script(st.snapshot), corr, newCorr, Position(st));
    MovesAfterAppend(p.peer, log, es, st.openedAt);
    MovesOfContinue(p, corr, newCorr, r.frame);
    hide MovesAfter, Moves, Paced, Script, CursorsOk, Position, OnStageAck;
    assert ms + [AckMove(corr), SentMove(newCorr, r.frame)] == ms + [AckMove(corr)] + [SentMove(newCorr, r.frame)];
  }

  lemma UpdateKeeps(log: seq<Entry>, es: seq<Entry>, ps: seq<Pending>, i: nat, p': Pending)
    requires ListOk(log, ps) && i < |ps| && ps[i].mode.Staging? && p'.peer == ps[i].peer
    requires MovesOnly(p'.peer, es) && PendingOk(log + es, p')
    ensures ListOk(log + es, ps[i := p'])
  {
    var ps' := ps[i := p'];
    forall j | 0 <= j < |ps| ensures PendingOk(log + es, ps'[j]) {
      if j != i {
        StageUntouched(log, es, ps[j]);
      }
    }
    hide PendingOk;
  }

  lemma ContinuesOk(s: Service, i: nat, corr: uint32, reply: Reply, sendOk: bool, timeout: uint32, sends: seq<bool>)
    requires ServiceOk(s) && i < |s.pending| && s.pending[i].mode.Staging? && corr == s.pending[i].corrLast
    requires OnStageReply(s.pending[i].mode.stage, corr, AllocateCorr(s.nextCorr), reply, sendOk).Continues?
    ensures ServiceOk(OnStaging(s, i, corr, reply, sendOk, timeout, sends))
  {
    var p, newCorr := s.pending[i], AllocateCorr(s.nextCorr);
    var r := OnStageReply(p.mode.stage, corr, newCorr, reply, sendOk);
    assert r == OnStageAck(p.mode.stage, corr, newCorr, true);
    var es := ContinueEntries(p, corr, newCorr, r.frame);
    var s' := OnStaging(s, i, corr, reply, sendOk, timeout, sends);
    assert s'.log == s.log + es;
    var p' := s'.pending[i];
    ContinueKeepsPace(s.log, p, p', corr, newCorr);
    UpdateKeeps(s.log, es, s.pending, i, p');
    OksStayBacked(s.log, es);
    hide ListOk, OksBacked, PendingOk;
  }

  /** The acknowledgement of the end frame completes the script. */
  lemma FinalAckCompletes(log: seq<Entry>, p: Pending, corr: uint32)
    requires PendingOk(log, p) && p.mode.Staging? && corr == p.corrLast && p.mode.stage.step == WaitFinalize
    ensures CompletedIn(log + [Acked(p.peer, corr)], p.peer, p.reqId)
  {
    var st := p.mode.stage;
    var ms := MovesAfter(p.peer, log, st.openedAt);
    ScriptAt(st.snapshot, 0);
    PacedEnds(ms, Script(st.snapshot), corr);
    MovesAfterAppend(p.peer, log, [Acked(p.peer, corr)], st.openedAt);
    assert [Acked(p.peer, corr)][..0] == [];
    assert Moves(p.peer, [Acked(p.peer, corr)]) == [AckMove(corr)];
    assert CompletedFrom(log + [Acked(p.peer, corr)], st.openedAt, p.peer, p.reqId);
  }

  lemma EndOksBacked(log: seq<Entry>, p: Pending, corr: uint32, acked: bool, status: Status)
    requires OksBacked(log) && PendingOk(log, p) && p.mode.Staging? && corr == p.corrLast
    requires status == Ok ==> acked && p.mode.stage.step == WaitFinalize
    ensures OksBacked(log + (if acked then [Acked(p.peer, corr)] else []) + [RespondFor(p, status)])
  {
    var es := if acked then [Acked(p.peer, corr)] else [];
    OksStayBacked(log, es);
    if status == Ok {
      FinalAckCompletes(log, p, corr);
      var log' := log + es + [RespondFor(p, status)];
      assert log'[..|log + es|] == log + es;
      forall i | 0 <= i < |log'| && log'[i].Respond? && log'[i].cmd == STAGE_SET && log'[i].status == Ok
        ensures CompletedIn(log'[..i], log'[i].peer, log'[i].reqId)
      {
        assert i < |log + es| ==> log'[..i] == (log + es)[..i];
      }
    } else {
      OksStayBacked(log + es, [RespondFor(p, status)]);
    }
  }

  lemma EndsOk(s: Service, i: nat, corr: uint32, reply: Reply, sendOk: bool, timeout: uint32, sends: seq<bool>)
    requires ServiceOk(s) && i < |s.pending| && s.pending[i].mode.Staging? && corr == s.pending[i].corrLast
    requires OnStageReply(s.pending[i].mode.stage, corr, AllocateCorr(s.nextCorr), reply, sendOk).Ended?
    ensures ServiceOk(OnStaging(s, i, corr, reply, sendOk, timeout, sends))
  {
    var p := s.pending[i];
    var acked := reply.Descriptor? && reply.kind.AckKind?;
    var status := OnStageReply(p.mode.stage, corr, AllocateCorr(s.nextCorr), reply, sendOk).status;
    EndOksBacked(s.log, p, corr, acked, status);
    var es := (if acked then [Acked(p.peer, corr)] else []) + [RespondFor(p, status)];
    var log' := s.log + (if acked then [Acked(p.peer, corr)] else []) + [RespondFor(p, status)];
    assert log' == s.log + es;
    WithoutKeeps(s.log, s.pending, i);
    ListUntouched(s.log, es, Without(s.pending, i), p.peer);
    hide ListOk, OksBacked, PendingOk, NoStageAt, OnStageReply, ReleaseCommits;
    forall s2: Service | s2.log == log' && s2.pending == Without(s.pending, i)
        ensures ServiceOk(ReleaseCommits(s2, s2.deferred, [], p.peer, status, sends)) {
      ReleaseKeeps(s2, s2.deferred, [], p.peer, status, sends);
    }
  }

  lemma OtherOk(s: Service, i: nat, reply: Reply, timeout: uint32)
    requires ServiceOk(s) && i < |s.pending| && !s.pending[i].mode.Staging?
    ensures ServiceOk(OnOther(s, i, reply, timeout))
  {
    var s' := OnOther(s, i, reply, timeout);
    var es := [s'.log[|s.log|]];
    QuietKeeps(s, es);
    WithoutKeeps(s.log + es, s.pending, i);
    hide StageOk;
  }

  lemma StageCommandOk(s: Service, reqId: uint32, source: nat, peer: nat, snapshot: Snapshot, sendOk: bool,
                       timeout: uint32)
    requires ServiceOk(s)
    ensures ServiceOk(StageCommand(s, reqId, source, peer, snapshot, sendOk, timeout))
  {
    var s' := StageCommand(s, reqId, source, peer, snapshot, sendOk, timeout);
    if HasStage(s.pending, peer) || !sendOk {
      QuietKeeps(s, [s'.log[|s.log|]]);
    } else {
      var corr := AllocateCorr(s.nextCorr);
      var es := [Opened(peer, reqId, snapshot), Sent(peer, corr, Clear),
                 Respond(source, STAGE_SET, reqId, peer, OkDeferred)];
      var p := Pending(reqId, STAGE_SET, source, peer, Wrap32(s.now + timeout), corr, corr,
                       Staging(Stage(WaitClear, 0, 0, corr, 0, snapshot, |s.log|)), 0);
      OpeningInPace(s.log, p, es);
      NoStageFound(s.log, s.pending, peer);
      ListUntouched(s.log, es, s.pending, peer);
      OksStayBacked(s.log, es);
      TrackKeeps(s.log + es, s.pending, p);
    }
    hide ListOk, OksBacked, PendingOk, HasStage, Track;
  }

  lemma OpeningInPace(log: seq<Entry>, p: Pending, es: seq<Entry>)
    requires p.mode.Staging? && p.cmd == STAGE_SET
    requires p.mode.stage == Stage(WaitClear, 0, 0, p.corrLast, 0, p.mode.stage.snapshot, |log|)
    requires |es| == 3 && es[0] == Opened(p.peer, p.reqId, p.mode.stage.snapshot)
        && es[1] == Sent(p.peer, p.corrLast, Clear)
    requires es[2].Respond?
    ensures PendingOk(log + es, p)
  {
    hide Moves, Script;
    var tail := (log + es)[|log| + 1..];
    assert tail == [es[1], es[2]];
    OneMove(p.peer, es[1], es[2], SentMove(p.corrLast, Clear));
    ScriptAt(p.mode.stage.snapshot, 0);
  }

  lemma {:induction false} OneMove(peer: nat, a: Entry, b: Entry, m: Move)
    requires MovesOf(peer, a) == [m] && b.Respond?
    ensures Moves(peer, [a, b]) == [m]
  {
    assert [a, b][..1] == [a] && [a][..0] == [];
    assert Moves(peer, [a]) == [m];
  }

  lemma CommitCommandOk(s: Service, reqId: uint32, source: nat, peer: nat, sendOk: bool, timeout: uint32)
    requires ServiceOk(s)
    ensures ServiceOk(CommitCommand(s, reqId, source, peer, sendOk, timeout))
  {
    var s' := CommitCommand(s, reqId, source, peer, sendOk, timeout);
    var es := s'.log[|s.log|..];
    assert s'.log == s.log + es;
    if HasStage(s.pending, peer) || !sendOk {
      QuietKeeps(s, es);
    } else {
      NoStageFound(s.log, s.pending, peer);
      ListUntouched(s.log, es, s.pending, peer);
      OksStayBacked(s.log, es);
      TrackKeeps(s.log + es, s.pending, Pending(reqId, COMMIT, source, peer, Wrap32(s.now + timeout), reqId, reqId,
                                                Plain, 0));
    }
    hide ListOk, OksBacked, PendingOk, HasStage, Track;
  }

  lemma PruneOk(s: Service, now: uint32)
    requires ServiceOk(s)
    ensures ServiceOk(Prune(s, now))
  {
    UnexpiredKeeps(s.log, s.pending, now);
    var s1 := s.(now := now, pending := Unexpired(s.pending, now));
    ExpireKeeps(s1, s1.deferred, []);
  }

  lemma HandleOk(s: Service, e: Event)
    requires ServiceOk(s) && Proper(e)
    ensures ServiceOk(Handle(s, e))
  {
    hide ServiceOk;
    match e {
      case StageCmd(reqId, source, peer, snapshot, sendOk, timeout) => StageCommandOk(s, reqId, source, peer, snapshot,
                                                                                      sendOk, timeout);
      case CommitCmd(reqId, source, peer, sendOk, timeout) => CommitCommandOk(s, reqId, source, peer, sendOk, timeout);
      case PullCmd(reqId, cmd, source, peer, mode, timeout) => PullCommandOk(s, reqId, cmd, source, peer, mode,
                                                                             timeout);
      case ReplyEvent(from, corr, reply, sendOk, timeout, sends) =>
        var i := FindPending(s.pending, from, corr);
        if corr != 0 && i < |s.pending| {
          if !s.pending[i].mode.Staging? {
            OtherOk(s, i, reply, timeout);
          } else if OnStageReply(s.pending[i].mode.stage, corr, AllocateCorr(s.nextCorr), reply, sendOk).Continues? {
            ContinuesOk(s, i, corr, reply, sendOk, timeout, sends);
          } else {
            EndsOk(s, i, corr, reply, sendOk, timeout, sends);
          }
        }
      case PruneAt(now) => PruneOk(s, now);
    }
  }

  lemma PullCommandOk(s: Service, reqId: uint32, cmd: nat, source: nat, peer: nat, mode: Mode, timeout: uint32)
    requires ServiceOk(s) && cmd != STAGE_SET && cmd != COMMIT && !mode.Staging?
    ensures ServiceOk(PullCommand(s, reqId, cmd, source, peer, mode, timeout))
  {
    var es := [Respond(source, cmd, reqId, peer, OkDeferred)];
    QuietKeeps(s, es);
    TrackKeeps(s.log + es, s.pending, Pending(reqId, cmd, source, peer, Wrap32(s.now + timeout), reqId, reqId, mode,
                                              0));
    hide ListOk, OksBacked, Track;
  }

  /** Every state of every run keeps the staging invariant. */
  lemma {:induction false} RunOk(es: seq<Event>)
    requires forall i :: 0 <= i < |es| ==> Proper(es[i])
    ensures ServiceOk(HandleAll(EMPTY_SERVICE, es))
    decreases |es|
  {
    if es != [] {
      RunOk(es[..|es| - 1]);
      HandleOk(HandleAll(EMPTY_SERVICE, es[..|es| - 1]), es[|es| - 1]);
    }
  }
}
