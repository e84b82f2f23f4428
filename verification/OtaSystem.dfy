/**
 The whole firmware push: master, slave, and a radio that may lose, duplicate, delay and reorder every frame
 in both directions. A delivery step hands over any frame that was ever sent; a frame never delivered is lost.
*/
module OtaSystem {
  import opened FixedWidth
  import opened Options
  import opened OtaSender
  import opened OtaSenderSafety
  import opened OtaReceiver
  import opened OtaReceiverSafety

  datatype System = System(m: Master, s: Slave)

  datatype SystemStep =
    | MasterInput(i: Input)                                               // clock ticks and events from elsewhere
    | DeliverFrame(n: nat, now: uint32, opening: Opening, flushOk: bool)  // the n-th frame the master ever sent
    | DeliverReport(n: nat, now: uint32, env: PumpEnv)                    // the n-th report the slave ever sent
    | SlaveExpires

  function Apply(a: System, st: SystemStep, x: Transfer, crcOf: seq<byte> -> uint32): System
    requires st.MasterInput? && st.i.Tick? ==> |st.i.env.io| == CHUNK_BUDGET_PER_TICK
  {
    match st
    case MasterInput(i) => a.(m := Step(a.m, i))
    case DeliverFrame(n, now, opening, flushOk) =>
      if n < |a.m.sent| then a.(s := HandleFrame(a.s, a.m.sent[n], crcOf, now, opening, flushOk)) else a
    case DeliverReport(n, now, env) =>
      if n < |a.s.reports| then a.(m := Step(a.m, AsInput(a.s.reports[n], x.peer, now, env))) else a
    case SlaveExpires => a.(s := Expire(a.s))
  }

  function AsInput(r: Report, peer: nat, now: uint32, env: PumpEnv): Input {
    match r
    case StatusReport(corr, kind, offset, code) => Remote(now, corr, kind, offset, code, env)
    case ReadyReport(corr) => Ready(now, peer, corr, env)
  }

  /** How much of the image the slave holds: the stored file, or the contiguous prefix of the open session. */
  function Prefix(x: Transfer, s: Slave): nat {
    if s.stored.Some? then x.totalSize
    else if s.rx.active && s.rx.corr == x.reqId then s.rx.receivedSize
    else 0
  }

  /** The premises on a step: full storage reads, and no reports forged in the slave's name. */
  ghost predicate Enabled(file: seq<byte>, a: System, st: SystemStep) {
    st.MasterInput? ==>
      && (st.i.Tick? ==> GoodInput(file, a.m, st.i))
      && (st.i.Remote? || st.i.Ready? ==> !a.m.push.active || st.i.corr != a.m.push.x.reqId)
  }

  function BeginFrame(x: Transfer): Frame {
    Begin(x.reqId, x.totalSize, x.chunkBytes, x.imageCrc)
  }

  function EndFrame(x: Transfer): Frame {
    End(x.reqId, x.totalSize, x.imageCrc)
  }

  ghost predicate Initial(file: seq<byte>, x: Transfer, crcOf: seq<byte> -> uint32, a: System) {
    && TransferOk(x) && |file| == x.totalSize && crcOf(file) == x.imageCrc
    && (exists now: uint32 :: a.m.push == StartPush(now, x))
    && a.m.sent == [BeginFrame(x)] && a.m.events == [] && a.m.update.phase != WaitBoot
    && !ForTransfer(x, a.s.rx) && a.s.track.corr != x.reqId
    && a.s.stored == None && a.s.images == [] && a.s.reports == []
  }

  ghost predicate Legal(file: seq<byte>, x: Transfer, crcOf: seq<byte> -> uint32, a: System, steps: seq<SystemStep>)
    decreases |steps|
  {
    steps != [] ==> Enabled(file, a, steps[0]) && Legal(file, x, crcOf, Apply(a, steps[0], x, crcOf), steps[1..])
  }

  ghost function Run(file: seq<byte>, x: Transfer, crcOf: seq<byte> -> uint32, a: System,
                     steps: seq<SystemStep>): System
    requires Legal(file, x, crcOf, a, steps)
    decreases |steps|
  {
    if steps == [] then a else Run(file, x, crcOf, Apply(a, steps[0], x, crcOf), steps[1..])
  }

  // ---------------------------------------------------------------- the invariant

  /** Everything the master ever sends of a transfer. */
  ghost predicate FrameOk(file: seq<byte>, x: Transfer, f: Frame)
    requires |file| == x.totalSize && x.chunkBytes > 0
  {
    match f
    case Begin(_, _, _, _) => f == BeginFrame(x)
    case Chunk(_, _, _) => ImageChunk(file, x, f)
    case End(_, _, _) => f == EndFrame(x)
    case _ => true
  }

  ghost predicate FramesOk(file: seq<byte>, x: Transfer, sent: seq<Frame>)
    requires |file| == x.totalSize && x.chunkBytes > 0
  {
    forall i :: 0 <= i < |sent| ==> FrameOk(file, x, sent[i])
  }

  ghost predicate Success(e: Event) {
    (e.PushEnded? || e.UpdateEnded?) && e.success
  }

  ghost predicate MasterOk(file: seq<byte>, x: Transfer, m: Master, accepted: bool)
    requires |file| == x.totalSize && x.chunkBytes > 0
  {
    && SessionOk(m.push) && (m.push.active ==> m.push.x == x && Positioned(m.push))
    && FramesOk(file, x, m.sent)
    && (!accepted ==> (forall i :: 0 <= i < |m.events| ==> !Success(m.events[i])) && m.update.phase != WaitBoot)
  }

  ghost predicate ReportOk(x: Transfer, accepted: bool, r: Report)
    requires x.chunkBytes > 0
  {
    r.corr == x.reqId ==>
      if r.StatusReport? && (r.kind.ChunkAck? || r.kind.ChunkNack?) then r.offset <= x.totalSize && Aligned(x, r.offset)
      else if r.ReadyReport? || r.kind.FinalizeOk? then accepted
      else true
  }

  /** The link layer asks the open session for its prefix without checking whose session it is. */
  ghost predicate TrackOk(x: Transfer, t: Track, rx: RxSession)
    requires x.chunkBytes > 0
  {
    t.corr == x.reqId ==>
      t.lastReceived <= x.totalSize && Aligned(x, t.lastReceived) && (rx.active ==> rx.corr == x.reqId)
  }

  ghost predicate SlaveOk(file: seq<byte>, x: Transfer, s: Slave)
    requires TransferOk(x) && |file| == x.totalSize
  {
    && CoreOk(file, x, s)
    && (forall i :: 0 <= i < |s.reports| ==> ReportOk(x, s.images != [], s.reports[i]))
  }

  ghost predicate CoreOk(file: seq<byte>, x: Transfer, s: Slave)
    requires TransferOk(x) && |file| == x.totalSize
  {
    && RxOk(file, x, s.rx, s.pool) && CountOk(x, s.rx)
    && (s.stored.Some? ==> s.stored.value == file && s.images != [])
    && (forall i :: 0 <= i < |s.images| ==> s.images[i] == file)
    && TrackOk(x, s.track, s.rx)
  }

  // ---------------------------------------------------------------- master steps

  ghost predicate NoNewSuccess(m: Master, m': Master) {
    && m.events <= m'.events
    && (forall i :: |m.events| <= i < |m'.events| ==> !Success(m'.events[i]))
    && (m.update.phase != WaitBoot ==> m'.update.phase != WaitBoot)
  }

  /** Only a positive final report, the ready event or a boot-complete event can end in success. */
  lemma SuccessNeedsReport(m: Master, i: Input)
    requires i.Tick? ==> |i.env.io| == CHUNK_BUDGET_PER_TICK
    requires m.update.phase != WaitBoot
    requires i.Ready? || (i.Remote? && i.kind.FinalizeOk?) ==> !m.push.active || i.corr != m.push.x.reqId
    ensures NoNewSuccess(m, Step(m, i))
  {
    match i {
      case Tick(now, env) => PumpNoSuccess(m, now, env);
      case Remote(now, corr, kind, offset, code, env) =>
      case _ =>
    }
  }

  lemma StopsAreFailures(now: uint32, env: PumpEnv)
    ensures forall m: Master, status: Status, code: uint16 {:trigger StopPush(m, now, false, status, code, env)} ::
              m.update.phase != WaitBoot ==> NoNewSuccess(m, StopPush(m, now, false, status, code, env))
  {
  }

  lemma PumpStreamingNoSuccess(m: Master, now: uint32, env: PumpEnv)
    requires |env.io| == CHUNK_BUDGET_PER_TICK && m.update.phase != WaitBoot
    ensures NoNewSuccess(m, PumpStreaming(m, now, env))
  {
    StopsAreFailures(now, env);
    hide StopPush, OpenWindow, Elapsed, Rewind, ReleaseWindow, AfterLoop;
    var (p, frames, exit) := SendLoop(OpenWindow(m.push), now, env.io, 0);
    if exit.Failed? {
      assert NoNewSuccess(m.(push := p, sent := m.sent + frames),
                          StopPush(m.(push := p, sent := m.sent + frames), now, false, exit.status, exit.code, env));
    }
  }

  lemma PumpNoSuccess(m: Master, now: uint32, env: PumpEnv)
    requires |env.io| == CHUNK_BUDGET_PER_TICK && m.update.phase != WaitBoot
    ensures NoNewSuccess(m, PumpPush(m, now, env))
  {
    PumpStreamingNoSuccess(m, now, env);
    PumpStreamingNoSuccess(m.(push := m.push.(beginAcked := true, t := m.push.t.(nextSend := now))), now, env);
    StopsAreFailures(now, env);
    hide StopPush, PumpStreaming, Elapsed, StartStreaming;
  }

  ghost predicate InputBacked(m: Master, x: Transfer, accepted: bool, i: Input) {
    m.push.active && (i.Ready? || (i.Remote? && i.kind.FinalizeOk?)) && i.corr == x.reqId ==> accepted
  }

  lemma MasterStepOk(file: seq<byte>, x: Transfer, m: Master, accepted: bool, i: Input)
    requires TransferOk(x) && |file| == x.totalSize && MasterOk(file, x, m, accepted)
    requires GoodInput(file, m, i) && (m.push.active ==> AlignedInput(m, i)) && InputBacked(m, x, accepted, i)
    ensures MasterOk(file, x, Step(m, i), accepted)
    ensures m.push.active ==> StepSafe(file, m, Named(m, i), Step(m, i))
    ensures !m.push.active ==> Step(m, i).sent == m.sent && !Step(m, i).push.active
  {
    StepKeepsSession(file, m, i);
    if !accepted {
      SuccessNeedsReport(m, i);
    }
    if m.push.active {
      StepIsSafe(file, m, i);
      assert FramesOk(file, x, Step(m, i).sent) by {
        hide Step, SessionOk, Multiple;
      }
    } else {
      InactiveStaysQuiet(m, i);
    }
    hide Step, SessionOk, Multiple, FramesOk;
  }

  lemma InactiveStaysQuiet(m: Master, i: Input)
    requires i.Tick? ==> |i.env.io| == CHUNK_BUDGET_PER_TICK
    requires !m.push.active
    ensures Step(m, i).sent == m.sent && !Step(m, i).push.active
  {
  }

  // ---------------------------------------------------------------- slave steps

  /** What the slave has told the master, it still holds. */
  ghost predicate Held(x: Transfer, s: Slave) {
    && (s.track.corr == x.reqId ==> s.track.lastReceived <= Prefix(x, s))
    && (forall i :: 0 <= i < |s.reports| ==> ReportHeld(x, Prefix(x, s), s.reports[i]))
  }

  ghost predicate ReportHeld(x: Transfer, prefix: nat, r: Report) {
    r.StatusReport? && r.corr == x.reqId && (r.kind.ChunkAck? || r.kind.ChunkNack?) ==> r.offset <= prefix
  }

  /** Reports already sent stay, and each new one is sound; `held` adds that it names no more than the slave holds. */
  ghost predicate ReportsGrow(x: Transfer, s: Slave, s': Slave)
    requires x.chunkBytes > 0
  {
    && s.reports <= s'.reports && |s.images| <= |s'.images|
    && (forall i :: |s.reports| <= i < |s'.reports| ==> ReportOk(x, s'.images != [], s'.reports[i]))
  }

  ghost predicate StaysHeld(x: Transfer, s: Slave, s': Slave) {
    Held(x, s) && Prefix(x, s) <= Prefix(x, s') ==>
      && (s'.track.corr == x.reqId ==> s'.track.lastReceived <= Prefix(x, s'))
      && (forall i :: |s.reports| <= i < |s'.reports| ==> ReportHeld(x, Prefix(x, s'), s'.reports[i]))
  }

  lemma HeldGrows(x: Transfer, s: Slave, s': Slave)
    requires s.reports <= s'.reports && StaysHeld(x, s, s') && Held(x, s) && Prefix(x, s) <= Prefix(x, s')
    ensures Held(x, s')
  {
    forall i | 0 <= i < |s'.reports| ensures ReportHeld(x, Prefix(x, s'), s'.reports[i]) {
      if i < |s.reports| {
        assert ReportHeld(x, Prefix(x, s), s.reports[i]);
      }
    }
  }

  lemma FreshSessionOk(file: seq<byte>, x: Transfer, pool: seq<byte>)
    requires TransferOk(x) && |file| == x.totalSize <= |pool|
    ensures var rx := BeginReceive(pool, x.reqId, x.totalSize, x.chunkBytes, x.imageCrc);
            RxOk(file, x, rx, pool) && CountOk(x, rx)
  {
    var rx := BeginReceive(pool, x.reqId, x.totalSize, x.chunkBytes, x.imageCrc);
    CountIsCeiling(x);
    NothingMarked(x, rx.marks, 0);
  }

  lemma {:induction false} NothingMarked(x: Transfer, marks: seq<bool>, o: nat)
    requires TransferOk(x) && o <= x.totalSize && forall k :: 0 <= k < |marks| ==> !marks[k]
    ensures MarkedBytes(x, marks, o) == 0
    decreases x.totalSize - o
  {
    if o < x.totalSize {
      NothingMarked(x, marks, o + ChunkLen(x, o));
    }
  }

  lemma BeginStep(file: seq<byte>, x: Transfer, s: Slave, opening: Opening)
    requires TransferOk(x) && |file| == x.totalSize && CoreOk(file, x, s)
    ensures var s' := HandleBegin(s, x.reqId, x.totalSize, x.chunkBytes, x.imageCrc, opening);
            CoreOk(file, x, s') && ReportsGrow(x, s, s') && StaysHeld(x, s, s')
  {
    if opening.Granted? && |s.pool| >= x.totalSize {
      FreshSessionOk(file, x, s.pool);
    }
  }

  /** Acknowledging or refusing a chunk names the given prefix and touches nothing but the bookkeeping. */
  ghost predicate TellsPrefix(x: Transfer, s: Slave, s': Slave, prefix: nat) {
    && s' == s.(track := s'.track, reports := s'.reports)
    && s.reports <= s'.reports
    && s'.track.lastReceived == prefix && s'.track.corr == s.track.corr
    && (forall i :: |s.reports| <= i < |s'.reports| ==>
          s'.reports[i].StatusReport? && s'.reports[i].offset == prefix
          && (s'.reports[i].kind.ChunkAck? || s'.reports[i].kind.ChunkNack?))
  }

  lemma AnswersTellPrefix(x: Transfer, s: Slave, corr: uint32, prefix: uint32, now: uint32)
    ensures TellsPrefix(x, s, AckChunk(s, corr, prefix), prefix)
    ensures TellsPrefix(x, s, NackChunk(s, corr, prefix, now), prefix)
  {
    hide NextThreshold;
  }

  lemma WriteStep(file: seq<byte>, x: Transfer, s: Slave, f: Frame)
    requires TransferOk(x) && |file| == x.totalSize && CoreOk(file, x, s) && ImageChunk(file, x, f)
    ensures var r := WriteChunk(s.rx, s.pool, f.corr, f.offset, f.data);
            && RxOk(file, x, r.0, r.1) && CountOk(x, r.0)
            && (ForTransfer(x, s.rx) <==> ForTransfer(x, r.0))
            && (ForTransfer(x, s.rx) ==> s.rx.receivedSize <= r.0.receivedSize)
            && (r.0.active && r.0.corr == x.reqId ==> r.0.receivedSize <= x.totalSize && Aligned(x, r.0.receivedSize))
            && (!ForTransfer(x, s.rx) ==> r.0 == s.rx && r.1 == s.pool && !r.2)
  {
    if ForTransfer(x, s.rx) {
      WriteImageChunk(file, x, s.rx, s.pool, f);
      WriteKeepsCount(file, x, s.rx, s.pool, f);
      hide WriteChunk, PoolMatches, MarkedBytes, ImageChunk, Multiple;
    }
  }

  lemma ChunkStep(file: seq<byte>, x: Transfer, s: Slave, f: Frame, now: uint32)
    requires TransferOk(x) && |file| == x.totalSize && CoreOk(file, x, s) && ImageChunk(file, x, f)
    ensures var s' := HandleChunk(s, f.corr, f.offset, f.data, now);
            && CoreOk(file, x, s') && ReportsGrow(x, s, s') && StaysHeld(x, s, s')
            && s'.images == s.images && s'.stored == s.stored && Prefix(x, s) <= Prefix(x, s')
  {
    hide WriteChunk, RxOk, CountOk, AckChunk, NackChunk, Multiple;
    var (rx, pool, ok) := WriteChunk(s.rx, s.pool, f.corr, f.offset, f.data);
    WriteStep(file, x, s, f);
    var prefix := Max(s.track.lastReceived, ContiguousReceiveSize(rx));
    AnswersTellPrefix(x, s.(rx := rx, pool := pool), f.corr, prefix, now);
  }

  lemma WholePoolIsFile(file: seq<byte>, x: Transfer, s: Slave)
    requires TransferOk(x) && |file| == x.totalSize && RxOk(file, x, s.rx, s.pool) && ForTransfer(x, s.rx)
    requires s.rx.receivedSize == x.totalSize
    ensures s.pool[..x.totalSize] == file
  {
    forall b | 0 <= b < x.totalSize ensures s.pool[b] == file[b] {
      assert MarkedAt(x.chunkBytes, s.rx.marks, b);
    }
  }

  lemma EndStep(file: seq<byte>, x: Transfer, s: Slave, crcOf: seq<byte> -> uint32, flushOk: bool)
    requires TransferOk(x) && |file| == x.totalSize && CoreOk(file, x, s)
    ensures var s' := HandleEnd(s, x.reqId, x.totalSize, x.imageCrc, crcOf, flushOk);
            CoreOk(file, x, s') && ReportsGrow(x, s, s') && StaysHeld(x, s, s')
  {
    if ForTransfer(x, s.rx) && s.rx.receivedSize == x.totalSize {
      WholePoolIsFile(file, x, s);
    }
    hide PoolMatches, IsPrefixEnd, MarkedBytes;
  }

  // ---------------------------------------------------------------- the whole system

  ghost predicate EndSent(m: Master) {
    exists i :: 0 <= i < |m.sent| && m.sent[i].End?
  }

  /** What holds as long as the slave throws no received byte away: nothing it has told the master is gone. */
  ghost predicate InStep(x: Transfer, a: System) {
    && Held(x, a.s)
    && (a.m.push.active ==> a.m.push.w.remoteAcked <= Prefix(x, a.s))
    && (EndSent(a.m) ==> Prefix(x, a.s) == x.totalSize)
  }

  ghost predicate SystemOk(file: seq<byte>, x: Transfer, a: System)
    requires TransferOk(x) && |file| == x.totalSize
  {
    MasterOk(file, x, a.m, a.s.images != []) && SlaveOk(file, x, a.s)
  }

  lemma InitialOk(file: seq<byte>, x: Transfer, crcOf: seq<byte> -> uint32, a: System)
    requires Initial(file, x, crcOf, a)
    ensures SystemOk(file, x, a) && InStep(x, a)
  {
  }

  lemma PrefixBound(file: seq<byte>, x: Transfer, s: Slave)
    requires TransferOk(x) && |file| == x.totalSize && CoreOk(file, x, s)
    ensures Prefix(x, s) <= x.totalSize
  {
  }

  lemma MasterStepInStep(file: seq<byte>, x: Transfer, a: System, i: Input)
    requires TransferOk(x) && |file| == x.totalSize && SystemOk(file, x, a) && InStep(x, a)
    requires i.Tick? ==> |i.env.io| == CHUNK_BUDGET_PER_TICK
    requires a.m.push.active ==> StepSafe(file, a.m, Named(a.m, i), Step(a.m, i)) && Named(a.m, i) <= Prefix(x, a.s)
    requires !a.m.push.active ==> Step(a.m, i).sent == a.m.sent && !Step(a.m, i).push.active
    ensures InStep(x, a.(m := Step(a.m, i)))
  {
    hide Step, SessionOk, Multiple, Held, CoreOk, FramesOk, Named;
    PrefixBound(file, x, a.s);
    var m' := Step(a.m, i);
    if EndSent(m') && !EndSent(a.m) {
      var k :| 0 <= k < |m'.sent| && m'.sent[k].End?;
      assert a.m.push.active && |a.m.sent| <= k;
      assert FrameAllowed(file, a.m.push.x, a.m.push.w.remoteAcked, m'.sent[k]);
    }
  }

  lemma MasterMoves(file: seq<byte>, x: Transfer, a: System, i: Input)
    requires TransferOk(x) && |file| == x.totalSize && SystemOk(file, x, a)
    requires GoodInput(file, a.m, i) && (a.m.push.active ==> AlignedInput(a.m, i))
    requires InputBacked(a.m, x, a.s.images != [], i)
    ensures SystemOk(file, x, a.(m := Step(a.m, i)))
    ensures InStep(x, a) && (a.m.push.active ==> Named(a.m, i) <= Prefix(x, a.s)) ==> InStep(x, a.(m := Step(a.m, i)))
  {
    MasterStepOk(file, x, a.m, a.s.images != [], i);
    if InStep(x, a) && (a.m.push.active ==> Named(a.m, i) <= Prefix(x, a.s)) {
      MasterStepInStep(file, x, a, i);
    }
    hide Step, MasterOk, SlaveOk, InStep;
  }

  lemma SlaveMoves(file: seq<byte>, x: Transfer, a: System, s': Slave)
    requires TransferOk(x) && |file| == x.totalSize && SystemOk(file, x, a)
    requires CoreOk(file, x, s') && ReportsGrow(x, a.s, s') && StaysHeld(x, a.s, s')
    ensures SystemOk(file, x, a.(s := s'))
    ensures InStep(x, a) && Prefix(x, a.s) <= Prefix(x, s') ==> InStep(x, a.(s := s'))
  {
    hide CoreOk, SessionOk, FramesOk;
    PrefixBound(file, x, s');
    forall i | 0 <= i < |s'.reports| ensures ReportOk(x, s'.images != [], s'.reports[i]) {
      if i < |a.s.reports| {
        assert ReportOk(x, a.s.images != [], a.s.reports[i]);
      }
    }
    if InStep(x, a) && Prefix(x, a.s) <= Prefix(x, s') {
      HeldGrows(x, a.s, s');
    }
  }

  lemma FrameArrives(file: seq<byte>, x: Transfer, s: Slave, f: Frame, crcOf: seq<byte> -> uint32, now: uint32,
                     opening: Opening, flushOk: bool)
    requires TransferOk(x) && |file| == x.totalSize && CoreOk(file, x, s) && FrameOk(file, x, f)
    ensures var s' := HandleFrame(s, f, crcOf, now, opening, flushOk);
            CoreOk(file, x, s') && ReportsGrow(x, s, s') && StaysHeld(x, s, s')
  {
    match f {
      case Begin(_, _, _, _) => BeginStep(file, x, s, opening);
      case Chunk(_, _, _) => ChunkStep(file, x, s, f, now);
      case End(_, _, _) => EndStep(file, x, s, crcOf, flushOk);
      case _ =>
    }
    hide HandleBegin, HandleChunk, HandleEnd, CoreOk, ReportsGrow, StaysHeld;
  }

  lemma ReportArrives(file: seq<byte>, x: Transfer, a: System, r: Report, now: uint32, env: PumpEnv)
    requires TransferOk(x) && |file| == x.totalSize && SystemOk(file, x, a) && r in a.s.reports
    ensures var a' := a.(m := Step(a.m, AsInput(r, x.peer, now, env)));
            SystemOk(file, x, a') && (InStep(x, a) ==> InStep(x, a'))
  {
    var k :| 0 <= k < |a.s.reports| && a.s.reports[k] == r;
    assert ReportOk(x, a.s.images != [], r);
    assert InStep(x, a) ==> ReportHeld(x, Prefix(x, a.s), r);
    MasterMoves(file, x, a, AsInput(r, x.peer, now, env));
  }

  /** Every step keeps the system invariant; one that throws nothing away also keeps the two ends in step. */
  lemma StepKeepsSystem(file: seq<byte>, x: Transfer, crcOf: seq<byte> -> uint32, a: System, st: SystemStep)
    requires TransferOk(x) && |file| == x.totalSize && SystemOk(file, x, a) && Enabled(file, a, st)
    ensures var a' := Apply(a, st, x, crcOf);
            SystemOk(file, x, a') && (InStep(x, a) && Prefix(x, a.s) <= Prefix(x, a'.s) ==> InStep(x, a'))
  {
    match st {
      case MasterInput(i) => MasterMoves(file, x, a, i);
      case DeliverFrame(n, now, opening, flushOk) =>
        if n < |a.m.sent| {
          FrameArrives(file, x, a.s, a.m.sent[n], crcOf, now, opening, flushOk);
          SlaveMoves(file, x, a, HandleFrame(a.s, a.m.sent[n], crcOf, now, opening, flushOk));
        }
      case DeliverReport(n, now, env) =>
        if n < |a.s.reports| {
          ReportArrives(file, x, a, a.s.reports[n], now, env);
        }
      case SlaveExpires => SlaveMoves(file, x, a, Expire(a.s));
    }
  }

  lemma {:induction false} RunKeepsSystem(file: seq<byte>, x: Transfer, crcOf: seq<byte> -> uint32, a: System,
                                          steps: seq<SystemStep>)
    requires TransferOk(x) && |file| == x.totalSize && SystemOk(file, x, a) && Legal(file, x, crcOf, a, steps)
    ensures SystemOk(file, x, Run(file, x, crcOf, a, steps))
    decreases |steps|
  {
    if steps != [] {
      StepKeepsSystem(file, x, crcOf, a, steps[0]);
      RunKeepsSystem(file, x, crcOf, Apply(a, steps[0], x, crcOf), steps[1..]);
    }
  }

  // ---------------------------------------------------------------- when received bytes are thrown away

  predicate Delivers(a: System, st: SystemStep, f: Frame) {
    st.DeliverFrame? && st.n < |a.m.sent| && a.m.sent[st.n] == f
  }

  /**
   The steps that cost the slave bytes it has received: with nothing stored, the session expires or a begin frame gets
   past the gate; or the flash fails under the end frame of a complete session.
  */
  ghost predicate ThrowsAway(x: Transfer, a: System, st: SystemStep) {
    || (st.SlaveExpires? && a.s.stored == None && ForTransfer(x, a.s.rx) && a.s.rx.receivedSize > 0)
    || (Delivers(a, st, BeginFrame(x)) && st.opening != Barred
        && a.s.stored == None && ForTransfer(x, a.s.rx) && a.s.rx.receivedSize > 0)
    || (Delivers(a, st, EndFrame(x)) && !st.flushOk && ForTransfer(x, a.s.rx) && a.s.rx.receivedSize == x.totalSize)
  }

  lemma {:induction false} EndLoses(file: seq<byte>, x: Transfer, s: Slave, crcOf: seq<byte> -> uint32, flushOk: bool)
    requires TransferOk(x) && |file| == x.totalSize && CoreOk(file, x, s) && crcOf(file) == x.imageCrc
    ensures Prefix(x, HandleEnd(s, x.reqId, x.totalSize, x.imageCrc, crcOf, flushOk)) < Prefix(x, s)
       <==> !flushOk && ForTransfer(x, s.rx) && s.rx.receivedSize == x.totalSize
  {
    if ForTransfer(x, s.rx) && s.rx.receivedSize == x.totalSize {
      WholePoolIsFile(file, x, s);
      AllMarkedIsEverything(x, s.rx.marks, 0);
    }
    hide PoolMatches, IsPrefixEnd, MarkedBytes;
  }

  lemma BeginLoses(file: seq<byte>, x: Transfer, s: Slave, opening: Opening)
    requires TransferOk(x) && |file| == x.totalSize && CoreOk(file, x, s)
    ensures Prefix(x, HandleBegin(s, x.reqId, x.totalSize, x.chunkBytes, x.imageCrc, opening)) < Prefix(x, s)
       <==> opening != Barred && s.stored == None && ForTransfer(x, s.rx) && s.rx.receivedSize > 0
  {
    hide PoolMatches, IsPrefixEnd, MarkedBytes;
  }

  /** The prefix the slave holds falls at exactly those steps. */
  lemma LossExactly(file: seq<byte>, x: Transfer, crcOf: seq<byte> -> uint32, a: System, st: SystemStep)
    requires TransferOk(x) && |file| == x.totalSize && crcOf(file) == x.imageCrc
    requires SystemOk(file, x, a) && Enabled(file, a, st)
    ensures Prefix(x, Apply(a, st, x, crcOf).s) < Prefix(x, a.s) <==> ThrowsAway(x, a, st)
  {
    if st.DeliverFrame? && st.n < |a.m.sent| {
      var f := a.m.sent[st.n];
      assert FrameOk(file, x, f);
      BeginLoses(file, x, a.s, st.opening);
      EndLoses(file, x, a.s, crcOf, st.flushOk);
      if f.Chunk? {
        ChunkStep(file, x, a.s, f, st.now);
      }
    }
    hide HandleBegin, HandleChunk, HandleEnd, CoreOk, MasterOk, Step, ImageChunk;
  }
}
