/**
 Pushes that never come to an end. The slave acknowledges only at whole steps of at least 1024 bytes and at the end of
 the image, and never repeats an acknowledgement, while the sender waits for the end of its window of sixteen chunks.
 So a push with small chunks never gets past its first window, even over a perfect radio, and one lost acknowledgement
 makes the sender repeat a window for ever.
*/
module OtaStalls {
  import opened FixedWidth
  import opened OtaSender
  import opened OtaSenderSafety
  import opened OtaReceiver
  import opened OtaReceiverSafety
  import opened OtaSystem
  import opened OtaTheorems
  import opened OtaRefusals

  // ---------------------------------------------------------------- the sender without news

  /** Nothing beyond `acked` is acknowledged, and the window does not reach past `limit`. */
  ghost predicate Behind(w: Window, acked: nat, limit: nat) {
    w.remoteAcked == acked && w.pendingEnd <= limit
  }

  /** Every chunk sent lies below `limit`, and no end frame is among them. */
  ghost predicate SentBelow(frames: seq<Frame>, limit: nat) {
    forall i :: 0 <= i < |frames| ==> !frames[i].End? && (frames[i].Chunk? ==> frames[i].offset < limit)
  }

  lemma SentBelowGrows(a: seq<Frame>, b: seq<Frame>, limit: nat)
    requires SentBelow(a, limit) && a <= b
    requires forall i :: |a| <= i < |b| ==> !b[i].End? && (b[i].Chunk? ==> b[i].offset < limit)
    ensures SentBelow(b, limit)
  {
    forall i | 0 <= i < |b| ensures !b[i].End? && (b[i].Chunk? ==> b[i].offset < limit) {
      assert i < |a| ==> b[i] == a[i];
    }
  }

  lemma {:induction false} LoopStaysBelow(p: PushSession, now: uint32, io: seq<ChunkIo>, k: nat)
    requires k <= CHUNK_BUDGET_PER_TICK == |io|
    ensures var r := SendLoop(p, now, io, k);
            r.0.w.pendingEnd == p.w.pendingEnd && SentBelow(r.1, p.w.pendingEnd)
    decreases CHUNK_BUDGET_PER_TICK - k
  {
    if k < CHUNK_BUDGET_PER_TICK && p.w.next < p.x.totalSize && p.w.next < p.w.pendingEnd
       && io[k].Read? && io[k].data != [] && io[k].sendOk {
      LoopStaysBelow(AfterChunk(p, |ChunkData(p, io[k].data)|), now, io, k + 1);
    }
  }

  /** A window opens at most sixteen chunks ahead of what is acknowledged. */
  lemma WindowOpensBelow(p: PushSession, acked: nat, limit: nat)
    requires p.active && SessionOk(p) && p.phase == Streaming && !p.w.waiting && p.w.next < p.x.totalSize
    requires Behind(p.w, acked, limit) && Min(acked + 16 * p.x.chunkBytes, p.x.totalSize) <= limit
    ensures OpenWindow(p).w.pendingEnd <= limit
  {
    OpenWindowKeeps(p);
    WindowBytes(p.x.chunkBytes, p.w.chunks);
    assert p.w.chunks == 1 ==> p.x.chunkBytes * p.w.chunks == p.x.chunkBytes;
    assert p.w.chunks == 16 ==> p.x.chunkBytes * p.w.chunks == 16 * p.x.chunkBytes;
  }

  lemma WindowStaysBehind(m: Master, now: uint32, env: PumpEnv, acked: nat, limit: nat)
    requires m.push.active && SessionOk(m.push) && m.push.phase == Streaming && !m.push.w.waiting
    requires m.push.w.next < m.push.x.totalSize && |env.io| == CHUNK_BUDGET_PER_TICK
    requires Behind(m.push.w, acked, limit) && Min(acked + 16 * m.push.x.chunkBytes, m.push.x.totalSize) <= limit
    requires SentBelow(m.sent, limit)
    ensures var m' := PumpWindow(m, now, env);
            SentBelow(m'.sent, limit) && (m'.push.active ==> m'.push.w.pendingEnd <= limit)
  {
    hide SessionOk, SendLoop, OpenWindow;
    WindowOpensBelow(m.push, acked, limit);
    LoopStaysBelow(OpenWindow(m.push), now, env.io, 0);
    var (p, frames, exit) := SendLoop(OpenWindow(m.push), now, env.io, 0);
    SentBelowGrows(m.sent, m.sent + frames, limit);
    var m1 := m.(push := p, sent := m.sent + frames);
    if exit.Failed? {
      StopSendsBelow(m1, now, exit.status, exit.code, env, limit);
    }
  }

  lemma StopSendsBelow(m: Master, now: uint32, status: Status, code: uint16, env: PumpEnv, limit: nat)
    requires SentBelow(m.sent, limit)
    ensures var m' := StopPush(m, now, false, status, code, env); SentBelow(m'.sent, limit) && !m'.push.active
  {
  }

  lemma PumpStaysBehind(m: Master, now: uint32, env: PumpEnv, acked: nat, limit: nat)
    requires m.push.active && SessionOk(m.push) && |env.io| == CHUNK_BUDGET_PER_TICK
    requires Behind(m.push.w, acked, limit) && Min(acked + 16 * m.push.x.chunkBytes, m.push.x.totalSize) <= limit
    requires SentBelow(m.sent, limit) && acked < m.push.x.totalSize
    ensures var m' := PumpPush(m, now, env);
            SentBelow(m'.sent, limit) && (m'.push.active ==> m'.push.w.pendingEnd <= limit)
  {
    hide PumpWindow, StopPush, Multiple, Elapsed;
    StopSendsBelow(m, now, UnsupportedCommand, 0, env, limit);
    StopSendsBelow(m, now, NotPaired, 0, env, limit);
    StopSendsBelow(m, now, Timeout, CODE_TIMEOUT, env, limit);
    if m.push.phase == Streaming && !m.push.w.waiting && m.push.w.next < m.push.x.totalSize {
      WindowStaysBehind(m, now, env, acked, limit);
    }
  }

  /** Hearing of nothing beyond `acked`, the sender stays where it is: it may send again, but nothing new. */
  lemma StepStaysBehind(file: seq<byte>, m: Master, i: Input, acked: nat, limit: nat)
    requires m.push.active && SessionOk(m.push) && GoodInput(file, m, i) && |file| == m.push.x.totalSize
    requires Positioned(m.push) && AlignedInput(m, i) && Named(m, i) <= acked < m.push.x.totalSize
    requires Behind(m.push.w, acked, limit) && Min(acked + 16 * m.push.x.chunkBytes, m.push.x.totalSize) <= limit
    requires SentBelow(m.sent, limit)
    ensures var m' := Step(m, i); SentBelow(m'.sent, limit) && (m'.push.active ==> Behind(m'.push.w, acked, limit))
  {
    StepIsSafe(file, m, i);
    if i.Tick? {
      PumpStaysBehind(m, i.now, i.env, acked, limit);
    } else {
      OthersStayBehind(m, i, limit);
    }
    hide Step, SessionOk, Multiple, GoodInput, SentBelow;
  }

  lemma OthersStayBehind(m: Master, i: Input, limit: nat)
    requires m.push.active && SessionOk(m.push) && !i.Tick? && m.push.w.remoteAcked < m.push.x.totalSize
    requires SentBelow(m.sent, limit) && m.push.w.pendingEnd <= limit
    ensures var m' := Step(m, i); SentBelow(m'.sent, limit) && (m'.push.active ==> m'.push.w.pendingEnd <= limit)
  {
    hide Multiple, Elapsed;
  }

  lemma MasterStaysBehind(file: seq<byte>, x: Transfer, m: Master, accepted: bool, i: Input, acked: nat, limit: nat)
    requires TransferOk(x) && |file| == x.totalSize && MasterOk(file, x, m, accepted) && acked < x.totalSize
    requires GoodInput(file, m, i) && (m.push.active ==> AlignedInput(m, i) && Named(m, i) <= acked)
    requires Min(acked + 16 * x.chunkBytes, x.totalSize) <= limit
    requires SentBelow(m.sent, limit) && (m.push.active ==> Behind(m.push.w, acked, limit))
    ensures var m' := Step(m, i); SentBelow(m'.sent, limit) && (m'.push.active ==> Behind(m'.push.w, acked, limit))
  {
    hide Step, SessionOk, Multiple, GoodInput, SentBelow, FramesOk, AlignedInput;
    if m.push.active {
      StepStaysBehind(file, m, i, acked, limit);
    } else {
      GoodTick(file, m, i);
      InactiveStaysQuiet(m, i);
    }
  }

  lemma GoodTick(file: seq<byte>, m: Master, i: Input)
    requires GoodInput(file, m, i)
    ensures i.Tick? ==> |i.env.io| == CHUNK_BUDGET_PER_TICK
  {
  }

  // ---------------------------------------------------------------- small chunks

  ghost function FirstWindow(x: Transfer): nat {
    16 * x.chunkBytes
  }

  /** A first window shorter than the slave's acknowledgement step, and an image longer than the window. */
  predicate TooSmall(x: Transfer) {
    16 * x.chunkBytes < 1024 && 16 * x.chunkBytes < x.totalSize
  }

  /** Nothing said of the transfer names any byte of it. */
  ghost predicate Silent(x: Transfer, r: Report) {
    r.corr == x.reqId ==> r.StatusReport? && (r.kind.ChunkAck? || r.kind.ChunkNack?) && r.offset == 0
  }

  ghost predicate AllSilent(x: Transfer, reports: seq<Report>) {
    forall i :: 0 <= i < |reports| ==> Silent(x, reports[i])
  }

  /** The books of a slave that has not been sent enough to acknowledge. */
  predicate NothingDue(x: Transfer, t: Track) {
    t.corr == x.reqId ==>
      && t.lastReceived <= 16 * x.chunkBytes && t.lastAcked == 0 && t.nextAck >= 1024
      && (t.expectedSize == 0 || t.expectedSize == x.totalSize)
  }

  ghost predicate SlaveSilent(x: Transfer, s: Slave)
    requires x.chunkBytes > 0
  {
    && BooksMatch(x, s) && NothingDue(x, s.track) && AllSilent(x, s.reports) && s.images == []
    && (ForTransfer(x, s.rx) ==> !MarkedAt(x.chunkBytes, s.rx.marks, FirstWindow(x)))
  }

  lemma {:induction false} MultipleGap(c: nat, a: nat, b: nat)
    requires c > 0 && Multiple(c, a) && Multiple(c, b) && a < b
    ensures a + c <= b
    decreases a
  {
    if a >= c {
      MultipleGap(c, a - c, b - c);
    }
  }

  /** Marking a chunk below a chunk boundary leaves the byte at the boundary unmarked. */
  lemma {:induction false} MarkLeavesLimit(c: nat, marks: seq<bool>, f: nat, limit: nat)
    requires c > 0 && Multiple(c, f) && Multiple(c, limit) && f < limit && Index(c, f) < |marks|
    ensures MarkedAt(c, marks[Index(c, f) := true], limit) == MarkedAt(c, marks, limit)
  {
    MultipleGap(c, f, limit);
    IndexRange(c, f, limit);
  }

  lemma PrefixBelowUnmarked(file: seq<byte>, x: Transfer, rx: RxSession, pool: seq<byte>, limit: nat)
    requires TransferOk(x) && |file| == x.totalSize && RxOk(file, x, rx, pool) && ForTransfer(x, rx)
    requires !MarkedAt(x.chunkBytes, rx.marks, limit)
    ensures rx.receivedSize <= limit
  {
  }

  lemma ReceivedMarks(x: Transfer, rx: RxSession, f: Frame)
    requires TransferOk(x) && Shape(x, rx) && f.Chunk? && Index(x.chunkBytes, f.offset) < |rx.marks|
    ensures Received(x, rx, f).marks == rx.marks[Index(x.chunkBytes, f.offset) := true]
    ensures Received(x, rx, f).active == rx.active && Received(x, rx, f).corr == rx.corr
  {
    hide Contiguous;
    var k := Index(x.chunkBytes, f.offset);
    assert rx.marks[k] ==> rx.marks[k := true] == rx.marks;
  }

  lemma SilentChunk(file: seq<byte>, x: Transfer, s: Slave, f: Frame, now: uint32)
    requires TransferOk(x) && |file| == x.totalSize && CoreOk(file, x, s) && ImageChunk(file, x, f)
    requires TooSmall(x) && SlaveSilent(x, s) && f.offset < FirstWindow(x)
    ensures SlaveSilent(x, HandleChunk(s, f.corr, f.offset, f.data, now))
  {
    hide WriteChunk, PoolMatches, IsPrefixEnd, CountOk, ImageChunk, Index, MarkedAt, NextThreshold, Multiple, Received,
      AllSilent;
    ChunkParts(file, x, f);
    var (rx, pool, ok) := WriteChunk(s.rx, s.pool, f.corr, f.offset, f.data);
    if ForTransfer(x, s.rx) {
      WriteAccepted(file, x, s.rx, s.pool, f);
      WriteImageChunk(file, x, s.rx, s.pool, f);
      ReceivedMarks(x, s.rx, f);
      MultipleTimes(x.chunkBytes, 16);
      assert x.chunkBytes * 16 == FirstWindow(x);
      MarkLeavesLimit(x.chunkBytes, s.rx.marks, f.offset, FirstWindow(x));
      PrefixBelowUnmarked(file, x, rx, pool, FirstWindow(x));
    } else {
      WriteStep(file, x, s, f);
    }
  }

  lemma SilentBegin(x: Transfer, s: Slave, opening: Opening)
    requires TransferOk(x) && TooSmall(x) && SlaveSilent(x, s) && x.reqId != 0
    requires opening == ProbeFails ==> s.track.corr != x.reqId
    ensures SlaveSilent(x, HandleBegin(s, x.reqId, x.totalSize, x.chunkBytes, x.imageCrc, opening))
  {
    hide Index;
    var s' := HandleBegin(s, x.reqId, x.totalSize, x.chunkBytes, x.imageCrc, opening);
    forall i | 0 <= i < |s'.reports| ensures Silent(x, s'.reports[i]) {
      assert i < |s.reports| ==> s'.reports[i] == s.reports[i];
    }
  }

  ghost predicate StuckAtStart(x: Transfer, a: System)
    requires x.chunkBytes > 0
  {
    && SentBelow(a.m.sent, FirstWindow(x)) && (a.m.push.active ==> Behind(a.m.push.w, 0, FirstWindow(x)))
    && SlaveSilent(x, a.s)
  }

  lemma StuckSlaveStep(file: seq<byte>, x: Transfer, crcOf: seq<byte> -> uint32, a: System, st: SystemStep)
    requires TransferOk(x) && |file| == x.totalSize && SystemOk(file, x, a) && x.reqId != 0 && TooSmall(x)
    requires StuckAtStart(x, a) && !DropsSession(x, a, st)
    requires st.SlaveExpires? || (st.DeliverFrame? && st.n < |a.m.sent|)
    ensures SlaveSilent(x, Apply(a, st, x, crcOf).s)
  {
    hide HandleChunk, HandleBegin, HandleEnd, CoreOk, MasterOk, AllSilent, ImageChunk, MarkedAt;
    if st.DeliverFrame? {
      var f := a.m.sent[st.n];
      FrameOfSystem(file, x, a, st.n);
      if f.Begin? {
        SilentBegin(x, a.s, st.opening);
      } else if f.Chunk? {
        SilentChunk(file, x, a.s, f, st.now);
      }
    }
  }

  lemma NamedInReport(x: Transfer, m: Master, r: Report, now: uint32, env: PumpEnv)
    requires m.push.active ==> m.push.x == x
    requires Silent(x, r)
    ensures m.push.active ==> Named(m, AsInput(r, x.peer, now, env)) == 0
  {
  }

  lemma StuckMasterStep(file: seq<byte>, x: Transfer, a: System, i: Input)
    requires TransferOk(x) && |file| == x.totalSize && SystemOk(file, x, a) && TooSmall(x) && StuckAtStart(x, a)
    requires GoodInput(file, a.m, i) && (a.m.push.active ==> AlignedInput(a.m, i) && Named(a.m, i) == 0)
    ensures StuckAtStart(x, a.(m := Step(a.m, i)))
  {
    hide MasterOk, SlaveOk, SlaveSilent, Step, SentBelow, GoodInput, AlignedInput;
    MasterStaysBehind(file, x, a.m, a.s.images != [], i, 0, FirstWindow(x));
  }

  lemma StuckStep(file: seq<byte>, x: Transfer, crcOf: seq<byte> -> uint32, a: System, st: SystemStep)
    requires TransferOk(x) && |file| == x.totalSize && SystemOk(file, x, a) && x.reqId != 0 && TooSmall(x)
    requires StuckAtStart(x, a) && Enabled(file, a, st) && !DropsSession(x, a, st)
    ensures StuckAtStart(x, Apply(a, st, x, crcOf))
  {
    match st {
      case MasterInput(i) =>
        StuckMasterStep(file, x, a, i);
      case DeliverReport(n, now, env) =>
        if n < |a.s.reports| {
          ReportInput(file, x, a, n, now, env);
          assert Silent(x, a.s.reports[n]);
          NamedInReport(x, a.m, a.s.reports[n], now, env);
          StuckMasterStep(file, x, a, AsInput(a.s.reports[n], x.peer, now, env));
        }
      case DeliverFrame(n, now, opening, flushOk) =>
        if n < |a.m.sent| {
          StuckSlaveStep(file, x, crcOf, a, st);
        }
      case SlaveExpires =>
        StuckSlaveStep(file, x, crcOf, a, st);
    }
    hide Step, HandleFrame, MasterOk, SlaveOk, SlaveSilent, SentBelow;
  }

  /** A delivered report is a fit input: it names a chunk boundary inside the image. */
  lemma ReportInput(file: seq<byte>, x: Transfer, a: System, n: nat, now: uint32, env: PumpEnv)
    requires TransferOk(x) && |file| == x.totalSize && SystemOk(file, x, a) && n < |a.s.reports|
    ensures var i := AsInput(a.s.reports[n], x.peer, now, env);
            GoodInput(file, a.m, i) && (a.m.push.active ==> AlignedInput(a.m, i))
  {
    assert ReportOk(x, a.s.images != [], a.s.reports[n]);
  }

  lemma {:induction false} StuckRun(file: seq<byte>, x: Transfer, crcOf: seq<byte> -> uint32, a: System,
                                    steps: seq<SystemStep>)
    requires TransferOk(x) && |file| == x.totalSize && SystemOk(file, x, a) && x.reqId != 0 && TooSmall(x)
    requires StuckAtStart(x, a) && Legal(file, x, crcOf, a, steps) && KeepsSession(file, x, crcOf, a, steps)
    ensures StuckAtStart(x, Run(file, x, crcOf, a, steps))
    decreases |steps|
  {
    hide SystemOk, StuckAtStart, DropsSession, Apply;
    if steps != [] {
      StepKeepsSystem(file, x, crcOf, a, steps[0]);
      StuckStep(file, x, crcOf, a, steps[0]);
      StuckRun(file, x, crcOf, Apply(a, steps[0], x, crcOf), steps[1..]);
    }
  }

  /**
   A push whose sixteen chunks are shorter than 1024 bytes, and than the image, never sends the end frame and never has
   a byte acknowledged, in any run that does not close the session under the slave's books: not even when the radio
   delivers everything at once. The push command accepts such chunks: 32 to 63 bytes.
  */
  lemma {:induction false} SmallChunksNeverEnd(file: seq<byte>, x: Transfer, crcOf: seq<byte> -> uint32, a0: System,
                                               steps: seq<SystemStep>, a: System)
    requires Reachable(file, x, crcOf, a0, steps, a) && KeepsSession(file, x, crcOf, a0, steps)
    requires x.reqId != 0 && TooSmall(x)
    ensures !EndSent(a.m) && a.s.images == []
    ensures a.m.push.active ==> a.m.push.w.remoteAcked == 0 && a.m.push.phase != WaitEnd
  {
    InitialOk(file, x, crcOf, a0);
    ReachableOk(file, x, crcOf, a0, steps, a);
    StuckRun(file, x, crcOf, a0, steps);
  }

  // ---------------------------------------------------------------- a lost acknowledgement

  /** The slave holds the image up to `limit`, has acknowledged all of it, and is asked for nothing else. */
  ghost predicate Acknowledged(x: Transfer, s: Slave, limit: nat) {
    && s.track.corr == x.reqId && ForTransfer(x, s.rx)
    && s.rx.receivedSize == s.track.lastReceived == s.track.lastAcked == limit
  }

  lemma {:induction false} ReceivedAgain(file: seq<byte>, x: Transfer, s: Slave, f: Frame)
    requires TransferOk(x) && |file| == x.totalSize && CoreOk(file, x, s) && ImageChunk(file, x, f)
    requires ForTransfer(x, s.rx) && f.offset < s.rx.receivedSize
    ensures WriteChunk(s.rx, s.pool, f.corr, f.offset, f.data).0 == s.rx
        && WriteChunk(s.rx, s.pool, f.corr, f.offset, f.data).2
  {
    hide WriteChunk, PoolMatches, CountOk, ImageChunk;
    ChunkParts(file, x, f);
    WriteAccepted(file, x, s.rx, s.pool, f);
    assert MarkedAt(x.chunkBytes, s.rx.marks, f.offset);
    ContiguousReachesPrefixEnd(x, s.rx, s.rx.receivedSize);
  }

  /**
   The slave never repeats an acknowledgement: a chunk it already has, of a prefix it has acknowledged, changes at most
   the pool, and is answered by nothing.
  */
  lemma AckNeverRepeated(file: seq<byte>, x: Transfer, s: Slave, f: Frame, now: uint32, limit: nat)
    requires TransferOk(x) && |file| == x.totalSize && CoreOk(file, x, s) && ImageChunk(file, x, f)
    requires Acknowledged(x, s, limit) && f.offset < limit
    ensures var s' := HandleChunk(s, f.corr, f.offset, f.data, now); s' == s.(pool := s'.pool)
  {
    hide WriteChunk, RxOk, CountOk, ImageChunk, NextThreshold;
    ChunkParts(file, x, f);
    ReceivedAgain(file, x, s, f);
  }

  predicate NamesAtMost(x: Transfer, r: Report, acked: nat) {
    r.StatusReport? && r.corr == x.reqId ==> r.offset <= acked
  }

  /** The radio loses everything the slave has said beyond `acked`, and delivers no begin frame again. */
  predicate Muffled(x: Transfer, a: System, st: SystemStep, acked: nat) {
    && !Delivers(a, st, BeginFrame(x))
    && (st.DeliverReport? && st.n < |a.s.reports| ==> NamesAtMost(x, a.s.reports[st.n], acked))
  }

  ghost predicate AllMuffled(file: seq<byte>, x: Transfer, crcOf: seq<byte> -> uint32, a: System,
                             steps: seq<SystemStep>, acked: nat)
    requires Legal(file, x, crcOf, a, steps)
    decreases |steps|
  {
    steps != [] ==>
      && Muffled(x, a, steps[0], acked) && !DropsSession(x, a, steps[0])
      && AllMuffled(file, x, crcOf, Apply(a, steps[0], x, crcOf), steps[1..], acked)
  }

  /** The sender waits, at `acked`, for news of what the slave has already acknowledged up to `limit`. */
  ghost predicate WaitsForLost(x: Transfer, a: System, acked: nat, limit: nat) {
    && SentBelow(a.m.sent, limit) && (a.m.push.active ==> Behind(a.m.push.w, acked, limit))
    && Acknowledged(x, a.s, limit)
  }

  lemma WaitingStep(file: seq<byte>, x: Transfer, crcOf: seq<byte> -> uint32, a: System, st: SystemStep, acked: nat,
                    limit: nat)
    requires TransferOk(x) && |file| == x.totalSize && SystemOk(file, x, a) && Enabled(file, a, st)
    requires acked < x.totalSize && Min(acked + 16 * x.chunkBytes, x.totalSize) <= limit
    requires WaitsForLost(x, a, acked, limit) && Muffled(x, a, st, acked) && !DropsSession(x, a, st)
    ensures var b := Apply(a, st, x, crcOf); WaitsForLost(x, b, acked, limit) && b.s.reports == a.s.reports
  {
    match st {
      case MasterInput(i) =>
        MasterStaysBehind(file, x, a.m, a.s.images != [], i, acked, limit);
      case DeliverReport(n, now, env) =>
        if n < |a.s.reports| {
          ReportInput(file, x, a, n, now, env);
          MasterStaysBehind(file, x, a.m, a.s.images != [], AsInput(a.s.reports[n], x.peer, now, env), acked, limit);
        }
      case DeliverFrame(n, now, opening, flushOk) =>
        if n < |a.m.sent| {
          FrameOfSystem(file, x, a, n);
          if a.m.sent[n].Chunk? {
            AckNeverRepeated(file, x, a.s, a.m.sent[n], now, limit);
          }
        }
      case SlaveExpires =>
    }
    hide Step, HandleChunk, MasterOk, SlaveOk, ImageChunk;
  }

  lemma {:induction false} WaitingRun(file: seq<byte>, x: Transfer, crcOf: seq<byte> -> uint32, a: System,
                                      steps: seq<SystemStep>, acked: nat, limit: nat)
    requires TransferOk(x) && |file| == x.totalSize && SystemOk(file, x, a) && Legal(file, x, crcOf, a, steps)
    requires acked < x.totalSize && Min(acked + 16 * x.chunkBytes, x.totalSize) <= limit
    requires WaitsForLost(x, a, acked, limit) && AllMuffled(file, x, crcOf, a, steps, acked)
    ensures var b := Run(file, x, crcOf, a, steps); WaitsForLost(x, b, acked, limit) && b.s.reports == a.s.reports
    decreases |steps|
  {
    hide SystemOk, WaitsForLost, Muffled, DropsSession, Apply;
    if steps != [] {
      StepKeepsSystem(file, x, crcOf, a, steps[0]);
      WaitingStep(file, x, crcOf, a, steps[0], acked, limit);
      WaitingRun(file, x, crcOf, Apply(a, steps[0], x, crcOf), steps[1..], acked, limit);
    }
  }

  /**
   One acknowledgement lost for good stops the push for good: once the slave has acknowledged everything it was sent,
   and that acknowledgement never arrives, it says nothing more, however often the window is sent again, and the sender
   neither advances nor sends the end frame.
  */
  lemma {:induction false} LostAckStopsPush(file: seq<byte>, x: Transfer, crcOf: seq<byte> -> uint32, a0: System,
                                            before: seq<SystemStep>, a: System, steps: seq<SystemStep>, limit: nat)
    requires Reachable(file, x, crcOf, a0, before, a) && Legal(file, x, crcOf, a, steps)
    requires a.m.push.active && a.m.push.w.remoteAcked < x.totalSize
    requires Min(a.m.push.w.remoteAcked + 16 * x.chunkBytes, x.totalSize) <= limit
    requires WaitsForLost(x, a, a.m.push.w.remoteAcked, limit)
    requires AllMuffled(file, x, crcOf, a, steps, a.m.push.w.remoteAcked)
    ensures var b := Run(file, x, crcOf, a, steps);
            && b.s.reports == a.s.reports && !EndSent(b.m)
            && (b.m.push.active ==> b.m.push.w.remoteAcked == a.m.push.w.remoteAcked)
  {
    hide SystemOk;
    ReachableOk(file, x, crcOf, a0, before, a);
    WaitingRun(file, x, crcOf, a, steps, a.m.push.w.remoteAcked, limit);
  }
}
