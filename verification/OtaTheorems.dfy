/**
 The main results about a firmware push, over every run from a fresh start.
*/
module OtaTheorems {
  import opened FixedWidth
  import opened Options
  import opened OtaSender
  import opened OtaSenderSafety
  import opened OtaReceiver
  import opened OtaReceiverSafety
  import opened OtaSystem

  ghost predicate Reachable(file: seq<byte>, x: Transfer, crcOf: seq<byte> -> uint32, a0: System,
                            steps: seq<SystemStep>, a: System) {
    Initial(file, x, crcOf, a0) && Legal(file, x, crcOf, a0, steps) && a == Run(file, x, crcOf, a0, steps)
  }

  /** No step of the run throws received bytes away. */
  ghost predicate Undisturbed(file: seq<byte>, x: Transfer, crcOf: seq<byte> -> uint32, a: System,
                              steps: seq<SystemStep>)
    requires Legal(file, x, crcOf, a, steps)
    decreases |steps|
  {
    steps != [] ==>
      !ThrowsAway(x, a, steps[0]) && Undisturbed(file, x, crcOf, Apply(a, steps[0], x, crcOf), steps[1..])
  }

  /** The slave has every byte of the image, as a stored file or in its memory pool. */
  ghost predicate HoldsImage(file: seq<byte>, x: Transfer, s: Slave) {
    || s.stored == Some(file)
    || (s.stored == None && s.rx.active && s.rx.corr == x.reqId && s.rx.receivedSize == x.totalSize <= |s.pool|
        && s.pool[..x.totalSize] == file)
  }

  lemma ReachableOk(file: seq<byte>, x: Transfer, crcOf: seq<byte> -> uint32, a0: System, steps: seq<SystemStep>,
                    a: System)
    requires Reachable(file, x, crcOf, a0, steps, a)
    ensures TransferOk(x) && |file| == x.totalSize && crcOf(file) == x.imageCrc && SystemOk(file, x, a)
  {
    InitialOk(file, x, crcOf, a0);
    RunKeepsSystem(file, x, crcOf, a0, steps);
  }

  /** A failure report of the transfer stands beside a stored image. */
  ghost predicate FailuresFalse(x: Transfer, s: Slave) {
    forall i :: 0 <= i < |s.reports| && ReportsFailure(x, s.reports[i]) ==> s.images != [] && s.stored.Some?
  }

  ghost predicate ReportsFailure(x: Transfer, r: Report) {
    r.StatusReport? && r.kind.FinalizeFail? && r.corr == x.reqId
  }

  lemma {:induction false} UndisturbedRun(file: seq<byte>, x: Transfer, crcOf: seq<byte> -> uint32, a: System,
                                          steps: seq<SystemStep>)
    requires TransferOk(x) && |file| == x.totalSize && crcOf(file) == x.imageCrc
    requires SystemOk(file, x, a) && InStep(x, a) && FailuresFalse(x, a.s)
    requires Legal(file, x, crcOf, a, steps) && Undisturbed(file, x, crcOf, a, steps)
    ensures InStep(x, Run(file, x, crcOf, a, steps)) && FailuresFalse(x, Run(file, x, crcOf, a, steps).s)
    decreases |steps|
  {
    hide SystemOk, InStep, FailuresFalse, Apply, ThrowsAway, Prefix;
    if steps != [] {
      StepKeepsSystem(file, x, crcOf, a, steps[0]);
      LossExactly(file, x, crcOf, a, steps[0]);
      FailuresStayFalse(file, x, crcOf, a, steps[0]);
      UndisturbedRun(file, x, crcOf, Apply(a, steps[0], x, crcOf), steps[1..]);
    }
  }

  lemma FailuresStayFalse(file: seq<byte>, x: Transfer, crcOf: seq<byte> -> uint32, a: System, st: SystemStep)
    requires TransferOk(x) && |file| == x.totalSize && crcOf(file) == x.imageCrc
    requires SystemOk(file, x, a) && InStep(x, a) && FailuresFalse(x, a.s) && Enabled(file, a, st)
        && !ThrowsAway(x, a, st)
    ensures FailuresFalse(x, Apply(a, st, x, crcOf).s)
  {
    hide FailuresFalse, HandleBegin, HandleChunk, HandleEnd, CoreOk, Held, SessionOk, Step, ImageChunk, ForTransfer;
    if st.DeliverFrame? && st.n < |a.m.sent| {
      var f := a.m.sent[st.n];
      assert FrameOk(file, x, f);
      match f {
        case Begin(_, _, _, _) => BeginKeepsFalse(x, a.s, st.opening);
        case Chunk(corr, offset, data) => ChunkKeepsFalse(x, a.s, corr, offset, data, st.now);
        case End(_, _, _) => EndKeepsFalse(file, x, a.s, crcOf, st.flushOk);
        case _ =>
      }
    }
    if st.SlaveExpires? {
      ExpiryKeepsFalse(x, a.s);
    }
  }

  lemma ExpiryKeepsFalse(x: Transfer, s: Slave)
    requires FailuresFalse(x, s)
    ensures FailuresFalse(x, Expire(s))
  {
  }

  lemma BeginKeepsFalse(x: Transfer, s: Slave, opening: Opening)
    requires FailuresFalse(x, s)
    ensures FailuresFalse(x, HandleBegin(s, x.reqId, x.totalSize, x.chunkBytes, x.imageCrc, opening))
  {
    var s' := HandleBegin(s, x.reqId, x.totalSize, x.chunkBytes, x.imageCrc, opening);
    assert forall i :: 0 <= i < |s.reports| ==> s'.reports[i] == s.reports[i];
  }

  lemma ChunkKeepsFalse(x: Transfer, s: Slave, corr: uint32, offset: uint32, data: seq<byte>, now: uint32)
    requires FailuresFalse(x, s)
    ensures FailuresFalse(x, HandleChunk(s, corr, offset, data, now))
  {
    hide WriteChunk, AckChunk, NackChunk;
    var (rx, pool, ok) := WriteChunk(s.rx, s.pool, corr, offset, data);
    var prefix := Max(s.track.lastReceived, ContiguousReceiveSize(rx));
    AnswersTellPrefix(x, s.(rx := rx, pool := pool), corr, prefix, now);
    var s' := HandleChunk(s, corr, offset, data, now);
    forall i | 0 <= i < |s'.reports| && ReportsFailure(x, s'.reports[i]) ensures s'.images != [] && s'.stored.Some? {
      assert i < |s.reports| && s'.reports[i] == s.reports[i];
    }
  }

  /** With the image in hand, only a stored image can make the slave refuse an end frame while the flash works. */
  lemma EndKeepsFalse(file: seq<byte>, x: Transfer, s: Slave, crcOf: seq<byte> -> uint32, flushOk: bool)
    requires TransferOk(x) && |file| == x.totalSize && crcOf(file) == x.imageCrc && CoreOk(file, x, s)
    requires FailuresFalse(x, s) && Prefix(x, s) == x.totalSize
    requires flushOk || !ForTransfer(x, s.rx) || s.rx.receivedSize != x.totalSize
    ensures FailuresFalse(x, HandleEnd(s, x.reqId, x.totalSize, x.imageCrc, crcOf, flushOk))
  {
    hide JudgeEnd, RxOk, CountOk;
    EndVerdict(file, x, s, crcOf, flushOk);
    var s' := HandleEnd(s, x.reqId, x.totalSize, x.imageCrc, crcOf, flushOk);
    forall i | 0 <= i < |s'.reports| && ReportsFailure(x, s'.reports[i]) ensures s'.images != [] && s'.stored.Some? {
      assert i < |s.reports| ==> s'.reports[i] == s.reports[i];
    }
  }

  /** How the slave answers the end frame of the transfer, whatever state it is in. */
  lemma {:induction false} EndVerdict(file: seq<byte>, x: Transfer, s: Slave, crcOf: seq<byte> -> uint32, flushOk: bool)
    requires TransferOk(x) && |file| == x.totalSize && crcOf(file) == x.imageCrc && CoreOk(file, x, s)
    ensures var v := JudgeEnd(s.rx, s.pool, x.reqId, x.totalSize, x.imageCrc, crcOf, flushOk);
            && (v.Accept? <==> ForTransfer(x, s.rx) && s.rx.receivedSize == x.totalSize && flushOk)
            && (v.FlushFailed? <==> ForTransfer(x, s.rx) && s.rx.receivedSize == x.totalSize && !flushOk)
            && !v.RejectDrop?
            && (v.Accept? ==> s.pool[..s.rx.expectedSize] == file)
  {
    if ForTransfer(x, s.rx) && s.rx.receivedSize == x.totalSize {
      WholePoolIsFile(file, x, s);
      AllMarkedIsEverything(x, s.rx.marks, 0);
    }
    hide PoolMatches, IsPrefixEnd, MarkedBytes;
  }

  lemma {:induction false} UndisturbedOk(file: seq<byte>, x: Transfer, crcOf: seq<byte> -> uint32, a0: System,
                                         steps: seq<SystemStep>, a: System)
    requires Reachable(file, x, crcOf, a0, steps, a) && Undisturbed(file, x, crcOf, a0, steps)
    ensures TransferOk(x) && |file| == x.totalSize && crcOf(file) == x.imageCrc
    ensures SystemOk(file, x, a) && InStep(x, a) && FailuresFalse(x, a.s)
  {
    hide InStep, SystemOk, FailuresFalse;
    ReachableOk(file, x, crcOf, a0, steps, a);
    InitialOk(file, x, crcOf, a0);
    NothingReported(x, a0.s);
    UndisturbedRun(file, x, crcOf, a0, steps);
  }

  lemma NothingReported(x: Transfer, s: Slave)
    requires s.reports == []
    ensures FailuresFalse(x, s)
  {
  }

  lemma HoldsWhenPrefixIsAll(file: seq<byte>, x: Transfer, s: Slave)
    requires TransferOk(x) && |file| == x.totalSize && CoreOk(file, x, s)
    ensures HoldsImage(file, x, s) <==> Prefix(x, s) == x.totalSize
    ensures Prefix(x, s) <= x.totalSize
  {
    if s.stored == None && ForTransfer(x, s.rx) && s.rx.receivedSize == x.totalSize {
      WholePoolIsFile(file, x, s);
    }
  }

  // ---------------------------------------------------------------- the end frame and the image

  /** When the end frame is out, the slave already holds the whole image, byte for byte. */
  lemma {:induction false} EndSentOnlyWhenHeld(file: seq<byte>, x: Transfer, crcOf: seq<byte> -> uint32, a0: System,
                                               steps: seq<SystemStep>, a: System)
    requires Reachable(file, x, crcOf, a0, steps, a) && Undisturbed(file, x, crcOf, a0, steps) && EndSent(a.m)
    ensures HoldsImage(file, x, a.s)
  {
    UndisturbedOk(file, x, crcOf, a0, steps, a);
    HoldsWhenPrefixIsAll(file, x, a.s);
  }

  /** The sender never believes in more bytes than the slave holds. */
  lemma {:induction false} AckedNeverAhead(file: seq<byte>, x: Transfer, crcOf: seq<byte> -> uint32, a0: System,
                                           steps: seq<SystemStep>, a: System)
    requires Reachable(file, x, crcOf, a0, steps, a) && Undisturbed(file, x, crcOf, a0, steps) && a.m.push.active
    ensures a.m.push.w.remoteAcked <= Prefix(x, a.s)
  {
    UndisturbedOk(file, x, crcOf, a0, steps, a);
  }

  /** In every state of every run, the bytes the slave holds shrink at exactly the steps that throw some away. */
  lemma BytesShrinkExactly(file: seq<byte>, x: Transfer, crcOf: seq<byte> -> uint32, a0: System, steps: seq<SystemStep>,
                           a: System, st: SystemStep)
    requires Reachable(file, x, crcOf, a0, steps, a) && Enabled(file, a, st)
    ensures Prefix(x, Apply(a, st, x, crcOf).s) < Prefix(x, a.s) <==> ThrowsAway(x, a, st)
  {
    ReachableOk(file, x, crcOf, a0, steps, a);
    LossExactly(file, x, crcOf, a, st);
  }

  /** A slave that holds the image holds it after the next step if and only if the step throws nothing away. */
  lemma ImageStaysExactly(file: seq<byte>, x: Transfer, crcOf: seq<byte> -> uint32, a0: System, steps: seq<SystemStep>,
                          a: System, st: SystemStep)
    requires Reachable(file, x, crcOf, a0, steps, a) && Enabled(file, a, st) && HoldsImage(file, x, a.s)
    ensures HoldsImage(file, x, Apply(a, st, x, crcOf).s) <==> !ThrowsAway(x, a, st)
  {
    hide SystemOk, ThrowsAway, HoldsImage, Apply;
    ReachableOk(file, x, crcOf, a0, steps, a);
    StepKeepsSystem(file, x, crcOf, a, st);
    LossExactly(file, x, crcOf, a, st);
    CoreOfSystem(file, x, a);
    CoreOfSystem(file, x, Apply(a, st, x, crcOf));
    HoldsWhenPrefixIsAll(file, x, a.s);
    HoldsWhenPrefixIsAll(file, x, Apply(a, st, x, crcOf).s);
  }

  lemma CoreOfSystem(file: seq<byte>, x: Transfer, a: System)
    requires TransferOk(x) && |file| == x.totalSize && SystemOk(file, x, a)
    ensures CoreOk(file, x, a.s)
  {
  }

  /** The sender has everything acknowledged and sends the end frame next. */
  predicate AboutToEnd(m: Master) {
    && m.push.active && m.push.phase == Streaming && m.push.beginAcked && !m.push.w.waiting
    && m.push.w.next >= m.push.x.totalSize
  }

  /**
   Between the last acknowledgement and the end frame, one slave step decides: with the image in hand before it, the
   end frame goes out to a slave that holds the image if and only if the step throws nothing away.
  */
  lemma EndFindsImageExactly(file: seq<byte>, x: Transfer, crcOf: seq<byte> -> uint32, a0: System,
                             steps: seq<SystemStep>, a: System, st: SystemStep, now: uint32, env: PumpEnv)
    requires Reachable(file, x, crcOf, a0, steps, a) && AboutToEnd(a.m) && HoldsImage(file, x, a.s)
    requires st.SlaveExpires? || st.DeliverFrame?
    requires env.bound && env.paired && env.endSent && |env.io| == CHUNK_BUDGET_PER_TICK
    ensures var b := Apply(Apply(a, st, x, crcOf), MasterInput(Tick(now, env)), x, crcOf);
            EndSent(b.m) && (HoldsImage(file, x, b.s) <==> !ThrowsAway(x, a, st))
  {
    hide ThrowsAway, HoldsImage, HandleFrame, Expire, EndSent;
    ImageStaysExactly(file, x, crcOf, a0, steps, a, st);
    var c := Apply(a, st, x, crcOf);
    assert c.m == a.m;
    EndGoesOut(c.m, now, env);
  }

  lemma EndGoesOut(m: Master, now: uint32, env: PumpEnv)
    requires AboutToEnd(m) && env.bound && env.paired && env.endSent && |env.io| == CHUNK_BUDGET_PER_TICK
    ensures EndSent(PumpPush(m, now, env))
  {
    var m' := PumpPush(m, now, env);
    assert m'.sent == m.sent + [End(m.push.x.reqId, m.push.x.totalSize, m.push.x.imageCrc)];
    assert m'.sent[|m.sent|].End?;
  }

  /** No step of any run, disturbed or not, moves the acknowledged offset back. */
  lemma AckedNeverFalls(file: seq<byte>, x: Transfer, crcOf: seq<byte> -> uint32, a0: System, steps: seq<SystemStep>,
                        a: System, st: SystemStep)
    requires Reachable(file, x, crcOf, a0, steps, a) && Enabled(file, a, st)
    requires a.m.push.active && Apply(a, st, x, crcOf).m.push.active
    ensures a.m.push.w.remoteAcked <= Apply(a, st, x, crcOf).m.push.w.remoteAcked
  {
    ReachableOk(file, x, crcOf, a0, steps, a);
    match st {
      case MasterInput(i) => StepIsSafe(file, a.m, i);
      case DeliverReport(n, now, env) =>
        if n < |a.s.reports| {
          assert ReportOk(x, a.s.images != [], a.s.reports[n]);
          StepIsSafe(file, a.m, AsInput(a.s.reports[n], x.peer, now, env));
        }
      case _ =>
    }
    hide Step, SystemOk, SessionOk, Multiple, HandleFrame, Expire;
  }

  // ---------------------------------------------------------------- what is stored and what is reported

  /** Whatever the radio and the slave's storage do, no image other than the source is ever promoted. */
  lemma OnlySourceIsStored(file: seq<byte>, x: Transfer, crcOf: seq<byte> -> uint32, a0: System, steps: seq<SystemStep>,
                           a: System)
    requires Reachable(file, x, crcOf, a0, steps, a)
    ensures a.s.stored.Some? ==> a.s.stored.value == file
    ensures forall i :: 0 <= i < |a.s.images| ==> a.s.images[i] == file
  {
    ReachableOk(file, x, crcOf, a0, steps, a);
  }

  /** A success event, of the push or of the update that owns it, means the slave promoted the source image. */
  lemma SuccessMeansStored(file: seq<byte>, x: Transfer, crcOf: seq<byte> -> uint32, a0: System, steps: seq<SystemStep>,
                           a: System, e: Event)
    requires Reachable(file, x, crcOf, a0, steps, a) && e in a.m.events && Success(e)
    ensures |a.s.images| > 0 && a.s.images[0] == file
  {
    ReachableOk(file, x, crcOf, a0, steps, a);
  }

  /**
   In every reachable state, whatever has been thrown away: the end frame is answered with success, and the source
   stored, if and only if the session is open and complete and the flash takes the image. Otherwise it is answered
   with a failure, and nothing is promoted.
  */
  lemma EndAnsweredExactly(file: seq<byte>, x: Transfer, crcOf: seq<byte> -> uint32, a0: System, steps: seq<SystemStep>,
                           a: System, flushOk: bool)
    requires Reachable(file, x, crcOf, a0, steps, a)
    ensures var s' := HandleEnd(a.s, x.reqId, x.totalSize, x.imageCrc, crcOf, flushOk);
            var completes := a.s.rx.active && a.s.rx.corr == x.reqId && a.s.rx.receivedSize == x.totalSize && flushOk;
            && |s'.reports| > |a.s.reports| && s'.reports[|a.s.reports|].StatusReport?
            && s'.reports[|a.s.reports|].corr == x.reqId
            && (s'.reports[|a.s.reports|].kind == FinalizeOk <==> completes)
            && (s'.reports[|a.s.reports|].kind == FinalizeFail <==> !completes)
            && s'.images == (if completes then a.s.images + [file] else a.s.images)
            && (completes ==> s'.stored == Some(file))
            && (completes ==>
                  s'.reports
                    == a.s.reports + [StatusReport(x.reqId, FinalizeOk, x.totalSize, CODE_OK), ReadyReport(x.reqId)])
  {
    hide JudgeEnd, RxOk, CountOk, MasterOk;
    ReachableOk(file, x, crcOf, a0, steps, a);
    EndVerdict(file, x, a.s, crcOf, flushOk);
  }

  /**
   Without thrown-away bytes and flash failures, the first end frame to arrive stores the image and reports
   success.
  */
  lemma {:induction false} EndCompletes(file: seq<byte>, x: Transfer, crcOf: seq<byte> -> uint32, a0: System,
                                        steps: seq<SystemStep>, a: System)
    requires Reachable(file, x, crcOf, a0, steps, a) && Undisturbed(file, x, crcOf, a0, steps)
    requires EndSent(a.m) && a.s.stored == None
    ensures var s' := HandleEnd(a.s, x.reqId, x.totalSize, x.imageCrc, crcOf, true);
            s'.stored == Some(file) && s'.reports == a.s.reports
              + [StatusReport(x.reqId, FinalizeOk, x.totalSize, CODE_OK), ReadyReport(x.reqId)]
  {
    hide HandleEnd, SystemOk, Undisturbed;
    UndisturbedOk(file, x, crcOf, a0, steps, a);
    EndAnsweredExactly(file, x, crcOf, a0, steps, a, true);
  }

  // ---------------------------------------------------------------- how a push ends

  predicate FinalReport(x: Transfer, r: Report) {
    r.corr == x.reqId && (r.ReadyReport? || r.kind.FinalizeOk? || r.kind.FinalizeFail?)
  }

  /**
   A delivered report ends the push if and only if it is a final report of the transfer and comes in the final phase;
   the push then ends in failure if and only if the report is a failure.
  */
  lemma ReportEndsPushExactly(file: seq<byte>, x: Transfer, crcOf: seq<byte> -> uint32, a0: System,
                              steps: seq<SystemStep>, a: System, n: nat, now: uint32, env: PumpEnv)
    requires Reachable(file, x, crcOf, a0, steps, a) && a.m.push.active && n < |a.s.reports|
    ensures var m' := Apply(a, DeliverReport(n, now, env), x, crcOf).m;
            var r := a.s.reports[n];
            && (!m'.push.active <==> a.m.push.phase == WaitEnd && FinalReport(x, r))
            && (!m'.push.active && x.emitEvent ==>
                  m'.events != [] && m'.events[|m'.events| - 1].PushEnded?
                  && (m'.events[|m'.events| - 1].success <==> !ReportsFailure(x, r)))
  {
    ReachableOk(file, x, crcOf, a0, steps, a);
    assert a.m.push.x == x;
    hide SystemOk, HandOverToUpdate, OnAck, OnNack;
  }

  /**
   In a run that throws nothing away every failure report is a false alarm: when one arrives, the source image is
   already stored. So such a push ends in failure, by a report, only with its image on the slave.
  */
  lemma {:induction false} FailureIsFalseAlarm(file: seq<byte>, x: Transfer, crcOf: seq<byte> -> uint32, a0: System,
                                               steps: seq<SystemStep>, a: System, r: Report)
    requires Reachable(file, x, crcOf, a0, steps, a) && Undisturbed(file, x, crcOf, a0, steps)
    requires r in a.s.reports && ReportsFailure(x, r)
    ensures a.s.stored == Some(file)
  {
    hide InStep, Undisturbed, MasterOk, RxOk, CountOk;
    UndisturbedOk(file, x, crcOf, a0, steps, a);
  }

  /**
   In every reachable state with a promoted image and its session closed, one more delivery of the end frame, and of
   the answer to it, ends the waiting push in failure.
  */
  lemma RepeatedEndFailsPush(file: seq<byte>, x: Transfer, crcOf: seq<byte> -> uint32, a0: System,
                             steps: seq<SystemStep>, a: System, n: nat, now: uint32, opening: Opening, flushOk: bool,
                             env: PumpEnv)
    requires Reachable(file, x, crcOf, a0, steps, a) && a.s.images != [] && !ForTransfer(x, a.s.rx)
    requires a.m.push.active && a.m.push.phase == WaitEnd && n < |a.m.sent| && a.m.sent[n] == EndFrame(x)
    ensures var b := Apply(a, DeliverFrame(n, now, opening, flushOk), x, crcOf);
            var c := Apply(b, DeliverReport(|a.s.reports|, now, env), x, crcOf);
            && c.s.images == a.s.images && c.s.stored == a.s.stored && !c.m.push.active
            && (x.emitEvent ==> c.m.events != [] && c.m.events[|c.m.events| - 1].PushEnded?
                                && !c.m.events[|c.m.events| - 1].success)
  {
    ReachableOk(file, x, crcOf, a0, steps, a);
    EndAnsweredExactly(file, x, crcOf, a0, steps, a, flushOk);
    assert a.m.push.x == x;
    hide SystemOk, HandOverToUpdate, OnAck, OnNack, HandleEnd, Initial, Legal;
  }
}
