/**
 When a push can come to an end at all: exactly when its first window is as long as the slave's acknowledgement step, or
 takes in the whole image. For every such transfer there is a run that sends the end frame.
*/
module OtaProgress {
  import opened FixedWidth
  import opened Options
  import opened OtaSender
  import opened OtaSenderSafety
  import opened OtaReceiver
  import opened OtaReceiverSafety
  import opened OtaSystem
  import opened OtaTheorems
  import opened OtaRefusals
  import opened OtaStalls

  /** Some run from here sends the end frame, and keeps the slave's session open. */
  ghost predicate CanEnd(file: seq<byte>, x: Transfer, crcOf: seq<byte> -> uint32, a: System) {
    exists steps :: Legal(file, x, crcOf, a, steps) && KeepsSession(file, x, crcOf, a, steps)
                    && EndSent(Run(file, x, crcOf, a, steps).m)
  }

  lemma StepTowardsEnd(file: seq<byte>, x: Transfer, crcOf: seq<byte> -> uint32, a: System, st: SystemStep)
    requires Enabled(file, a, st) && !DropsSession(x, a, st) && CanEnd(file, x, crcOf, Apply(a, st, x, crcOf))
    ensures CanEnd(file, x, crcOf, a)
  {
    hide Apply, ReadsInFull, EndSent, DropsSession;
    var b := Apply(a, st, x, crcOf);
    var steps :| Legal(file, x, crcOf, b, steps) && KeepsSession(file, x, crcOf, b, steps)
                 && EndSent(Run(file, x, crcOf, b, steps).m);
    var all := [st] + steps;
    assert all[0] == st && all[1..] == steps;
    assert Legal(file, x, crcOf, a, all);
    assert KeepsSession(file, x, crcOf, a, all);
    assert Run(file, x, crcOf, a, all) == Run(file, x, crcOf, b, steps);
  }

  // ---------------------------------------------------------------- chunk by chunk

  /** Exactly the bytes before `o` have been received. */
  ghost predicate ExactlyBefore(x: Transfer, marks: seq<bool>, o: nat)
    requires TransferOk(x)
  {
    forall b :: 0 <= b < x.totalSize ==> (MarkedAt(x.chunkBytes, marks, b) <==> b < o)
  }

  ghost function AckStep(x: Transfer): (n: nat)
    ensures n < 0x10_0000
  {
    Max(1024, 16 * x.chunkBytes)
  }

  /** The slave has the image up to `o`, and has acknowledged it up to `acked`. */
  ghost predicate SlaveAt(x: Transfer, s: Slave, acked: nat, o: nat)
    requires TransferOk(x)
  {
    && ForTransfer(x, s.rx) && Shape(x, s.rx) && |s.pool| >= x.totalSize
    && acked <= o <= x.totalSize && Aligned(x, o) && s.rx.receivedSize == o && ExactlyBefore(x, s.rx.marks, o)
    && s.track == Track(x.reqId, x.totalSize, o, acked, AckStep(x), acked + AckStep(x), s.track.lastNack,
                        s.track.lastNackMs)
  }

  ghost function WindowEnd(x: Transfer, acked: nat): nat {
    Min(acked + 16 * x.chunkBytes, x.totalSize)
  }

  /** The sender has `acked` acknowledged and has sent the image up to `o`, short of its window's end. */
  ghost predicate SenderAt(x: Transfer, p: PushSession, acked: nat, o: nat)
    requires TransferOk(x)
  {
    && p.active && p.x == x && p.phase == Streaming && p.beginAcked && p.sendFailStreak <= 1
    && acked <= o < WindowEnd(x, acked) && Aligned(x, o) && Multiple(x.chunkBytes, acked)
    && p.w == Window(o, if o == acked then 0 else WindowEnd(x, acked), false, p.w.retryCount, FULL_WINDOW_CHUNKS, acked,
                     0)
  }

  ghost predicate BothAt(x: Transfer, a: System, acked: nat, o: nat)
    requires TransferOk(x)
  {
    SenderAt(x, a.m.push, acked, o) && SlaveAt(x, a.s, acked, o)
  }

  lemma {:induction false} MarksNextChunk(x: Transfer, marks: seq<bool>, o: nat)
    requires TransferOk(x) && o < x.totalSize && Multiple(x.chunkBytes, o) && Index(x.chunkBytes, o) < |marks|
    requires ExactlyBefore(x, marks, o)
    ensures ExactlyBefore(x, marks[Index(x.chunkBytes, o) := true], o + ChunkLen(x, o))
  {
    hide Index, Multiple;
    var c := x.chunkBytes;
    var next, marked := o + ChunkLen(x, o), marks[Index(c, o) := true];
    forall b | 0 <= b < x.totalSize ensures MarkedAt(c, marked, b) <==> b < next {
      IndexRange(c, o, b);
      assert MarkedAt(c, marks, b) <==> b < o;
    }
  }

  lemma {:induction false} ReachesNextChunk(x: Transfer, rx: RxSession, o: nat)
    requires TransferOk(x) && Shape(x, rx) && o < x.totalSize && Multiple(x.chunkBytes, o)
        && Index(x.chunkBytes, o) < |rx.marks|
    requires ExactlyBefore(x, rx.marks, o)
    ensures var marked := rx.(marks := rx.marks[Index(x.chunkBytes, o) := true]);
            Contiguous(marked, o) == o + ChunkLen(x, o)
  {
    hide Index, Multiple, Contiguous, MarkedAt;
    var marked := rx.(marks := rx.marks[Index(x.chunkBytes, o) := true]);
    var next := o + ChunkLen(x, o);
    MarksNextChunk(x, rx.marks, o);
    assert PrefixMarked(x, marked.marks, o);
    ContiguousReachesPrefixEnd(x, marked, o);
    var r := Contiguous(marked, o);
    assert r < x.totalSize ==> (MarkedAt(x.chunkBytes, marked.marks, r) <==> r < next);
    assert next < x.totalSize ==> !MarkedAt(x.chunkBytes, marked.marks, next);
  }

  // ---------------------------------------------------------------- one chunk goes out

  /** What the storage returns for the chunk at `o`, if there is one. */
  ghost function ChunkAt(file: seq<byte>, x: Transfer, o: nat, sendOk: bool): ChunkIo
    requires TransferOk(x) && |file| == x.totalSize
  {
    if o < x.totalSize then Read(file[o..o + ChunkLen(x, o)], sendOk) else ReadFails
  }

  /** A tick in which the radio takes one chunk and is busy for the next. */
  ghost function OneChunk(file: seq<byte>, x: Transfer, o: nat): PumpEnv
    requires TransferOk(x) && |file| == x.totalSize && o < x.totalSize
  {
    PumpEnv(true, true, true, true, [ChunkAt(file, x, o, true), ChunkAt(file, x, o + ChunkLen(x, o), false),
                                     ReadFails, ReadFails, ReadFails, ReadFails, ReadFails, ReadFails])
  }

  lemma {:induction false} OneChunkReads(file: seq<byte>, x: Transfer, o: nat)
    requires TransferOk(x) && |file| == x.totalSize && o < x.totalSize
    ensures ReadsInFull(file, x, o, OneChunk(file, x, o).io, 0)
  {
    var io := OneChunk(file, x, o).io;
    var next := o + ChunkLen(x, o);
    assert io[2] == ReadFails;
    assert next < x.totalSize ==> ReadsInFull(file, x, next + ChunkLen(x, next), io, 2);
    assert ReadsInFull(file, x, next, io, 1);
  }

  lemma {:induction false} OneChunkLoop(file: seq<byte>, x: Transfer, p: PushSession, now: uint32)
    requires TransferOk(x) && |file| == x.totalSize && p.x == x && p.w.next < x.totalSize && p.w.next < p.w.pendingEnd
    ensures var next := p.w.next + ChunkLen(x, p.w.next);
            var r := SendLoop(p, now, OneChunk(file, x, p.w.next).io, 0);
            var p1 := AfterChunk(p, ChunkLen(x, p.w.next));
            && r.1 == [Chunk(x.reqId, p.w.next, file[p.w.next..next])]
            && (next < p.w.pendingEnd && next < x.totalSize ==> r.0 == BackOff(p1, now) && r.2 == BackedOff)
            && (next >= p.w.pendingEnd || next == x.totalSize ==> r.0 == p1 && r.2 == Drained)
  {
    var n := ChunkLen(x, p.w.next);
    var io := OneChunk(file, x, p.w.next).io;
    var data := file[p.w.next..p.w.next + n];
    assert io[0] == Read(data, true) && |data| == n && ChunkData(p, data) == data;
    var p1 := AfterChunk(p, n);
    assert p1.w.next == p.w.next + n;
    var r1 := SendLoop(p1, now, io, 1);
    assert r1.1 == [];
    assert [Chunk(x.reqId, p.w.next, data)] + [] == [Chunk(x.reqId, p.w.next, data)];
  }

  /** The tick sends the chunk at `o`, and moves on or, at the window's end, waits. */
  lemma {:induction false} TickSendsChunk(file: seq<byte>, x: Transfer, m: Master, acked: nat, o: nat)
    requires TransferOk(x) && |file| == x.totalSize && SenderAt(x, m.push, acked, o)
    ensures var m' := PumpPush(m, m.push.t.nextSend, OneChunk(file, x, o));
            var next := o + ChunkLen(x, o);
            && next <= WindowEnd(x, acked)
            && m'.sent == m.sent + [Chunk(x.reqId, o, file[o..next])]
            && (next < WindowEnd(x, acked) ==> SenderAt(x, m'.push, acked, next))
            && (next == WindowEnd(x, acked) ==> SenderWaits(x, m'.push, acked))
  {
    hide SendLoop, Multiple, PumpWindow, OpenWindow, ReadsInFull, PumpPush, Elapsed;
    var now, env := m.push.t.nextSend, OneChunk(file, x, o);
    ChunkFitsWindow(x, acked, o);
    PumpIsWindow(x, m, acked, o, env);
    OpensWindow(x, m.push, acked, o);
    var p := OpenWindow(m.push);
    OneChunkLoop(file, x, p, now);
    WindowOutcome(m, now, env);
    var p1 := AfterChunk(p, ChunkLen(x, o));
    assert p1.w.next == o + ChunkLen(x, o);
  }

  lemma {:induction false} WindowOutcome(m: Master, now: uint32, env: PumpEnv)
    requires |env.io| == CHUNK_BUDGET_PER_TICK
    ensures var r := SendLoop(OpenWindow(m.push), now, env.io, 0);
            && (r.2.BackedOff? ==> PumpWindow(m, now, env) == m.(push := r.0, sent := m.sent + r.1))
            && (r.2.Drained? ==> PumpWindow(m, now, env) == m.(push := AfterLoop(r.0, now), sent := m.sent + r.1))
  {
    hide SendLoop, OpenWindow, AfterLoop;
  }

  lemma PumpIsWindow(x: Transfer, m: Master, acked: nat, o: nat, env: PumpEnv)
    requires TransferOk(x) && SenderAt(x, m.push, acked, o) && |env.io| == CHUNK_BUDGET_PER_TICK && env.bound
        && env.paired
    ensures PumpPush(m, m.push.t.nextSend, env) == PumpWindow(m, m.push.t.nextSend, env)
  {
    hide PumpWindow, Multiple;
  }

  lemma OpensWindow(x: Transfer, p: PushSession, acked: nat, o: nat)
    requires TransferOk(x) && SenderAt(x, p, acked, o)
    ensures OpenWindow(p) == p.(w := p.w.(pendingEnd := WindowEnd(x, acked)))
  {
    hide Multiple;
    assert x.chunkBytes * p.w.chunks == 16 * x.chunkBytes;
  }

  /** The whole window is out. */
  ghost predicate SenderWaits(x: Transfer, p: PushSession, acked: nat)
    requires TransferOk(x)
  {
    && p.active && p.x == x && p.phase == Streaming && p.beginAcked && p.sendFailStreak <= 1
    && acked < x.totalSize && Multiple(x.chunkBytes, acked)
    && p.w == Window(WindowEnd(x, acked), WindowEnd(x, acked), true, 0, FULL_WINDOW_CHUNKS, acked, 0)
  }

  lemma ChunkFitsWindow(x: Transfer, acked: nat, o: nat)
    requires TransferOk(x) && acked <= o < WindowEnd(x, acked) && Aligned(x, o) && Multiple(x.chunkBytes, acked)
    ensures Multiple(x.chunkBytes, o) && o + ChunkLen(x, o) <= WindowEnd(x, acked) && Aligned(x, o + ChunkLen(x, o))
    ensures acked + 16 * x.chunkBytes <= x.totalSize ==> Multiple(x.chunkBytes, WindowEnd(x, acked))
  {
    var c := x.chunkBytes;
    MultipleTimes(c, 16);
    MultiplesAdd(c, FirstWindow(x), acked);
    MultipleGap(c, o, acked + FirstWindow(x));
  }

  lemma {:induction false} MultiplesAdd(c: nat, a: nat, b: nat)
    requires c > 0 && Multiple(c, a) && Multiple(c, b)
    ensures Multiple(c, b + a)
    decreases a
  {
    if a >= c {
      MultiplesAdd(c, a - c, b);
      assert b + a - c == b + (a - c);
    }
  }

  // ---------------------------------------------------------------- and arrives

  /** The slave after the chunk at `o`: it acknowledges at the window's end, and only there. */
  lemma {:induction false} SlaveTakesChunk(file: seq<byte>, x: Transfer, s: Slave, acked: nat, o: nat, now: uint32)
    requires TransferOk(x) && |file| == x.totalSize && SlaveAt(x, s, acked, o) && !TooSmall(x)
    requires acked <= o < WindowEnd(x, acked) && Multiple(x.chunkBytes, o) && Multiple(x.chunkBytes, acked)
    requires o + ChunkLen(x, o) <= WindowEnd(x, acked) && Aligned(x, o + ChunkLen(x, o))
    ensures var next := o + ChunkLen(x, o);
            var s' := HandleChunk(s, x.reqId, o, file[o..next], now);
            && (next < WindowEnd(x, acked) ==> SlaveAt(x, s', acked, next) && s'.reports == s.reports)
            && (next == WindowEnd(x, acked) ==>
                s'.reports == s.reports + [StatusReport(x.reqId, ChunkAck, next, CODE_OK)]
                                                && (next < x.totalSize ==> SlaveAt(x, s', next, next)))
  {
    hide WriteChunk, Multiple, Index, MarkedAt, Contiguous, NextThreshold, ExactlyBefore;
    var next := o + ChunkLen(x, o);
    var f := Chunk(x.reqId, o, file[o..next]);
    assert ImageChunk(file, x, f);
    WriteAccepted(file, x, s.rx, s.pool, f);
    ReceivesExactly(x, s.rx, o, f);
    MarksNextChunk(x, s.rx.marks, o);
    var (rx, pool, ok) := WriteChunk(s.rx, s.pool, x.reqId, o, f.data);
    assert HandleChunk(s, x.reqId, o, f.data, now) == AckChunk(s.(rx := rx, pool := pool), x.reqId, next);
    NextStep(acked, AckStep(x), next);
  }

  lemma {:induction false} NextStep(acked: nat, step: nat, reached: nat)
    requires step > 0
    ensures reached == acked + step ==> NextThreshold(acked + step, step, reached) == reached + step
  {
  }

  lemma {:induction false} ReceivesExactly(x: Transfer, rx: RxSession, o: nat, f: Frame)
    requires TransferOk(x) && Shape(x, rx) && o < x.totalSize && Multiple(x.chunkBytes, o)
        && Index(x.chunkBytes, o) < |rx.marks|
    requires ExactlyBefore(x, rx.marks, o) && rx.receivedSize == o && f.Chunk? && f.offset == o
    ensures var rx' := Received(x, rx, f);
            && rx' == rx.(marks := rx.marks[Index(x.chunkBytes, o) := true], receivedSize := o + ChunkLen(x, o),
                          uniqueSize := rx'.uniqueSize)
  {
    hide Index, Multiple, Contiguous, ExactlyBefore;
    ReachesNextChunk(x, rx, o);
    var marked := Mark(rx, Index(x.chunkBytes, o), |f.data|);
    assert marked == rx.(marks := rx.marks[Index(x.chunkBytes, o) := true], uniqueSize := marked.uniqueSize);
    ContiguousIgnoresCount(rx.(marks := rx.marks[Index(x.chunkBytes, o) := true]), marked.uniqueSize, o);
  }

  lemma {:induction false} ContiguousIgnoresCount(rx: RxSession, count: uint32, from: nat)
    requires rx.chunkSize > 0
    ensures Contiguous(rx.(uniqueSize := count), from) == Contiguous(rx, from)
    decreases rx.expectedSize - from
  {
    hide ChunkSizeAt;
    var other := rx.(uniqueSize := count);
    SameSize(rx, count, from / rx.chunkSize);
    if from < rx.expectedSize && from / rx.chunkSize < |rx.marks| && rx.marks[from / rx.chunkSize]
       && ChunkSizeAt(rx, from / rx.chunkSize) > 0 {
      ContiguousIgnoresCount(rx, count, from + ChunkSizeAt(rx, from / rx.chunkSize));
    }
  }

  lemma SameSize(rx: RxSession, count: uint32, k: nat)
    ensures ChunkSizeAt(rx.(uniqueSize := count), k) == ChunkSizeAt(rx, k)
  {
  }

  // ---------------------------------------------------------------- window by window

  /** The acknowledgement of its window lets the sender go on. */
  lemma AckMovesOn(x: Transfer, m: Master, acked: nat, now: uint32, env: PumpEnv)
    requires TransferOk(x) && SenderWaits(x, m.push, acked)
    ensures var next := WindowEnd(x, acked);
            var m' := OnStatus(m, now, x.reqId, ChunkAck, next, CODE_OK, env);
            && m'.sent == m.sent
            && (next < x.totalSize ==> SenderAt(x, m'.push, next, next))
            && (next == x.totalSize ==> AboutToEnd(m'))
  {
    ChunkFitsWindow(x, acked, acked);
    hide Multiple;
  }

  lemma Answered(x: Transfer, a: System, n: nat, offset: uint32, now: uint32, env: PumpEnv, crcOf: seq<byte> -> uint32)
    requires n < |a.s.reports| && a.s.reports[n] == StatusReport(x.reqId, ChunkAck, offset, CODE_OK)
    ensures Apply(a, DeliverReport(n, now, env), x, crcOf)
         == a.(m := OnStatus(a.m, now, x.reqId, ChunkAck, offset, CODE_OK, env))
  {
    hide OnStatus;
  }

  lemma EndsNow(file: seq<byte>, x: Transfer, crcOf: seq<byte> -> uint32, a: System)
    requires TransferOk(x) && |file| == x.totalSize && a.m.push.x == x && AboutToEnd(a.m)
    ensures CanEnd(file, x, crcOf, a)
  {
    hide PumpPush;
    var env := PumpEnv(true, true, true, true,
                       [ReadFails, ReadFails, ReadFails, ReadFails, ReadFails, ReadFails, ReadFails, ReadFails]);
    var st := MasterInput(Tick(0, env));
    EndGoesOut(a.m, 0, env);
    var b := Apply(a, st, x, crcOf);
    assert EndSent(Run(file, x, crcOf, b, []).m);
    assert Legal(file, x, crcOf, b, []) && KeepsSession(file, x, crcOf, b, []);
    assert Enabled(file, a, st);
    StepTowardsEnd(file, x, crcOf, a, st);
  }

  /** Two steps that may be taken one after the other, and keep the session. */
  ghost predicate Fit(file: seq<byte>, x: Transfer, crcOf: seq<byte> -> uint32, a: System, s1: SystemStep,
                      s2: SystemStep) {
    && Enabled(file, a, s1) && !DropsSession(x, a, s1)
    && Enabled(file, Apply(a, s1, x, crcOf), s2) && !DropsSession(x, Apply(a, s1, x, crcOf), s2)
  }

  lemma StepsTowardsEnd(file: seq<byte>, x: Transfer, crcOf: seq<byte> -> uint32, a: System, s1: SystemStep,
                        s2: SystemStep)
    requires Fit(file, x, crcOf, a, s1, s2)
    requires CanEnd(file, x, crcOf, Apply(Apply(a, s1, x, crcOf), s2, x, crcOf))
    ensures CanEnd(file, x, crcOf, a)
  {
    hide CanEnd, Apply;
    StepTowardsEnd(file, x, crcOf, Apply(a, s1, x, crcOf), s2);
    StepTowardsEnd(file, x, crcOf, a, s1);
  }

  /** The chunk at `o` goes out and arrives. */
  lemma ChunkGoesOver(file: seq<byte>, x: Transfer, crcOf: seq<byte> -> uint32, a: System, acked: nat, o: nat)
    returns (tick: SystemStep, arrive: SystemStep)
    requires TransferOk(x) && |file| == x.totalSize && !TooSmall(x) && BothAt(x, a, acked, o)
    ensures Fit(file, x, crcOf, a, tick, arrive) && tick.MasterInput? && arrive.DeliverFrame?
    ensures var c := Apply(Apply(a, tick, x, crcOf), arrive, x, crcOf);
            var next := o + ChunkLen(x, o);
            && next <= WindowEnd(x, acked) && c.s.stored == a.s.stored
            && (next < WindowEnd(x, acked) ==> BothAt(x, c, acked, next))
            && (next == WindowEnd(x, acked) ==>
                  && SenderWaits(x, c.m.push, acked) && (next < x.totalSize ==> SlaveAt(x, c.s, next, next))
                  && |c.s.reports| > 0 && c.s.reports[|c.s.reports| - 1]
                       == StatusReport(x.reqId, ChunkAck, next, CODE_OK))
  {
    hide SlaveAt, SenderWaits, PumpPush, HandleChunk, ReadsInFull, Multiple;
    var next := o + ChunkLen(x, o);
    tick := MasterInput(Tick(a.m.push.t.nextSend, OneChunk(file, x, o)));
    arrive := DeliverFrame(|a.m.sent|, 0, Granted, true);
    ChunkFitsWindow(x, acked, o);
    TickSendsChunk(file, x, a.m, acked, o);
    SlaveTakesChunk(file, x, a.s, acked, o, 0);
    OneChunkReads(file, x, o);
    StoredStays(a.s, x.reqId, o, file[o..next], 0);
    var b := Apply(a, tick, x, crcOf);
    assert b.m.sent[|a.m.sent|] == Chunk(x.reqId, o, file[o..next]);
  }

  lemma StoredStays(s: Slave, corr: uint32, offset: uint32, data: seq<byte>, now: uint32)
    ensures HandleChunk(s, corr, offset, data, now).stored == s.stored
  {
    hide WriteChunk, NextThreshold;
  }

  lemma {:induction false} EndsFrom(file: seq<byte>, x: Transfer, crcOf: seq<byte> -> uint32, a: System, acked: nat,
                                    o: nat)
    requires TransferOk(x) && |file| == x.totalSize && !TooSmall(x) && BothAt(x, a, acked, o)
    ensures CanEnd(file, x, crcOf, a)
    decreases x.totalSize - o
  {
    hide SlaveAt, SenderAt, SenderWaits, OnStatus, CanEnd, Multiple;
    OffsetInWindow(x, a.m.push, acked, o);
    var next := o + ChunkLen(x, o);
    var tick, arrive := ChunkGoesOver(file, x, crcOf, a, acked, o);
    var c := Apply(Apply(a, tick, x, crcOf), arrive, x, crcOf);
    if next < WindowEnd(x, acked) {
      EndsFrom(file, x, crcOf, c, acked, next);
    } else {
      var n := |c.s.reports| - 1;
      var env := OneChunk(file, x, o);
      AckMovesOn(x, c.m, acked, 0, env);
      Answered(x, c, n, next, 0, env, crcOf);
      var d := Apply(c, DeliverReport(n, 0, env), x, crcOf);
      if next < x.totalSize {
        EndsFrom(file, x, crcOf, d, next, next);
      } else {
        WaitsForTransfer(x, c.m, acked, next, env);
        EndsNow(file, x, crcOf, d);
      }
      StepTowardsEnd(file, x, crcOf, c, DeliverReport(n, 0, env));
    }
    StepsTowardsEnd(file, x, crcOf, a, tick, arrive);
  }

  lemma OffsetInWindow(x: Transfer, p: PushSession, acked: nat, o: nat)
    requires TransferOk(x) && SenderAt(x, p, acked, o)
    ensures acked <= o < WindowEnd(x, acked) <= x.totalSize
  {
  }

  lemma WaitsForTransfer(x: Transfer, m: Master, acked: nat, next: uint32, env: PumpEnv)
    requires TransferOk(x) && SenderWaits(x, m.push, acked)
    ensures OnStatus(m, 0, x.reqId, ChunkAck, next, CODE_OK, env).push.x == x
  {
    hide Multiple;
  }

  // ---------------------------------------------------------------- from the start

  /** The begin frame is answered, and the sender starts streaming. */
  lemma {:induction false} StartsStreaming(file: seq<byte>, x: Transfer, crcOf: seq<byte> -> uint32, a0: System)
    returns (begin: SystemStep, answer: SystemStep)
    requires Initial(file, x, crcOf, a0) && x.reqId != 0 && |a0.s.pool| >= x.totalSize
    ensures Fit(file, x, crcOf, a0, begin, answer) && begin.DeliverFrame? && answer.DeliverReport?
    ensures Apply(Apply(a0, begin, x, crcOf), answer, x, crcOf).m.sent == a0.m.sent
    ensures var b := Apply(Apply(a0, begin, x, crcOf), answer, x, crcOf); BothAt(x, b, 0, 0) && b.s.stored == None
  {
    begin, answer := DeliverFrame(0, 0, Granted, true), DeliverReport(0, 0, PumpEnv(true, true, true, true, []));
    var a := Apply(a0, begin, x, crcOf);
    CountIsCeiling(x);
    assert ForTransfer(x, a.s.rx) && Shape(x, a.s.rx);
    assert a.s.reports == [StatusReport(x.reqId, ChunkAck, 0, CODE_OK)];
  }

  /**
   With a pool for the image, some run that keeps the slave's session sends the end frame if and only if sixteen chunks
   make up the acknowledgement step of 1024 bytes or the whole image.
  */
  lemma EndsExactly(file: seq<byte>, x: Transfer, crcOf: seq<byte> -> uint32, a0: System)
    requires Initial(file, x, crcOf, a0) && x.reqId != 0 && |a0.s.pool| >= x.totalSize
    ensures CanEnd(file, x, crcOf, a0) <==> 16 * x.chunkBytes >= 1024 || 16 * x.chunkBytes >= x.totalSize
  {
    hide Initial, BothAt;
    InitialTransfer(file, x, crcOf, a0);
    if TooSmall(x) {
      forall steps | Legal(file, x, crcOf, a0, steps) && KeepsSession(file, x, crcOf, a0, steps)
        ensures !EndSent(Run(file, x, crcOf, a0, steps).m)
      {
        SmallChunksNeverEnd(file, x, crcOf, a0, steps, Run(file, x, crcOf, a0, steps));
      }
    } else {
      var begin, answer := StartsStreaming(file, x, crcOf, a0);
      EndsFrom(file, x, crcOf, Apply(Apply(a0, begin, x, crcOf), answer, x, crcOf), 0, 0);
      StepsTowardsEnd(file, x, crcOf, a0, begin, answer);
    }
  }

  lemma InitialTransfer(file: seq<byte>, x: Transfer, crcOf: seq<byte> -> uint32, a0: System)
    requires Initial(file, x, crcOf, a0)
    ensures TransferOk(x) && |file| == x.totalSize
  {
  }

  // ---------------------------------------------------------------- waiting for a lost acknowledgement

  /** Some run from here leads to a sender that waits for the acknowledgement of its first window, already given. */
  ghost predicate CanWaitForLost(file: seq<byte>, x: Transfer, crcOf: seq<byte> -> uint32, a: System) {
    exists steps :: Legal(file, x, crcOf, a, steps) && WaitsForFirst(x, Run(file, x, crcOf, a, steps))
  }

  ghost predicate WaitsForFirst(x: Transfer, a: System) {
    a.m.push.active && a.m.push.w.remoteAcked == 0 && WaitsForLost(x, a, 0, FirstWindow(x))
  }

  lemma StepTowardsLost(file: seq<byte>, x: Transfer, crcOf: seq<byte> -> uint32, a: System, st: SystemStep)
    requires Enabled(file, a, st) && CanWaitForLost(file, x, crcOf, Apply(a, st, x, crcOf))
    ensures CanWaitForLost(file, x, crcOf, a)
  {
    hide Apply, ReadsInFull, WaitsForFirst;
    var b := Apply(a, st, x, crcOf);
    var steps :| Legal(file, x, crcOf, b, steps) && WaitsForFirst(x, Run(file, x, crcOf, b, steps));
    var all := [st] + steps;
    assert all[0] == st && all[1..] == steps;
    assert Legal(file, x, crcOf, a, all);
    assert Run(file, x, crcOf, a, all) == Run(file, x, crcOf, b, steps);
  }

  lemma NothingToWaitFor(file: seq<byte>, x: Transfer, crcOf: seq<byte> -> uint32, a: System)
    requires WaitsForFirst(x, a)
    ensures CanWaitForLost(file, x, crcOf, a)
  {
    hide WaitsForFirst;
    assert Legal(file, x, crcOf, a, []) && Run(file, x, crcOf, a, []) == a;
  }

  /** The sender's window is the first, and all it has sent lies inside. */
  ghost predicate InFirstWindow(x: Transfer, m: Master)
    requires TransferOk(x)
  {
    SentBelow(m.sent, FirstWindow(x)) && (m.push.active ==> Behind(m.push.w, 0, FirstWindow(x)))
  }

  lemma TickInFirst(file: seq<byte>, x: Transfer, crcOf: seq<byte> -> uint32, a: System, st: SystemStep)
    requires TransferOk(x) && |file| == x.totalSize && SystemOk(file, x, a) && Enabled(file, a, st)
    requires InFirstWindow(x, a.m) && (st.MasterInput? || st.DeliverFrame?)
    ensures InFirstWindow(x, Apply(a, st, x, crcOf).m)
  {
    if st.MasterInput? {
      MasterStaysBehind(file, x, a.m, a.s.images != [], st.i, 0, FirstWindow(x));
    }
    hide Step, HandleFrame, MasterOk, SlaveOk;
  }

  lemma {:induction false} WaitsFrom(file: seq<byte>, x: Transfer, crcOf: seq<byte> -> uint32, a: System, o: nat)
    requires TransferOk(x) && |file| == x.totalSize && crcOf(file) == x.imageCrc && SystemOk(file, x, a)
    requires !TooSmall(x) && FirstWindow(x) < x.totalSize && BothAt(x, a, 0, o) && InFirstWindow(x, a.m)
    ensures CanWaitForLost(file, x, crcOf, a)
    decreases x.totalSize - o
  {
    hide SlaveAt, SenderAt, SenderWaits, CanWaitForLost, Multiple, SystemOk, InFirstWindow, Apply;
    OffsetInWindow(x, a.m.push, 0, o);
    var next := o + ChunkLen(x, o);
    var tick, arrive := ChunkGoesOver(file, x, crcOf, a, 0, o);
    var b := Apply(a, tick, x, crcOf);
    var c := Apply(b, arrive, x, crcOf);
    TickInFirst(file, x, crcOf, a, tick);
    StepKeepsSystem(file, x, crcOf, a, tick);
    TickInFirst(file, x, crcOf, b, arrive);
    StepKeepsSystem(file, x, crcOf, b, arrive);
    if next < WindowEnd(x, 0) {
      WaitsFrom(file, x, crcOf, c, next);
    } else {
      FirstIsLost(x, c);
      NothingToWaitFor(file, x, crcOf, c);
    }
    StepTowardsLost(file, x, crcOf, b, arrive);
    StepTowardsLost(file, x, crcOf, a, tick);
  }

  lemma FirstIsLost(x: Transfer, a: System)
    requires TransferOk(x) && SenderWaits(x, a.m.push, 0) && SlaveAt(x, a.s, FirstWindow(x), FirstWindow(x))
    requires InFirstWindow(x, a.m)
    ensures WaitsForFirst(x, a)
  {
    hide Multiple, SentBelow;
  }

  /** Every push of more than one window can come to wait for its first acknowledgement, which is never repeated. */
  lemma {:induction false} FirstAckCanBeLost(file: seq<byte>, x: Transfer, crcOf: seq<byte> -> uint32, a0: System)
    requires Initial(file, x, crcOf, a0) && x.reqId != 0 && |a0.s.pool| >= x.totalSize
    requires 16 * x.chunkBytes >= 1024 && 16 * x.chunkBytes < x.totalSize
    ensures CanWaitForLost(file, x, crcOf, a0)
  {
    hide BothAt, CanWaitForLost, Apply, SystemOk;
    InitialTransfer(file, x, crcOf, a0);
    InitialOk(file, x, crcOf, a0);
    var begin, answer := StartsStreaming(file, x, crcOf, a0);
    var a := Apply(a0, begin, x, crcOf);
    var b := Apply(a, answer, x, crcOf);
    StepKeepsSystem(file, x, crcOf, a0, begin);
    StepKeepsSystem(file, x, crcOf, a, answer);
    BothInFirst(x, b);
    WaitsFrom(file, x, crcOf, b, 0);
    StepTowardsLost(file, x, crcOf, a, answer);
    StepTowardsLost(file, x, crcOf, a0, begin);
  }

  lemma BothInFirst(x: Transfer, a: System)
    requires TransferOk(x) && BothAt(x, a, 0, 0) && a.m.sent == [BeginFrame(x)]
    ensures InFirstWindow(x, a.m)
  {
    hide SlaveAt, Multiple;
  }
}
