/**
 A storage that returns less than it is asked for. When such a read carries the sender past its window's end is stated
 exactly; and for every image that goes a little beyond one window, one short read is enough to send the end frame
 before the slave has the image.
*/
module OtaShortReads {
  import opened FixedWidth
  import opened Options
  import opened OtaSender
  import opened OtaSenderSafety
  import opened OtaReceiver
  import opened OtaReceiverSafety
  import opened OtaSystem
  import opened OtaTheorems
  import opened OtaStalls
  import opened OtaProgress

  // ---------------------------------------------------------------- past the window's end

  /** Reads `k` to `j - 1` return something, and the radio takes all of it. */
  predicate AllGoOut(io: seq<ChunkIo>, k: nat, j: nat)
    requires k <= j <= |io|
  {
    forall i :: k <= i < j ==> io[i].Read? && io[i].data != [] && io[i].sendOk
  }

  /** Where reads `k` to `j - 1` lead, each cut to what is left of the image. */
  function ReadTo(total: nat, next: nat, io: seq<ChunkIo>, k: nat, j: nat): (end: nat)
    requires k <= j <= |io| && next <= total && AllGoOut(io, k, j)
    ensures next <= end <= total && (k < j && next < total ==> next < end)
    decreases j - k
  {
    if k == j then next else ReadTo(total, Min(next + |io[k].data|, total), io, k + 1, j)
  }

  /** Some read goes out that starts before `end` and stops behind it. */
  ghost predicate Straddles(total: nat, end: nat, next: nat, io: seq<ChunkIo>, k: nat)
    requires k <= |io| && next <= total
  {
    exists j {:trigger AllGoOut(io, k, j)} :: k <= j < |io| && AllGoOut(io, k, j) && AllGoOut(io, k, j + 1)
      && ReadTo(total, next, io, k, j) < end < ReadTo(total, next, io, k, j + 1)
  }

  lemma {:induction false} ReadTowards(total: nat, next: nat, io: seq<ChunkIo>, k: nat, j: nat)
    requires k < j <= |io| && next <= total && AllGoOut(io, k, j)
    ensures AllGoOut(io, k + 1, j)
    ensures ReadTo(total, next, io, k, j) == ReadTo(total, Min(next + |io[k].data|, total), io, k + 1, j)
    ensures ReadTo(total, Min(next + |io[k].data|, total), io, k + 1, j) >= Min(next + |io[k].data|, total)
  {
  }

  lemma {:induction false} StraddlesStep(total: nat, end: nat, next: nat, io: seq<ChunkIo>, k: nat)
    requires k < |io| && next < end <= total && AllGoOut(io, k, k + 1)
    ensures var after := Min(next + |io[k].data|, total);
            (Straddles(total, end, next, io, k) <==>
               after > end || (after < end && Straddles(total, end, after, io, k + 1)))
  {
    var after := Min(next + |io[k].data|, total);
    assert ReadTo(total, next, io, k, k) == next;
    ReadTowards(total, next, io, k, k + 1);
    assert ReadTo(total, after, io, k + 1, k + 1) == after;
    if Straddles(total, end, next, io, k) {
      var j :| k <= j < |io| && AllGoOut(io, k, j) && AllGoOut(io, k, j + 1)
               && ReadTo(total, next, io, k, j) < end < ReadTo(total, next, io, k, j + 1);
      if j > k {
        ReadTowards(total, next, io, k, j);
        ReadTowards(total, next, io, k, j + 1);
        assert AllGoOut(io, k + 1, j) && AllGoOut(io, k + 1, j + 1);
      }
    }
    if after < end && Straddles(total, end, after, io, k + 1) {
      var j :| k + 1 <= j < |io| && AllGoOut(io, k + 1, j) && AllGoOut(io, k + 1, j + 1)
               && ReadTo(total, after, io, k + 1, j) < end < ReadTo(total, after, io, k + 1, j + 1);
      assert AllGoOut(io, k, j) && AllGoOut(io, k, j + 1);
      ReadTowards(total, next, io, k, j);
      ReadTowards(total, next, io, k, j + 1);
    }
    if after > end {
      assert AllGoOut(io, k, k);
    }
  }

  /**
   The send loop leaves its window behind if and only if one of the reads it sends starts before the window's end and
   stops behind it, whatever the reads return.
  */
  lemma {:induction false} OvershootsExactly(p: PushSession, now: uint32, io: seq<ChunkIo>, k: nat)
    requires k <= CHUNK_BUDGET_PER_TICK == |io| && p.w.next <= p.w.pendingEnd <= p.x.totalSize
    ensures SendLoop(p, now, io, k).0.w.next > p.w.pendingEnd
       <==> Straddles(p.x.totalSize, p.w.pendingEnd, p.w.next, io, k)
    decreases CHUNK_BUDGET_PER_TICK - k
  {
    hide Straddles;
    var total, end, next := p.x.totalSize, p.w.pendingEnd, p.w.next;
    if next == end || k == CHUNK_BUDGET_PER_TICK {
      NothingStraddles(total, end, next, io, k);
    } else if !AllGoOut(io, k, k + 1) {
      NothingGoesOut(total, end, next, io, k);
    } else {
      StraddlesStep(total, end, next, io, k);
      var p1 := AfterChunk(p, |ChunkData(p, io[k].data)|);
      assert p1.w.next == Min(next + |io[k].data|, total);
      if p1.w.next <= end {
        OvershootsExactly(p1, now, io, k + 1);
      }
      if p1.w.next == end {
        NothingStraddles(total, end, end, io, k + 1);
      }
    }
  }

  lemma {:induction false} NothingStraddles(total: nat, end: nat, next: nat, io: seq<ChunkIo>, k: nat)
    requires k <= |io| && next <= total && (next == end || k == |io|)
    ensures !Straddles(total, end, next, io, k)
  {
  }

  lemma {:induction false} NothingGoesOut(total: nat, end: nat, next: nat, io: seq<ChunkIo>, k: nat)
    requires k < |io| && next <= total && !AllGoOut(io, k, k + 1)
    ensures !Straddles(total, end, next, io, k)
  {
    if Straddles(total, end, next, io, k) {
      var j :| k <= j < |io| && AllGoOut(io, k, j) && AllGoOut(io, k, j + 1)
               && ReadTo(total, next, io, k, j) < end < ReadTo(total, next, io, k, j + 1);
      assert AllGoOut(io, k, k + 1);
    }
  }

  // ---------------------------------------------------------------- the end frame too early

  /** A tick whose first read returns only `n` bytes of the chunk asked for, all others being in full. */
  ghost predicate OneShort(file: seq<byte>, m: Master, st: SystemStep, n: nat) {
    && m.push.active && |file| == m.push.x.totalSize && m.push.w.next < m.push.x.totalSize
    && st.MasterInput? && st.i.Tick? && |st.i.env.io| == CHUNK_BUDGET_PER_TICK
    && 0 < n < ChunkLen(m.push.x, m.push.w.next)
    && st.i.env.io[0] == Read(file[m.push.w.next..m.push.w.next + n], true)
    && ReadsInFull(file, m.push.x, m.push.w.next + n, st.i.env.io, 1)
  }

  /** The end frame is out, and the slave has less than the image. */
  ghost predicate EndedEarly(x: Transfer, a: System) {
    EndSent(a.m) && Prefix(x, a.s) < x.totalSize
  }

  /** Some run with full reads from here sends the end frame too early. */
  ghost predicate CanEndEarly(file: seq<byte>, x: Transfer, crcOf: seq<byte> -> uint32, a: System) {
    exists steps :: Legal(file, x, crcOf, a, steps) && EndedEarly(x, Run(file, x, crcOf, a, steps))
  }

  ghost predicate ShortRun(file: seq<byte>, x: Transfer, crcOf: seq<byte> -> uint32, a: System, steps: seq<SystemStep>,
                           st: SystemStep, n: nat)
  {
    && Legal(file, x, crcOf, a, steps) && OneShort(file, Run(file, x, crcOf, a, steps).m, st, n)
    && CanEndEarly(file, x, crcOf, Apply(Run(file, x, crcOf, a, steps), st, x, crcOf))
  }

  /** Some run from here with a single short read sends the end frame too early. */
  ghost predicate ShortReadCanEndEarly(file: seq<byte>, x: Transfer, crcOf: seq<byte> -> uint32, a: System) {
    exists steps, st, n :: ShortRun(file, x, crcOf, a, steps, st, n)
  }

  lemma StepTowardsEarly(file: seq<byte>, x: Transfer, crcOf: seq<byte> -> uint32, a: System, st: SystemStep)
    requires Enabled(file, a, st) && CanEndEarly(file, x, crcOf, Apply(a, st, x, crcOf))
    ensures CanEndEarly(file, x, crcOf, a)
  {
    hide Apply, ReadsInFull, EndedEarly;
    var b := Apply(a, st, x, crcOf);
    var steps :| Legal(file, x, crcOf, b, steps) && EndedEarly(x, Run(file, x, crcOf, b, steps));
    var all := [st] + steps;
    assert all[0] == st && all[1..] == steps;
    assert Legal(file, x, crcOf, a, all);
    assert Run(file, x, crcOf, a, all) == Run(file, x, crcOf, b, steps);
  }

  lemma StepBeforeShort(file: seq<byte>, x: Transfer, crcOf: seq<byte> -> uint32, a: System, st: SystemStep)
    requires Enabled(file, a, st) && ShortReadCanEndEarly(file, x, crcOf, Apply(a, st, x, crcOf))
    ensures ShortReadCanEndEarly(file, x, crcOf, a)
  {
    hide Apply, ReadsInFull, OneShort, CanEndEarly;
    var b := Apply(a, st, x, crcOf);
    var steps, short, n :| ShortRun(file, x, crcOf, b, steps, short, n);
    var all := [st] + steps;
    assert all[0] == st && all[1..] == steps;
    assert Legal(file, x, crcOf, a, all);
    assert Run(file, x, crcOf, a, all) == Run(file, x, crcOf, b, steps);
    assert ShortRun(file, x, crcOf, a, all, short, n);
  }

  /** A first window the slave acknowledges, and an image that ends less than a chunk behind it. */
  predicate JustOverWindow(x: Transfer) {
    16 * x.chunkBytes >= 1024 && 16 * x.chunkBytes < x.totalSize < 17 * x.chunkBytes
  }

  /** What the image has beyond the window: the length of the short read. */
  ghost function Beyond(x: Transfer): nat
    requires JustOverWindow(x)
  {
    x.totalSize - FirstWindow(x)
  }

  /** Sending the first window again, off the chunk boundaries: whole chunks are left to the end of the image. */
  ghost predicate Resending(x: Transfer, p: PushSession)
    requires JustOverWindow(x)
  {
    && p.active && p.x == x && p.phase == Streaming && p.beginAcked && p.sendFailStreak <= 1
    && 0 < p.w.next < FirstWindow(x) < TWO_TO_THE_32 && Multiple(x.chunkBytes, x.totalSize - p.w.next)
    && p.w == Window(p.w.next, FirstWindow(x), false, p.w.retryCount, FULL_WINDOW_CHUNKS, 0, 0)
  }

  /** The overshot window is out, up to the end of the image. */
  ghost predicate Overshot(x: Transfer, p: PushSession)
    requires JustOverWindow(x)
  {
    && p.active && p.x == x && p.phase == Streaming && p.beginAcked
    && p.w == Window(x.totalSize, FirstWindow(x), true, 0, FULL_WINDOW_CHUNKS, 0, 0)
  }

  /** The slave has the first window, has acknowledged it, and the acknowledgement is still on its way. */
  ghost predicate AckUnderWay(x: Transfer, s: Slave) {
    && s.stored == None && ForTransfer(x, s.rx) && s.rx.receivedSize == FirstWindow(x) < TWO_TO_THE_32
    && |s.reports| > 0 && s.reports[|s.reports| - 1] == StatusReport(x.reqId, ChunkAck, FirstWindow(x), CODE_OK)
  }

  /** The next chunk is a whole one; it stays inside the window unless it is the last. */
  lemma {:induction false} ResendChunk(x: Transfer, next: nat)
    requires TransferOk(x) && JustOverWindow(x) && next < FirstWindow(x) && Multiple(x.chunkBytes, x.totalSize - next)
    ensures var after := next + x.chunkBytes;
            && ChunkLen(x, next) == x.chunkBytes && after <= x.totalSize && Multiple(x.chunkBytes, x.totalSize - after)
            && (after < x.totalSize ==> after < FirstWindow(x))
  {
  }

  /** One more chunk of the overshot window, up to the end of the image. */
  lemma {:induction false} ResendTick(file: seq<byte>, x: Transfer, m: Master)
    requires TransferOk(x) && |file| == x.totalSize && JustOverWindow(x) && Resending(x, m.push)
    ensures var after := m.push.w.next + x.chunkBytes;
            var p := PumpPush(m, m.push.t.nextSend, OneChunk(file, x, m.push.w.next)).push;
            && after <= x.totalSize && p.w.next == after
            && (after < x.totalSize ==> Resending(x, p)) && (after == x.totalSize ==> Overshot(x, p))
  {
    hide SendLoop, PumpWindow, PumpPush, ReadsInFull, Multiple, ChunkLen, OneChunk;
    var now, env := m.push.t.nextSend, OneChunk(file, x, m.push.w.next);
    ResendChunk(x, m.push.w.next);
    ResendIsWindow(file, x, m);
    OneChunkLoop(file, x, m.push, now);
    WindowOutcome(m, now, env);
    var p1 := AfterChunk(m.push, ChunkLen(x, m.push.w.next));
    assert p1.w.next == m.push.w.next + x.chunkBytes;
  }

  lemma ResendIsWindow(file: seq<byte>, x: Transfer, m: Master)
    requires TransferOk(x) && |file| == x.totalSize && JustOverWindow(x) && Resending(x, m.push)
    ensures var now, env := m.push.t.nextSend, OneChunk(file, x, m.push.w.next);
            && PumpPush(m, now, env) == PumpWindow(m, now, env) && |env.io| == CHUNK_BUDGET_PER_TICK
    ensures OpenWindow(m.push) == m.push
  {
    hide PumpWindow, Multiple, ChunkLen;
  }

  /** A tick in which the storage returns nothing. */
  ghost function NoReads(): PumpEnv {
    PumpEnv(true, true, true, true,
            [ReadFails, ReadFails, ReadFails, ReadFails, ReadFails, ReadFails, ReadFails, ReadFails])
  }

  lemma EndsEarlyNow(file: seq<byte>, x: Transfer, crcOf: seq<byte> -> uint32, a: System)
    requires TransferOk(x) && |file| == x.totalSize && JustOverWindow(x) && AboutToEnd(a.m) && a.m.push.x == x
    requires Prefix(x, a.s) < x.totalSize
    ensures CanEndEarly(file, x, crcOf, a)
  {
    hide PumpPush;
    var env := NoReads();
    var st := MasterInput(Tick(0, env));
    EndGoesOut(a.m, 0, env);
    var b := Apply(a, st, x, crcOf);
    assert EndedEarly(x, Run(file, x, crcOf, b, []));
    assert Legal(file, x, crcOf, b, []);
    assert Enabled(file, a, st);
    StepTowardsEarly(file, x, crcOf, a, st);
  }

  /** The old acknowledgement releases the overshot window, and the end frame goes out. */
  lemma EarlyFromOvershot(file: seq<byte>, x: Transfer, crcOf: seq<byte> -> uint32, a: System)
    requires TransferOk(x) && |file| == x.totalSize && JustOverWindow(x) && Overshot(x, a.m.push) && AckUnderWay(x, a.s)
    ensures CanEndEarly(file, x, crcOf, a)
  {
    hide CanEndEarly;
    var env := PumpEnv(true, true, true, true, []);
    var st := DeliverReport(|a.s.reports| - 1, 0, env);
    Answered(x, a, |a.s.reports| - 1, FirstWindow(x), 0, env, crcOf);
    EndsEarlyNow(file, x, crcOf, Apply(a, st, x, crcOf));
    StepTowardsEarly(file, x, crcOf, a, st);
  }

  lemma {:induction false} EarlyFromResending(file: seq<byte>, x: Transfer, crcOf: seq<byte> -> uint32, a: System)
    requires TransferOk(x) && |file| == x.totalSize && JustOverWindow(x) && Resending(x, a.m.push)
        && AckUnderWay(x, a.s)
    ensures CanEndEarly(file, x, crcOf, a)
    decreases x.totalSize - a.m.push.w.next
  {
    hide CanEndEarly, AckUnderWay, Overshot, PumpPush, ReadsInFull, Multiple;
    var st := MasterInput(Tick(a.m.push.t.nextSend, OneChunk(file, x, a.m.push.w.next)));
    ResendTick(file, x, a.m);
    OneChunkReads(file, x, a.m.push.w.next);
    var b := Apply(a, st, x, crcOf);
    if b.m.push.w.next == x.totalSize {
      EarlyFromOvershot(file, x, crcOf, b);
    } else {
      EarlyFromResending(file, x, crcOf, b);
    }
    StepTowardsEarly(file, x, crcOf, a, st);
  }

  /** A tick whose first read is short and whose second finds the radio busy. */
  ghost function ShortFirst(file: seq<byte>, x: Transfer, n: nat): PumpEnv
    requires TransferOk(x) && |file| == x.totalSize && n <= x.totalSize
  {
    PumpEnv(true, true, true, true, [Read(file[..n], true), ChunkAt(file, x, n, false),
                                     ReadFails, ReadFails, ReadFails, ReadFails, ReadFails, ReadFails])
  }

  lemma {:induction false} ShortFirstLoop(file: seq<byte>, x: Transfer, p: PushSession, now: uint32, n: nat)
    requires TransferOk(x) && |file| == x.totalSize && p.x == x && p.w.next == 0 < n < p.w.pendingEnd <= x.totalSize
    ensures var r := SendLoop(p, now, ShortFirst(file, x, n).io, 0);
            r.0 == BackOff(AfterChunk(p, n), now) && r.2 == BackedOff
    ensures ReadsInFull(file, x, n, ShortFirst(file, x, n).io, 1)
  {
    var io := ShortFirst(file, x, n).io;
    assert io[2] == ReadFails;
    assert ReadsInFull(file, x, n + ChunkLen(x, n), io, 2);
    assert io[0] == Read(file[..n], true) && ChunkData(p, file[..n]) == file[..n];
    var p1 := AfterChunk(p, n);
    assert p1.w.next == n;
    assert SendLoop(p1, now, io, 1) == (BackOff(p1, now), [], BackedOff);
  }

  /** The short read puts the sender off the chunk boundaries, sixteen chunks from the end of the image. */
  lemma {:induction false} ShortTick(file: seq<byte>, x: Transfer, crcOf: seq<byte> -> uint32, a: System)
    requires TransferOk(x) && |file| == x.totalSize && JustOverWindow(x) && SenderAt(x, a.m.push, 0, 0)
        && AckUnderWay(x, a.s)
    ensures ShortReadCanEndEarly(file, x, crcOf, a)
  {
    hide SendLoop, PumpWindow, PumpPush, OpenWindow, ReadsInFull, Multiple, CanEndEarly, AckUnderWay, Elapsed;
    var now, n := a.m.push.t.nextSend, Beyond(x);
    var env := ShortFirst(file, x, n);
    var st := MasterInput(Tick(now, env));
    PumpIsWindow(x, a.m, 0, 0, env);
    OpensWindow(x, a.m.push, 0, 0);
    ShortFirstLoop(file, x, OpenWindow(a.m.push), now, n);
    WindowOutcome(a.m, now, env);
    var b := Apply(a, st, x, crcOf);
    assert file[0..n] == file[..n];
    assert OneShort(file, a.m, st, n);
    MultipleTimes(x.chunkBytes, 16);
    assert x.totalSize - n == x.chunkBytes * 16;
    assert Resending(x, b.m.push);
    EarlyFromResending(file, x, crcOf, b);
    assert Legal(file, x, crcOf, a, []) && Run(file, x, crcOf, a, []) == a;
    assert ShortRun(file, x, crcOf, a, [], st, n);
  }

  /** The window's acknowledgement stays away for too long, and the sender starts the window over. */
  lemma RewindTick(file: seq<byte>, x: Transfer, m: Master)
    requires TransferOk(x) && |file| == x.totalSize && SenderWaits(x, m.push, 0)
    ensures SenderAt(x, PumpPush(m, Wrap32(m.push.t.waitStarted + 1500), NoReads()).push, 0, 0)
  {
    hide Multiple, PumpWindow, StopPush;
    assert Elapsed(Wrap32(m.push.t.waitStarted + 1500), m.push.t.waitStarted) == 1500;
    assert Multiple(x.chunkBytes, 0);
  }

  /** From a window waiting for its acknowledgement: the timeout first, then the short read. */
  lemma EarlyFromWaiting(file: seq<byte>, x: Transfer, crcOf: seq<byte> -> uint32, a: System)
    requires TransferOk(x) && |file| == x.totalSize && JustOverWindow(x) && SenderWaits(x, a.m.push, 0)
        && AckUnderWay(x, a.s)
    ensures ShortReadCanEndEarly(file, x, crcOf, a)
  {
    hide ShortReadCanEndEarly, AckUnderWay, SenderAt, SenderWaits, PumpPush, Multiple;
    var now := Wrap32(a.m.push.t.waitStarted + 1500);
    var st := MasterInput(Tick(now, NoReads()));
    RewindTick(file, x, a.m);
    WaitingActive(x, a.m.push);
    assert ReadsInFull(file, x, a.m.push.w.next, NoReads().io, 0);
    ShortTick(file, x, crcOf, Apply(a, st, x, crcOf));
    StepBeforeShort(file, x, crcOf, a, st);
  }

  lemma WaitingActive(x: Transfer, p: PushSession)
    requires TransferOk(x) && SenderWaits(x, p, 0)
    ensures p.active && p.x == x
  {
  }

  /** The first window goes over chunk by chunk. */
  lemma {:induction false} EarlyFrom(file: seq<byte>, x: Transfer, crcOf: seq<byte> -> uint32, a: System, o: nat)
    requires TransferOk(x) && |file| == x.totalSize && JustOverWindow(x) && BothAt(x, a, 0, o) && a.s.stored == None
    ensures ShortReadCanEndEarly(file, x, crcOf, a)
    decreases x.totalSize - o
  {
    hide SlaveAt, SenderAt, SenderWaits, ShortReadCanEndEarly, Multiple;
    OffsetInWindow(x, a.m.push, 0, o);
    var next := o + ChunkLen(x, o);
    var tick, arrive := ChunkGoesOver(file, x, crcOf, a, 0, o);
    var c := Apply(Apply(a, tick, x, crcOf), arrive, x, crcOf);
    if next < WindowEnd(x, 0) {
      EarlyFrom(file, x, crcOf, c, next);
    } else {
      HasFirstWindow(x, c.s);
      EarlyFromWaiting(file, x, crcOf, c);
    }
    StepBeforeShort(file, x, crcOf, Apply(a, tick, x, crcOf), arrive);
    StepBeforeShort(file, x, crcOf, a, tick);
  }

  lemma HasFirstWindow(x: Transfer, s: Slave)
    requires TransferOk(x) && JustOverWindow(x) && SlaveAt(x, s, FirstWindow(x), FirstWindow(x)) && s.stored == None
    requires |s.reports| > 0 && FirstWindow(x) < TWO_TO_THE_32
    requires s.reports[|s.reports| - 1] == StatusReport(x.reqId, ChunkAck, FirstWindow(x), CODE_OK)
    ensures AckUnderWay(x, s)
  {
  }

  /**
   From the start of any push of an image that ends less than a chunk behind its first window, some run sends the end
   frame before the slave has the image, though all its reads but one return what is asked for.
  */
  lemma ShortReadEndsEarly(file: seq<byte>, x: Transfer, crcOf: seq<byte> -> uint32, a0: System)
    requires Initial(file, x, crcOf, a0) && x.reqId != 0 && |a0.s.pool| >= x.totalSize && JustOverWindow(x)
    ensures ShortReadCanEndEarly(file, x, crcOf, a0)
  {
    hide Initial, BothAt, ShortReadCanEndEarly;
    InitialTransfer(file, x, crcOf, a0);
    var begin, answer := StartsStreaming(file, x, crcOf, a0);
    EarlyFrom(file, x, crcOf, Apply(Apply(a0, begin, x, crcOf), answer, x, crcOf), 0);
    StepBeforeShort(file, x, crcOf, Apply(a0, begin, x, crcOf), answer);
    StepBeforeShort(file, x, crcOf, a0, begin);
  }
}
