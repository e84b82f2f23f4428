/**
 When the slave refuses a chunk of the transfer by its offset: not for loss, repetition or reordering, but exactly when
 it has dropped the session it still keeps the books of.
*/
module OtaRefusals {
  import opened FixedWidth
  import opened OtaSender
  import opened OtaSenderSafety
  import opened OtaReceiver
  import opened OtaReceiverSafety
  import opened OtaSystem

  predicate RefusesOffset(x: Transfer, r: Report) {
    r.StatusReport? && r.kind.ChunkNack? && r.corr == x.reqId && r.code == CODE_OFFSET_MISMATCH
  }

  /** The books are kept for the transfer only while its session is open. */
  ghost predicate BooksMatch(x: Transfer, s: Slave) {
    s.track.corr == x.reqId ==> ForTransfer(x, s.rx)
  }

  /** The steps that close the session under the books: it expires, or a begin frame fails at the file probe. */
  predicate DropsSession(x: Transfer, a: System, st: SystemStep) {
    a.s.track.corr == x.reqId && (st.SlaveExpires? || (Delivers(a, st, BeginFrame(x)) && st.opening == ProbeFails))
  }

  ghost predicate KeepsSession(file: seq<byte>, x: Transfer, crcOf: seq<byte> -> uint32, a: System,
                               steps: seq<SystemStep>)
    requires Legal(file, x, crcOf, a, steps)
    decreases |steps|
  {
    steps != [] ==>
      !DropsSession(x, a, steps[0]) && KeepsSession(file, x, crcOf, Apply(a, steps[0], x, crcOf), steps[1..])
  }

  lemma ChunkParts(file: seq<byte>, x: Transfer, f: Frame)
    requires TransferOk(x) && |file| == x.totalSize && ImageChunk(file, x, f)
    ensures f.Chunk? && f.corr == x.reqId && f.offset < x.totalSize && Multiple(x.chunkBytes, f.offset)
  {
  }

  lemma ChunkKeepsBooks(file: seq<byte>, x: Transfer, s: Slave, f: Frame, now: uint32)
    requires TransferOk(x) && |file| == x.totalSize && CoreOk(file, x, s) && ImageChunk(file, x, f)
    ensures var s' := HandleChunk(s, f.corr, f.offset, f.data, now);
            s'.track.corr == s.track.corr && (ForTransfer(x, s'.rx) <==> ForTransfer(x, s.rx))
  {
    hide WriteChunk, AckChunk, NackChunk, RxOk, CountOk, ImageChunk;
    ChunkParts(file, x, f);
    var (rx, pool, ok) := WriteChunk(s.rx, s.pool, f.corr, f.offset, f.data);
    WriteStep(file, x, s, f);
    AnswersTellPrefix(x, s.(rx := rx, pool := pool), f.corr, Max(s.track.lastReceived, ContiguousReceiveSize(rx)), now);
  }

  /**
   A chunk of the transfer is refused by its offset if and only if the books are kept for a session that is gone and
   the same refusal did not go out in the last 60 milliseconds.
  */
  lemma ChunkRefusedExactly(file: seq<byte>, x: Transfer, s: Slave, f: Frame, now: uint32)
    requires TransferOk(x) && |file| == x.totalSize && CoreOk(file, x, s) && ImageChunk(file, x, f)
    ensures var s' := HandleChunk(s, f.corr, f.offset, f.data, now);
            (exists i :: |s.reports| <= i < |s'.reports| && RefusesOffset(x, s'.reports[i]))
              <==> && s.track.corr == x.reqId && !ForTransfer(x, s.rx)
                   && !(s.track.lastReceived == s.track.lastNack && Elapsed(now, s.track.lastNackMs) < 60)
  {
    hide WriteChunk, RxOk, CountOk, ImageChunk, NextThreshold, Elapsed, Multiple;
    ChunkParts(file, x, f);
    var (rx, pool, ok) := WriteChunk(s.rx, s.pool, f.corr, f.offset, f.data);
    WriteStep(file, x, s, f);
    WrittenWhenOpen(file, x, s, f);
    var s' := HandleChunk(s, f.corr, f.offset, f.data, now);
    if s.track.corr == x.reqId && !ForTransfer(x, s.rx) {
      assert ContiguousReceiveSize(rx) == 0;
      assert Max(s.track.lastReceived, 0) == s.track.lastReceived;
      assert s' == NackChunk(s, f.corr, s.track.lastReceived, now);
      assert |s'.reports| > |s.reports| ==> RefusesOffset(x, s'.reports[|s.reports|]);
    }
  }

  lemma WrittenWhenOpen(file: seq<byte>, x: Transfer, s: Slave, f: Frame)
    requires TransferOk(x) && |file| == x.totalSize && CoreOk(file, x, s) && ImageChunk(file, x, f)
    ensures ForTransfer(x, s.rx) ==> WriteChunk(s.rx, s.pool, f.corr, f.offset, f.data).2
  {
    if ForTransfer(x, s.rx) {
      WriteImageChunk(file, x, s.rx, s.pool, f);
    }
  }

  /** The books and the session part exactly at those steps. */
  lemma BooksPartExactly(file: seq<byte>, x: Transfer, crcOf: seq<byte> -> uint32, a: System, st: SystemStep)
    requires TransferOk(x) && |file| == x.totalSize && SystemOk(file, x, a) && Enabled(file, a, st)
    requires x.reqId != 0 && BooksMatch(x, a.s)
    ensures BooksMatch(x, Apply(a, st, x, crcOf).s) <==> !DropsSession(x, a, st)
  {
    hide HandleChunk, RxOk, CountOk, MasterOk, Step, JudgeEnd;
    if st.DeliverFrame? && st.n < |a.m.sent| {
      var f := a.m.sent[st.n];
      FrameOfSystem(file, x, a, st.n);
      if f.Chunk? {
        ChunkKeepsBooks(file, x, a.s, f, st.now);
      }
      PoolOfSession(file, x, a.s);
    }
    hide ImageChunk;
  }

  lemma FrameOfSystem(file: seq<byte>, x: Transfer, a: System, n: nat)
    requires TransferOk(x) && |file| == x.totalSize && SystemOk(file, x, a) && n < |a.m.sent|
    ensures FrameOk(file, x, a.m.sent[n])
  {
  }

  lemma PoolOfSession(file: seq<byte>, x: Transfer, s: Slave)
    requires TransferOk(x) && |file| == x.totalSize && CoreOk(file, x, s)
    ensures ForTransfer(x, s.rx) ==> |s.pool| >= x.totalSize
  {
  }

  ghost predicate NoRefusal(x: Transfer, s: Slave) {
    forall i :: 0 <= i < |s.reports| ==> !RefusesOffset(x, s.reports[i])
  }

  lemma StepMeetsNoRefusal(file: seq<byte>, x: Transfer, crcOf: seq<byte> -> uint32, a: System, st: SystemStep)
    requires TransferOk(x) && |file| == x.totalSize && SystemOk(file, x, a) && Enabled(file, a, st)
    requires BooksMatch(x, a.s) && NoRefusal(x, a.s)
    ensures NoRefusal(x, Apply(a, st, x, crcOf).s)
  {
    hide HandleChunk, RxOk, CountOk, MasterOk, Step, JudgeEnd;
    if st.DeliverFrame? && st.n < |a.m.sent| {
      var f := a.m.sent[st.n];
      FrameOfSystem(file, x, a, st.n);
      if f.Chunk? {
        ChunkRefusedExactly(file, x, a.s, f, st.now);
        ChunkStep(file, x, a.s, f, st.now);
      }
    }
    hide ImageChunk;
  }

  /**
   Loss, repetition and reordering never make the slave refuse an offset: in every run that does not close the session
   under the books, it accepts every chunk of the transfer it keeps books of, in any order.
  */
  lemma {:induction false} LossNeverRefuses(file: seq<byte>, x: Transfer, crcOf: seq<byte> -> uint32, a: System,
                                            steps: seq<SystemStep>)
    requires TransferOk(x) && |file| == x.totalSize && SystemOk(file, x, a) && Legal(file, x, crcOf, a, steps)
    requires x.reqId != 0 && BooksMatch(x, a.s) && NoRefusal(x, a.s) && KeepsSession(file, x, crcOf, a, steps)
    ensures var b := Run(file, x, crcOf, a, steps); BooksMatch(x, b.s) && NoRefusal(x, b.s)
    decreases |steps|
  {
    hide SystemOk, NoRefusal, BooksMatch, DropsSession, HandleFrame, Step, Apply;
    if steps != [] {
      StepKeepsSystem(file, x, crcOf, a, steps[0]);
      BooksPartExactly(file, x, crcOf, a, steps[0]);
      StepMeetsNoRefusal(file, x, crcOf, a, steps[0]);
      LossNeverRefuses(file, x, crcOf, Apply(a, steps[0], x, crcOf), steps[1..]);
    }
  }
}
