/**
 What a refusal does to the sender: it goes back to the refused offset and sends the one chunk there, again and again if
 need be, and nothing else, until that chunk has been acknowledged; then full windows return.
*/
module OtaRecovery {
  import opened FixedWidth
  import opened OtaSender
  import opened OtaSenderSafety

  /** A report of the open transfer. */
  predicate IsOwn(m: Master, i: Input, kind: StatusKind) {
    i.Remote? && i.kind == kind && i.corr == m.push.x.reqId
  }

  ghost predicate IsStreaming(m: Master) {
    m.push.active && SessionOk(m.push) && m.push.phase == Streaming
  }

  /**
   A refusal at an offset takes the sender there, no further back than what is acknowledged and no further ahead than
   what it has sent. It waits for nothing, has no window open, counts everything before as acknowledged, and pauses for
   20 milliseconds; it sends nothing, raises no event, and leaves the rest of the session alone.
  */
  lemma RefusalRewinds(m: Master, i: Input)
    requires IsStreaming(m) && IsOwn(m, i, ChunkNack)
    ensures var (w, m') := (m.push.w, Step(m, i));
            var r := m'.push.w.next;
            && w.remoteAcked <= r <= m.push.x.totalSize
            && (i.offset <= w.remoteAcked || w.next <= w.remoteAcked ==> r == w.remoteAcked)
            && (w.remoteAcked <= i.offset <= w.next ==> r == i.offset)
            && (w.remoteAcked <= w.next <= i.offset ==> r == w.next)
            && m'.push.w.remoteAcked == r && !m'.push.w.waiting && m'.push.w.pendingEnd == 0
            && m'.push.t == m.push.t.(lastActivity := i.now, nextSend := Wrap32(i.now + 20))
            && m'.push == m.push.(w := m'.push.w, t := m'.push.t)
            && m'.sent == m.sent && m'.events == m.events && m'.update == m.update
  {
    hide Multiple;
  }

  /** The end of the chunk at `r`. */
  function ChunkEnd(x: Transfer, r: nat): nat {
    Min(r + x.chunkBytes, x.totalSize)
  }

  /** The one chunk that is sent while the sender recovers at `r`. */
  ghost function RefusedChunk(file: seq<byte>, x: Transfer, r: nat): Frame
    requires |file| == x.totalSize < TWO_TO_THE_32 && r < x.totalSize
  {
    Chunk(x.reqId, r, file[r..ChunkEnd(x, r)])
  }

  /** The sender stands at `r`, with the chunk there to send, or sent and waited for. */
  ghost predicate RecoversAt(p: PushSession, r: nat) {
    && SessionOk(p) && p.phase == Streaming && p.w.chunks == 1 && r == p.w.remoteAcked < p.x.totalSize
    && p.w.recoveryUntil == ChunkEnd(p.x, r)
    && (p.w.next == r ==> !p.w.waiting && (p.w.pendingEnd == 0 || p.w.pendingEnd == ChunkEnd(p.x, r)))
    && (p.w.next != r ==> p.w.waiting && p.w.next == p.w.pendingEnd == ChunkEnd(p.x, r))
  }

  /** So stands every refused sender that does not have everything acknowledged. */
  lemma RefusalStartsRecovery(m: Master, i: Input)
    requires IsStreaming(m) && IsOwn(m, i, ChunkNack) && Step(m, i).push.w.next < m.push.x.totalSize
    ensures var p := Step(m, i).push; p.active && RecoversAt(p, p.w.next)
  {
    NackKeeps(m.push.(t := m.push.t.(lastActivity := i.now)), i.now, i.offset);
    hide Multiple;
  }

  // ---------------------------------------------------------------- what is sent meanwhile

  /** Of the frames added, every chunk is `f`. */
  ghost predicate OnlyChunk(sent: seq<Frame>, sent': seq<Frame>, f: Frame) {
    sent <= sent' && forall i :: |sent| <= i < |sent'| && sent'[i].Chunk? ==> sent'[i] == f
  }

  ghost predicate SendsNow(m: Master, i: Input) {
    && i.Tick? && i.env.bound && i.env.paired && |i.env.io| == CHUNK_BUDGET_PER_TICK
    && Elapsed(i.now, m.push.t.nextSend) >= 0 && i.env.io[0].Read? && i.env.io[0].sendOk
  }

  lemma OneChunkWindow(p: PushSession, r: nat)
    requires RecoversAt(p, r) && p.active && p.w.next == r
    ensures var p' := OpenWindow(p); p' == p.(w := p.w.(pendingEnd := ChunkEnd(p.x, r)))
  {
    hide Multiple;
    assert p.x.chunkBytes * p.w.chunks == p.x.chunkBytes;
  }

  /** The loop sends the one chunk of the window if storage and radio let it, and nothing otherwise. */
  lemma {:induction false} OneChunkLoop(file: seq<byte>, p: PushSession, r: nat, now: uint32, io: seq<ChunkIo>)
    requires p.active && TransferOk(p.x) && |file| == p.x.totalSize && |io| == CHUNK_BUDGET_PER_TICK
    requires p.w.next == r < p.x.totalSize && p.w.pendingEnd == ChunkEnd(p.x, r) && ReadsInFull(file, p.x, r, io, 0)
    ensures var loop := SendLoop(p, now, io, 0);
            && (io[0].Read? && io[0].sendOk ==>
                  loop == (AfterChunk(p, ChunkLen(p.x, r)), [RefusedChunk(file, p.x, r)], Drained))
            && (!(io[0].Read? && io[0].sendOk) ==>
                  && loop.1 == [] && !loop.2.Drained?
                  && loop.0 == p.(sendFailStreak := loop.0.sendFailStreak, t := loop.0.t))
  {
    if io[0].Read? && io[0].sendOk {
      var p1 := AfterChunk(p, ChunkLen(p.x, r));
      assert p1.w.next == ChunkEnd(p.x, r);
      assert SendLoop(p1, now, io, 1) == (p1, [], Drained);
      assert ChunkData(p, io[0].data) == io[0].data;
      assert [RefusedChunk(file, p.x, r)] + [] == [RefusedChunk(file, p.x, r)];
    }
  }

  lemma StopSendsNoChunk(m: Master, now: uint32, status: Status, code: uint16, env: PumpEnv, f: Frame)
    ensures var m' := StopPush(m, now, false, status, code, env);
            OnlyChunk(m.sent, m'.sent, f) && (m.push.active ==> !m'.push.active)
  {
  }

  lemma PumpIsWindow(m: Master, i: Input, r: nat)
    requires m.push.active && RecoversAt(m.push, r) && m.push.w.next == r && i.Tick?
    requires |i.env.io| == CHUNK_BUDGET_PER_TICK
    ensures i.env.bound && i.env.paired ==>
              Step(m, i) == if Elapsed(i.now, m.push.t.nextSend) < 0 then m else PumpWindow(m, i.now, i.env)
    ensures !(i.env.bound && i.env.paired) ==>
              exists status, code :: Step(m, i) == StopPush(m, i.now, false, status, code, i.env)
  {
    hide PumpWindow, StopPush, Multiple, Elapsed;
    assert !i.env.bound ==> Step(m, i) == StopPush(m, i.now, false, UnsupportedCommand, 0, i.env);
    assert i.env.bound && !i.env.paired ==> Step(m, i) == StopPush(m, i.now, false, NotPaired, 0, i.env);
  }

  lemma {:induction false} WindowSendsOne(file: seq<byte>, m: Master, i: Input, r: nat)
    requires m.push.active && RecoversAt(m.push, r) && m.push.w.next == r && i.Tick? && GoodInput(file, m, i)
    ensures |file| == m.push.x.totalSize
    ensures var (m', c) := (PumpWindow(m, i.now, i.env), RefusedChunk(file, m.push.x, r));
            var goes := i.env.io[0].Read? && i.env.io[0].sendOk;
            && (goes ==> m'.sent == m.sent + [c] && m'.push.active && m'.push.w.waiting)
            && (!goes ==> OnlyChunk(m.sent, m'.sent, c))
            && (!goes && m'.push.active ==> m'.sent == m.sent && m'.push.w.next == r)
            && (m'.push.active ==>
                  && m'.push.x == m.push.x && m'.push.phase == Streaming
                  && m'.push.w == m.push.w.(next := m'.push.w.next, waiting := m'.push.w.waiting,
                                            pendingEnd := ChunkEnd(m.push.x, r), retryCount := m'.push.w.retryCount)
                  && (m'.push.w.waiting <==> goes) && m'.push.w.next == (if goes then ChunkEnd(m.push.x, r) else r))
  {
    hide SendLoop, StopPush, Multiple, ReadsInFull, Elapsed, OpenWindow, LengthsInFull;
    OneChunkWindow(m.push, r);
    var p := OpenWindow(m.push);
    OneChunkLoop(file, p, r, i.now, i.env.io);
    var (p', frames, exit) := SendLoop(p, i.now, i.env.io, 0);
    if exit.Failed? {
      StopSendsNoChunk(m.(push := p', sent := m.sent + frames), i.now, exit.status, exit.code, i.env,
                       RefusedChunk(file, m.push.x, r));
    }
  }

  lemma ChunkHasBytes(p: PushSession, r: nat)
    requires p.active && RecoversAt(p, r)
    ensures r < ChunkEnd(p.x, r) < TWO_TO_THE_32 && r < p.x.totalSize
  {
    hide Multiple;
  }

  /** A tick at the refused offset: exactly the chunk there goes out, once, or none. */
  lemma RecoveryTick(file: seq<byte>, m: Master, i: Input, r: nat)
    requires m.push.active && RecoversAt(m.push, r) && m.push.w.next == r && i.Tick? && GoodInput(file, m, i)
    ensures |file| == m.push.x.totalSize
    ensures var m' := Step(m, i);
            && (SendsNow(m, i) ==>
                  && m'.sent == m.sent + [RefusedChunk(file, m.push.x, r)] && m'.push.active && m'.push.w.waiting)
            && (!SendsNow(m, i) ==> OnlyChunk(m.sent, m'.sent, RefusedChunk(file, m.push.x, r)))
            && (!SendsNow(m, i) && m'.push.active ==> m'.sent == m.sent && m'.push.w.next == r)
            && (m'.push.active ==> RecoversAt(m'.push, r) && m'.push.x == m.push.x)
  {
    hide Step, PumpWindow, StopPush, Multiple, Elapsed, SessionOk, ReadsInFull;
    StepKeepsSession(file, m, i);
    PumpIsWindow(m, i, r);
    WindowSendsOne(file, m, i, r);
    ChunkHasBytes(m.push, r);
    if !(i.env.bound && i.env.paired) {
      var status, code :| Step(m, i) == StopPush(m, i.now, false, status, code, i.env);
      StopSendsNoChunk(m, i.now, status, code, i.env, RefusedChunk(file, m.push.x, r));
    }
  }

  /** While the chunk's acknowledgement is awaited nothing is sent; after 450 milliseconds the chunk is sent again. */
  lemma RecoveryWaits(m: Master, i: Input, r: nat)
    requires m.push.active && RecoversAt(m.push, r) && m.push.w.waiting
    requires i.Tick? && |i.env.io| == CHUNK_BUDGET_PER_TICK && i.env.bound && i.env.paired
    ensures var m' := Step(m, i);
            && m'.sent == m.sent && m'.push.active && RecoversAt(m'.push, r) && m'.push.x == m.push.x
            && (m'.push.w.waiting <==> Elapsed(i.now, m.push.t.waitStarted) < 450)
  {
    ChunkHasBytes(m.push, r);
    hide Multiple, StopPush, Elapsed;
  }

  /** A report that names nothing new: an acknowledgement changes nothing, a refusal starts over. */
  lemma RecoveryHears(m: Master, i: Input, r: nat)
    requires m.push.active && RecoversAt(m.push, r) && !i.Tick? && Named(m, i) <= r
    ensures var m' := Step(m, i); m'.push.active && RecoversAt(m'.push, r) && m'.push.x == m.push.x
    ensures forall f :: OnlyChunk(m.sent, Step(m, i).sent, f)
  {
    ChunkHasBytes(m.push, r);
    hide Multiple, Elapsed;
  }

  // ---------------------------------------------------------------- whole runs

  /** The inputs come with full reads, and none names an offset beyond `r` to the open transfer. */
  ghost predicate NothingBeyond(file: seq<byte>, m: Master, inputs: seq<Input>, r: nat)
    decreases |inputs|
  {
    inputs != [] ==>
      && GoodInput(file, m, inputs[0]) && (m.push.active ==> Named(m, inputs[0]) <= r)
      && NothingBeyond(file, Step(m, inputs[0]), inputs[1..], r)
  }

  ghost function After(file: seq<byte>, m: Master, inputs: seq<Input>, r: nat): Master
    requires NothingBeyond(file, m, inputs, r)
    decreases |inputs|
  {
    if inputs == [] then m else After(file, Step(m, inputs[0]), inputs[1..], r)
  }

  lemma ClosedSendsNothing(m: Master, i: Input)
    requires !m.push.active && (i.Tick? ==> |i.env.io| == CHUNK_BUDGET_PER_TICK)
    ensures !Step(m, i).push.active && Step(m, i).sent == m.sent
  {
  }

  lemma RecoveryStep(file: seq<byte>, m: Master, i: Input, r: nat)
    requires m.push.active && RecoversAt(m.push, r) && |file| == m.push.x.totalSize
    requires GoodInput(file, m, i) && Named(m, i) <= r
    ensures var (m', c) := (Step(m, i), RefusedChunk(file, m.push.x, r));
            OnlyChunk(m.sent, m'.sent, c) && (m'.push.active ==> RecoversAt(m'.push, r) && m'.push.x == m.push.x)
  {
    hide Step, RecoversAt, Multiple, ReadsInFull;
    ChunkHasBytes(m.push, r);
    if !i.Tick? {
      RecoveryHears(m, i, r);
    } else if m.push.w.next == r {
      RecoveryTick(file, m, i, r);
    } else {
      WaitsForChunk(m.push, r);
      if i.env.bound && i.env.paired {
        RecoveryWaits(m, i, r);
      } else {
        CutOffSendsNoChunk(m, i, RefusedChunk(file, m.push.x, r));
      }
    }
  }

  lemma WaitsForChunk(p: PushSession, r: nat)
    requires RecoversAt(p, r) && p.w.next != r
    ensures p.w.waiting
  {
  }

  lemma CutOffSendsNoChunk(m: Master, i: Input, f: Frame)
    requires m.push.active && i.Tick? && |i.env.io| == CHUNK_BUDGET_PER_TICK && !(i.env.bound && i.env.paired)
    ensures OnlyChunk(m.sent, Step(m, i).sent, f) && !Step(m, i).push.active
  {
    StopSendsNoChunk(m, i.now, UnsupportedCommand, 0, i.env, f);
    StopSendsNoChunk(m, i.now, NotPaired, 0, i.env, f);
    hide StopPush;
  }

  /**
   In every run after a refusal, whatever is lost, repeated or late: as long as nothing beyond the refused offset is
   named to the sender, every chunk it sends is the one chunk there.
  */
  lemma {:induction false} RecoverySendsOneChunk(file: seq<byte>, m: Master, inputs: seq<Input>, r: nat)
    requires m.push.active && RecoversAt(m.push, r) && |file| == m.push.x.totalSize
    requires NothingBeyond(file, m, inputs, r)
    ensures var m' := After(file, m, inputs, r);
            OnlyChunk(m.sent, m'.sent, RefusedChunk(file, m.push.x, r)) && (m'.push.active ==> RecoversAt(m'.push, r))
    decreases |inputs|
  {
    hide Step, RecoversAt, ReadsInFull;
    if inputs != [] {
      RecoveryStep(file, m, inputs[0], r);
      var m1 := Step(m, inputs[0]);
      if m1.push.active {
        RecoverySendsOneChunk(file, m1, inputs[1..], r);
      } else {
        ClosedRunSendsNothing(file, m1, inputs[1..], r);
      }
    }
  }

  lemma {:induction false} ClosedRunSendsNothing(file: seq<byte>, m: Master, inputs: seq<Input>, r: nat)
    requires !m.push.active && NothingBeyond(file, m, inputs, r)
    ensures var m' := After(file, m, inputs, r); !m'.push.active && m'.sent == m.sent
    decreases |inputs|
  {
    hide Step, ReadsInFull;
    if inputs != [] {
      ClosedSendsNothing(m, inputs[0]);
      ClosedRunSendsNothing(file, Step(m, inputs[0]), inputs[1..], r);
    }
  }

  // ---------------------------------------------------------------- and how it ends

  /** Full windows return at exactly one input: an acknowledgement of the chunk, or of more. */
  lemma FullWindowsReturnExactly(file: seq<byte>, m: Master, i: Input, r: nat)
    requires m.push.active && RecoversAt(m.push, r) && |file| == m.push.x.totalSize && GoodInput(file, m, i)
    requires Step(m, i).push.active
    ensures Step(m, i).push.w.chunks == 16 <==> IsOwn(m, i, ChunkAck) && i.offset >= ChunkEnd(m.push.x, r)
    ensures Step(m, i).push.w.chunks != 16 ==> Step(m, i).push.w.chunks == 1
  {
    ChunkHasBytes(m.push, r);
    if i.Tick? {
      RecoveryStep(file, m, i, r);
    }
    hide Multiple, Elapsed, PumpPush, ReadsInFull;
  }

  /** It also ends the wait for the chunk. */
  lemma AckEndsRecovery(m: Master, i: Input, r: nat)
    requires m.push.active && RecoversAt(m.push, r) && m.push.w.waiting
    requires IsOwn(m, i, ChunkAck) && ChunkEnd(m.push.x, r) <= i.offset <= m.push.x.totalSize
    ensures var p := Step(m, i).push;
            && p.active && p.phase == Streaming && Step(m, i).sent == m.sent
            && p.w == Window(ChunkEnd(m.push.x, r), 0, false, 0, 16, i.offset, 0)
  {
    ChunkHasBytes(m.push, r);
    hide Multiple;
  }

  /** The next tick that sends opens a window of sixteen chunks. */
  lemma {:induction false} FullWindowOpens(file: seq<byte>, m: Master, i: Input)
    requires IsStreaming(m) && !m.push.w.waiting && m.push.w.pendingEnd == 0 && m.push.w.chunks == 16
    requires m.push.w.next < m.push.x.totalSize && SendsNow(m, i) && GoodInput(file, m, i)
    ensures var m' := Step(m, i);
            m'.push.active ==>
              && m'.push.w.pendingEnd == Min(m.push.w.next + 16 * m.push.x.chunkBytes, m.push.x.totalSize)
              && m.push.w.next < m'.push.w.next <= m'.push.w.pendingEnd
  {
    hide Step, SendLoop, StopPush, Multiple, ReadsInFull, LengthsInFull, Elapsed, OpenWindow, PumpWindow;
    OpenWindowKeeps(m.push);
    OpensFull(m.push);
    PumpsWindow(m, i);
    var p := OpenWindow(m.push);
    ReadsHaveLengths(file, p.x, p.w.next, i.env.io, 0);
    SendLoopKeeps(p, i.now, i.env.io, 0);
    FirstChunkGoes(file, p, i.now, i.env.io);
    KeepsLoopWindow(m, i);
  }

  lemma OpensFull(p: PushSession)
    requires SessionOk(p) && p.active && p.w.pendingEnd == 0 && p.w.chunks == 16
    ensures OpenWindow(p).w.pendingEnd == Min(p.w.next + 16 * p.x.chunkBytes, p.x.totalSize)
  {
    hide Multiple;
    assert p.x.chunkBytes * p.w.chunks == 16 * p.x.chunkBytes;
  }

  lemma PumpsWindow(m: Master, i: Input)
    requires IsStreaming(m) && !m.push.w.waiting && m.push.w.next < m.push.x.totalSize && SendsNow(m, i)
    ensures Step(m, i) == PumpWindow(m, i.now, i.env)
  {
    hide PumpWindow, Multiple, Elapsed;
  }

  lemma KeepsLoopWindow(m: Master, i: Input)
    requires i.Tick? && |i.env.io| == CHUNK_BUDGET_PER_TICK
    ensures var (w, w') := (SendLoop(OpenWindow(m.push), i.now, i.env.io, 0).0.w, PumpWindow(m, i.now, i.env).push.w);
            PumpWindow(m, i.now, i.env).push.active ==> w'.next == w.next && w'.pendingEnd == w.pendingEnd
  {
    hide SendLoop, OpenWindow;
  }

  lemma {:induction false} FirstChunkGoes(file: seq<byte>, p: PushSession, now: uint32, io: seq<ChunkIo>)
    requires TransferOk(p.x) && WindowInRange(p.x, p.w) && WindowReachable(p.x, p.w) && |file| == p.x.totalSize
    requires p.w.next < p.w.pendingEnd && |io| == CHUNK_BUDGET_PER_TICK && ReadsInFull(file, p.x, p.w.next, io, 0)
    requires io[0].Read? && io[0].sendOk
    ensures SendLoop(p, now, io, 0).0.w.next > p.w.next
  {
    ReadsHaveLengths(file, p.x, p.w.next, io, 0);
    AfterChunkKeeps(p);
    var p1 := AfterChunk(p, ChunkLen(p.x, p.w.next));
    LoopMovesOn(p1, now, io, 1);
    assert ChunkData(p, io[0].data) == io[0].data;
    hide Multiple;
  }

  lemma {:induction false} LoopMovesOn(p: PushSession, now: uint32, io: seq<ChunkIo>, k: nat)
    requires k <= CHUNK_BUDGET_PER_TICK == |io|
    requires TransferOk(p.x) && WindowInRange(p.x, p.w) && WindowReachable(p.x, p.w) && p.w.pendingEnd != 0
    requires LengthsInFull(p.x, p.w.next, io, k)
    ensures SendLoop(p, now, io, k).0.w.next >= p.w.next
    decreases CHUNK_BUDGET_PER_TICK - k
  {
    if k < CHUNK_BUDGET_PER_TICK && p.w.next < p.w.pendingEnd && io[k].Read? && io[k].data != [] && io[k].sendOk {
      AfterChunkKeeps(p);
      LoopMovesOn(AfterChunk(p, |io[k].data|), now, io, k + 1);
    }
    hide Multiple;
  }

  // ---------------------------------------------------------------- silence

  /**
   A window that is not acknowledged in time, 1500 milliseconds or 450 for a single chunk, is given up exactly then: the
   sender goes back to what is acknowledged, and pauses for 12 milliseconds.
  */
  lemma SilenceRewinds(m: Master, i: Input)
    requires IsStreaming(m) && m.push.w.waiting && m.push.w.remoteAcked < m.push.w.pendingEnd
    requires i.Tick? && |i.env.io| == CHUNK_BUDGET_PER_TICK && i.env.bound && i.env.paired
    ensures var m' := Step(m, i);
            var late := Elapsed(i.now, m.push.t.waitStarted) >= (if m.push.w.chunks == 1 then 450 else 1500);
            && (!late ==> m' == m)
            && (late ==>
                  && m'.push.active && m'.push.w.next == m.push.w.remoteAcked && !m'.push.w.waiting
                  && m'.push.w.pendingEnd == 0 && m'.push.w.remoteAcked == m.push.w.remoteAcked
                  && m'.push.w.chunks == m.push.w.chunks && m'.push.w.recoveryUntil == m.push.w.recoveryUntil
                  && m'.push.t == m.push.t.(nextSend := Wrap32(i.now + 12))
                  && m'.sent == m.sent && m'.events == m.events)
  {
    hide Multiple, Elapsed, StopPush;
  }
}
