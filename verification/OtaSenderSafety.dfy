/**
 What every step of the sender keeps, for any order of acknowledgements, rewinds, timeouts and send
 failures, and what therefore holds whenever the end-of-image frame goes out.
*/
module OtaSenderSafety {
  import opened FixedWidth
  import opened OtaSender

  // ---------------------------------------------------------------- whole numbers of chunks

  /** `a` is a whole number of steps of `c`, counted down step by step. */
  ghost predicate Multiple(c: nat, a: nat)
    requires c > 0
  {
    a == 0 || (a >= c && Multiple(c, a - c))
  }

  lemma {:induction false} MultipleTimes(c: nat, k: nat)
    requires c > 0
    ensures c * k >= 0 && Multiple(c, c * k)
  {
    if k > 0 {
      MultipleTimes(c, k - 1);
      assert c * k - c == c * (k - 1);
    }
  }

  lemma {:induction false} MultipleQuotient(c: nat, a: nat) returns (k: nat)
    requires c > 0 && Multiple(c, a)
    ensures a == c * k
  {
    if a == 0 {
      k := 0;
    } else {
      var j := MultipleQuotient(c, a - c);
      k := j + 1;
    }
  }

  // ---------------------------------------------------------------- the invariant

  ghost predicate TransferOk(x: Transfer) {
    0 < x.totalSize < TWO_TO_THE_31 && x.chunkBytes > 0
  }

  ghost predicate WindowInRange(x: Transfer, w: Window) {
    && (w.chunks == RECOVERY_WINDOW_CHUNKS || w.chunks == FULL_WINDOW_CHUNKS)
    && w.remoteAcked <= x.totalSize
    && w.retryCount <= (if w.waiting then 0 else 1)
    && w.next <= x.totalSize
    && w.pendingEnd <= x.totalSize
  }

  /** A pending window ends a whole number of chunks ahead, or at the end of the image. */
  ghost predicate WindowReachable(x: Transfer, w: Window)
    requires x.chunkBytes > 0
  {
    w.pendingEnd != 0 ==>
      w.next <= w.pendingEnd && (w.pendingEnd == x.totalSize || Multiple(x.chunkBytes, w.pendingEnd - w.next))
  }

  /** While it waits, the whole window is out; otherwise nothing unacknowledged lies behind a closed window. */
  ghost predicate WindowSettled(w: Window) {
    && (w.waiting ==> w.pendingEnd != 0 && w.next == w.pendingEnd)
    && (!w.waiting ==> w.next <= w.remoteAcked || w.next < w.pendingEnd)
  }

  ghost predicate PhaseOk(p: PushSession) {
    && p.phase != Idle
    && (p.phase == WaitBegin <==> !p.beginAcked)
    && (p.phase == WaitBegin ==> p.w.next == 0 && p.w.pendingEnd == 0 && !p.w.waiting)
    && (p.phase == WaitEnd ==> p.w.remoteAcked == p.x.totalSize)
    && p.sendFailStreak < MAX_SEND_FAIL_STREAK
  }

  ghost predicate SessionOk(p: PushSession) {
    p.active ==>
      TransferOk(p.x) && WindowInRange(p.x, p.w) && WindowReachable(p.x, p.w) && WindowSettled(p.w) && PhaseOk(p)
  }

  // ---------------------------------------------------------------- premises on the environment

  function ChunkLen(x: Transfer, offset: nat): nat
    requires offset < x.totalSize
  {
    Min(x.chunkBytes, x.totalSize - offset)
  }

  /** From iteration `k` on, every read of the loop returns all the bytes the pump asks for. */
  ghost predicate ReadsInFull(file: seq<byte>, x: Transfer, next: nat, io: seq<ChunkIo>, k: nat)
    requires k <= CHUNK_BUDGET_PER_TICK == |io| && |file| == x.totalSize
    decreases CHUNK_BUDGET_PER_TICK - k
  {
    k < CHUNK_BUDGET_PER_TICK && next < x.totalSize && io[k].Read? ==>
      && io[k].data == file[next..next + ChunkLen(x, next)]
      && ReadsInFull(file, x, next + ChunkLen(x, next), io, k + 1)
  }

  /** The same premise with the lengths alone. */
  ghost predicate LengthsInFull(x: Transfer, next: nat, io: seq<ChunkIo>, k: nat)
    requires k <= CHUNK_BUDGET_PER_TICK == |io|
    decreases CHUNK_BUDGET_PER_TICK - k
  {
    k < CHUNK_BUDGET_PER_TICK && next < x.totalSize && io[k].Read? ==>
      |io[k].data| == ChunkLen(x, next) && LengthsInFull(x, next + ChunkLen(x, next), io, k + 1)
  }

  lemma {:induction false} ReadsHaveLengths(file: seq<byte>, x: Transfer, next: nat, io: seq<ChunkIo>, k: nat)
    requires k <= CHUNK_BUDGET_PER_TICK == |io| && |file| == x.totalSize
    requires ReadsInFull(file, x, next, io, k)
    ensures LengthsInFull(x, next, io, k)
    decreases CHUNK_BUDGET_PER_TICK - k
  {
    if k < CHUNK_BUDGET_PER_TICK && next < x.totalSize && io[k].Read? {
      ReadsHaveLengths(file, x, next + ChunkLen(x, next), io, k + 1);
    }
  }

  // ---------------------------------------------------------------- the send loop

  /** One successful iteration stays inside the window. */
  lemma AfterChunkKeeps(p: PushSession)
    requires TransferOk(p.x) && WindowInRange(p.x, p.w) && WindowReachable(p.x, p.w)
    requires p.w.pendingEnd != 0 && p.w.next < p.w.pendingEnd
    ensures var p' := AfterChunk(p, ChunkLen(p.x, p.w.next));
            && p'.w == p.w.(next := p.w.next + ChunkLen(p.x, p.w.next))
            && WindowInRange(p.x, p'.w) && WindowReachable(p.x, p'.w)
  {
  }

  /** `n` consecutive chunks of the image from `next` on, and where they end. */
  ghost function ImageRun(file: seq<byte>, x: Transfer, next: nat, n: nat): (seq<Frame>, nat)
    requires |file| == x.totalSize
    decreases n
  {
    if n == 0 || next >= x.totalSize then ([], next)
    else
      var (rest, end) := ImageRun(file, x, next + ChunkLen(x, next), n - 1);
      ([Chunk(x.reqId, next, file[next..next + ChunkLen(x, next)])] + rest, end)
  }

  lemma {:induction false} SendLoopKeeps(p: PushSession, now: uint32, io: seq<ChunkIo>, k: nat)
    requires k <= CHUNK_BUDGET_PER_TICK == |io|
    requires TransferOk(p.x) && WindowInRange(p.x, p.w) && WindowReachable(p.x, p.w) && p.w.pendingEnd != 0
    requires LengthsInFull(p.x, p.w.next, io, k)
    ensures var (p', frames, exit) := SendLoop(p, now, io, k);
            && p'.w == p.w.(next := p'.w.next)
            && WindowInRange(p.x, p'.w) && WindowReachable(p.x, p'.w)
            && (exit.BackedOff? ==> p'.w.next < p'.w.pendingEnd)
    decreases CHUNK_BUDGET_PER_TICK - k
  {
    if k < CHUNK_BUDGET_PER_TICK && p.w.next < p.w.pendingEnd && io[k].Read? && io[k].data != [] && io[k].sendOk {
      AfterChunkKeeps(p);
      SendLoopKeeps(AfterChunk(p, |io[k].data|), now, io, k + 1);
    }
  }

  /** The loop leaves the rest of the session alone. */
  lemma {:induction false} SendLoopFrame(p: PushSession, now: uint32, io: seq<ChunkIo>, k: nat)
    requires k <= CHUNK_BUDGET_PER_TICK == |io|
    ensures var (p', frames, exit) := SendLoop(p, now, io, k);
            && p'.x == p.x && p'.active == p.active && p'.phase == p.phase && p'.beginAcked == p.beginAcked
            && (p.sendFailStreak < MAX_SEND_FAIL_STREAK && !exit.Failed? ==> p'.sendFailStreak < MAX_SEND_FAIL_STREAK)
    decreases CHUNK_BUDGET_PER_TICK - k
  {
    if k < CHUNK_BUDGET_PER_TICK && p.w.next < p.x.totalSize && p.w.next < p.w.pendingEnd
       && io[k].Read? && io[k].data != [] && io[k].sendOk {
      SendLoopFrame(AfterChunk(p, |ChunkData(p, io[k].data)|), now, io, k + 1);
    }
  }

  ghost predicate Succeeds(p: PushSession, io: seq<ChunkIo>, k: nat)
    requires k <= CHUNK_BUDGET_PER_TICK == |io|
  {
    k < CHUNK_BUDGET_PER_TICK && p.w.next < p.x.totalSize && p.w.next < p.w.pendingEnd
    && io[k].Read? && io[k].data != [] && io[k].sendOk
  }

  lemma SendLoopUnfold(file: seq<byte>, p: PushSession, now: uint32, io: seq<ChunkIo>, k: nat)
    requires k <= CHUNK_BUDGET_PER_TICK == |io|
    requires TransferOk(p.x) && p.w.next <= |file| == p.x.totalSize && ReadsInFull(file, p.x, p.w.next, io, k)
    ensures !Succeeds(p, io, k) ==> SendLoop(p, now, io, k).1 == [] && SendLoop(p, now, io, k).0.w.next == p.w.next
    ensures Succeeds(p, io, k) ==>
              var p' := AfterChunk(p, ChunkLen(p.x, p.w.next));
              var r, r' := SendLoop(p, now, io, k), SendLoop(p', now, io, k + 1);
              && p'.x == p.x && p'.w.next == p.w.next + ChunkLen(p.x, p.w.next)
              && ReadsInFull(file, p.x, p'.w.next, io, k + 1)
              && r.1 == [Chunk(p.x.reqId, p.w.next, file[p.w.next..p'.w.next])] + r'.1
              && r.0 == r'.0
  {
  }

  lemma {:induction false} SendLoopFrames(file: seq<byte>, p: PushSession, now: uint32, io: seq<ChunkIo>, k: nat)
    requires k <= CHUNK_BUDGET_PER_TICK == |io|
    requires TransferOk(p.x) && p.w.next <= |file| == p.x.totalSize && ReadsInFull(file, p.x, p.w.next, io, k)
    ensures var r := SendLoop(p, now, io, k);
            (r.1, r.0.w.next as nat) == ImageRun(file, p.x, p.w.next, |r.1|)
    decreases CHUNK_BUDGET_PER_TICK - k
  {
    hide SendLoop, ReadsInFull, AfterChunk;
    SendLoopUnfold(file, p, now, io, k);
    if Succeeds(p, io, k) {
      SendLoopFrames(file, AfterChunk(p, ChunkLen(p.x, p.w.next)), now, io, k + 1);
    }
  }

  // ---------------------------------------------------------------- one step of the sender

  /** Anything that can reach the sender: a pump tick, a remote status, a remote event, the update's own pump. */
  datatype Input =
    | Tick(now: uint32, env: PumpEnv)
    | Remote(now: uint32, corr: uint32, kind: StatusKind, offset: uint32, code: uint16, env: PumpEnv)
    | Ready(now: uint32, peer: nat, corr: uint32, env: PumpEnv)
    | BootComplete(peer: nat)
    | UpdateTick(now: uint32, paired: bool)

  function Step(m: Master, i: Input): Master
    requires i.Tick? ==> |i.env.io| == CHUNK_BUDGET_PER_TICK
  {
    match i
    case Tick(now, env) => PumpPush(m, now, env)
    case Remote(now, corr, kind, offset, code, env) => OnStatus(m, now, corr, kind, offset, code, env)
    case Ready(now, peer, corr, env) => OnTransferReady(m, now, peer, corr, env)
    case BootComplete(peer) => OnBootComplete(m, peer)
    case UpdateTick(now, paired) => PumpUpdate(m, now, paired)
  }

  /**
   The premises on one input: the storage returns what it is asked for, and a positive acknowledgement of
   this transfer names an offset inside the image. Negative ones may name anything.
  */
  ghost predicate GoodInput(file: seq<byte>, m: Master, i: Input) {
    && (i.Tick? ==> |i.env.io| == CHUNK_BUDGET_PER_TICK)
    && (i.Tick? && m.push.active ==>
          |file| == m.push.x.totalSize && ReadsInFull(file, m.push.x, m.push.w.next, i.env.io, 0))
    && (i.Remote? && m.push.active && i.corr == m.push.x.reqId && i.kind.ChunkAck? ==> i.offset <= m.push.x.totalSize)
  }

  lemma StoppedIsOk(m: Master, now: uint32, success: bool, status: Status, code: uint16, env: PumpEnv)
    ensures SessionOk(StopPush(m, now, success, status, code, env).push)
    ensures !StopPush(m, now, success, status, code, env).push.active
  {
  }

  lemma OpenWindowKeeps(p: PushSession)
    requires p.active && SessionOk(p) && p.phase == Streaming && !p.w.waiting && p.w.next < p.x.totalSize
    ensures var p' := OpenWindow(p);
            && p' == p.(w := p.w.(pendingEnd := p'.w.pendingEnd))
            && WindowInRange(p.x, p'.w) && WindowReachable(p.x, p'.w)
            && p'.w.next < p'.w.pendingEnd
  {
    MultipleTimes(p.x.chunkBytes, p.w.chunks);
    WindowBytes(p.x.chunkBytes, p.w.chunks);
  }

  lemma WindowBytes(c: uint16, w: nat)
    requires c > 0 && (w == RECOVERY_WINDOW_CHUNKS || w == FULL_WINDOW_CHUNKS)
    ensures 0 < c * w < 0x10_0000
  {
    if w == FULL_WINDOW_CHUNKS {
      assert c * w == c * 16;
    } else {
      assert c * w == c;
    }
  }

  lemma PumpWindowKeeps(file: seq<byte>, m: Master, now: uint32, env: PumpEnv)
    requires m.push.active && SessionOk(m.push) && m.push.phase == Streaming && !m.push.w.waiting
    requires m.push.w.next < m.push.x.totalSize == |file|
    requires |env.io| == CHUNK_BUDGET_PER_TICK && LengthsInFull(m.push.x, m.push.w.next, env.io, 0)
    ensures SessionOk(PumpWindow(m, now, env).push)
  {
    OpenWindowKeeps(m.push);
    var p := OpenWindow(m.push);
    SendLoopKeeps(p, now, env.io, 0);
    SendLoopFrame(p, now, env.io, 0);
    var (p', frames, exit) := SendLoop(p, now, env.io, 0);
    if exit.Failed? {
      StoppedIsOk(m.(push := p', sent := m.sent + frames), now, false, exit.status, exit.code, env);
    }
  }

  lemma PumpStreamingKeeps(file: seq<byte>, m: Master, now: uint32, env: PumpEnv)
    requires m.push.active && SessionOk(m.push) && m.push.phase == Streaming && |file| == m.push.x.totalSize
    requires |env.io| == CHUNK_BUDGET_PER_TICK && LengthsInFull(m.push.x, m.push.w.next, env.io, 0)
    ensures SessionOk(PumpStreaming(m, now, env).push)
  {
    if !m.push.w.waiting && m.push.w.next < m.push.x.totalSize && Elapsed(now, m.push.t.nextSend) >= 0 {
      PumpWindowKeeps(file, m, now, env);
    }
  }

  lemma PumpKeeps(file: seq<byte>, m: Master, now: uint32, env: PumpEnv)
    requires SessionOk(m.push) && GoodInput(file, m, Tick(now, env))
    ensures SessionOk(PumpPush(m, now, env).push)
  {
    if m.push.active && env.bound && env.paired && m.push.phase == Streaming {
      ReadsHaveLengths(file, m.push.x, m.push.w.next, env.io, 0);
      PumpStreamingKeeps(file, m, now, env);
    }
  }

  lemma AckKeeps(p: PushSession, now: uint32, offset: uint32)
    requires p.active && SessionOk(p) && offset <= p.x.totalSize
    ensures SessionOk(OnAck(p, now, offset)) && OnAck(p, now, offset).w.remoteAcked == Max(p.w.remoteAcked, offset)
  {
  }

  lemma NackKeeps(p: PushSession, now: uint32, offset: uint32)
    requires p.active && SessionOk(p)
    ensures SessionOk(OnNack(p, now, offset))
    ensures p.w.remoteAcked <= OnNack(p, now, offset).w.remoteAcked <= Max(p.w.remoteAcked, offset)
  {
  }

  /** No input, in whatever order and however often it comes, breaks the session invariant. */
  lemma StepKeepsSession(file: seq<byte>, m: Master, i: Input)
    requires SessionOk(m.push) && GoodInput(file, m, i)
    ensures SessionOk(Step(m, i).push)
  {
    match i {
      case Tick(now, env) => PumpKeeps(file, m, now, env);
      case Remote(now, corr, kind, offset, code, env) =>
        if m.push.active && corr == m.push.x.reqId {
          var p := m.push.(t := m.push.t.(lastActivity := now));
          if kind.ChunkAck? { AckKeeps(p, now, offset); }
          if kind.ChunkNack? { NackKeeps(p, now, offset); }
        }
      case Ready(now, peer, corr, env) =>
      case BootComplete(peer) =>
      case UpdateTick(now, paired) =>
    }
  }

  // ---------------------------------------------------------------- what one step sends

  ghost predicate Aligned(x: Transfer, offset: nat)
    requires x.chunkBytes > 0
  {
    offset == x.totalSize || Multiple(x.chunkBytes, offset)
  }

  /** A chunk of the image itself, placed on a chunk boundary. */
  ghost predicate ImageChunk(file: seq<byte>, x: Transfer, f: Frame)
    requires |file| == x.totalSize && x.chunkBytes > 0
  {
    && f.Chunk? && f.corr == x.reqId && f.offset < x.totalSize
    && f.data == file[f.offset..f.offset + ChunkLen(x, f.offset)]
    && Multiple(x.chunkBytes, f.offset)
  }

  /** What may leave the master while `acked` bytes are acknowledged: the end frame only when that is everything. */
  ghost predicate FrameAllowed(file: seq<byte>, x: Transfer, acked: nat, f: Frame)
    requires |file| == x.totalSize && x.chunkBytes > 0
  {
    match f
    case Begin(_, _, _, _) => false
    case Chunk(_, _, _) => ImageChunk(file, x, f)
    case End(corr, total, crc) => f == End(x.reqId, x.totalSize, x.imageCrc) && acked == x.totalSize
    case _ => true
  }

  ghost predicate AllAllowed(file: seq<byte>, x: Transfer, acked: nat, sent: seq<Frame>, sent': seq<Frame>)
    requires |file| == x.totalSize && x.chunkBytes > 0
  {
    sent <= sent' && forall i :: |sent| <= i < |sent'| ==> FrameAllowed(file, x, acked, sent'[i])
  }

  lemma {:induction false} ImageRunAllowed(file: seq<byte>, x: Transfer, next: nat, n: nat)
    requires TransferOk(x) && |file| == x.totalSize && next <= x.totalSize && Aligned(x, next)
    ensures var (frames, end) := ImageRun(file, x, next, n);
            end <= x.totalSize && Aligned(x, end) && forall i :: 0 <= i < |frames| ==> ImageChunk(file, x, frames[i])
    decreases n
  {
    if n > 0 && next < x.totalSize {
      assert Aligned(x, next + ChunkLen(x, next));
      ImageRunAllowed(file, x, next + ChunkLen(x, next), n - 1);
    }
  }

  lemma StopSends(file: seq<byte>, x: Transfer, acked: nat, m: Master, now: uint32, success: bool, status: Status,
                  code: uint16, env: PumpEnv)
    requires |file| == x.totalSize && x.chunkBytes > 0
    ensures AllAllowed(file, x, acked, m.sent, StopPush(m, now, success, status, code, env).sent)
  {
  }

  lemma {:induction false} PumpWindowSends(file: seq<byte>, m: Master, now: uint32, env: PumpEnv)
    requires m.push.active && SessionOk(m.push) && m.push.phase == Streaming && !m.push.w.waiting
    requires m.push.w.next < m.push.x.totalSize == |file| && Aligned(m.push.x, m.push.w.next)
    requires |env.io| == CHUNK_BUDGET_PER_TICK && ReadsInFull(file, m.push.x, m.push.w.next, env.io, 0)
    ensures var m' := PumpWindow(m, now, env);
            && AllAllowed(file, m.push.x, m.push.w.remoteAcked, m.sent, m'.sent)
            && (m'.push.active ==> m'.push.x == m.push.x && m'.push.w.remoteAcked == m.push.w.remoteAcked
                                   && Aligned(m.push.x, m'.push.w.next) && m'.push.phase == m.push.phase)
  {
    OpenWindowKeeps(m.push);
    var p := OpenWindow(m.push);
    ReadsHaveLengths(file, p.x, p.w.next, env.io, 0);
    SendLoopKeeps(p, now, env.io, 0);
    SendLoopFrame(p, now, env.io, 0);
    SendLoopFrames(file, p, now, env.io, 0);
    var (p', frames, exit) := SendLoop(p, now, env.io, 0);
    ImageRunAllowed(file, p.x, p.w.next, |frames|);
    var m1 := m.(push := p', sent := m.sent + frames);
    assert AllAllowed(file, m.push.x, m.push.w.remoteAcked, m.sent, m1.sent);
    if exit.Failed? {
      StopSends(file, m.push.x, m.push.w.remoteAcked, m1, now, false, exit.status, exit.code, env);
    }
  }

  /** The offset an input names to the open transfer, if it names one. */
  ghost function Named(m: Master, i: Input): nat {
    if i.Remote? && (i.kind.ChunkAck? || i.kind.ChunkNack?) && i.corr == m.push.x.reqId then i.offset else 0
  }

  /**
   One step changes nothing a transfer is fixed to, never lowers the acknowledged offset, raises it no
   further than the offset `named` to it, and sends only what it may.
  */
  ghost predicate StepSafe(file: seq<byte>, m: Master, named: nat, m': Master)
    requires m.push.active && |file| == m.push.x.totalSize && m.push.x.chunkBytes > 0
  {
    && AllAllowed(file, m.push.x, m.push.w.remoteAcked, m.sent, m'.sent)
    && (m'.push.active ==>
          && m'.push.x == m.push.x
          && m.push.w.remoteAcked <= m'.push.w.remoteAcked <= Max(m.push.w.remoteAcked, named)
          && Aligned(m.push.x, m'.push.w.next) && Aligned(m.push.x, m'.push.w.remoteAcked))
  }

  ghost predicate Positioned(p: PushSession)
    requires p.x.chunkBytes > 0
  {
    Aligned(p.x, p.w.next) && Aligned(p.x, p.w.remoteAcked)
  }

  lemma PumpSafe(file: seq<byte>, m: Master, now: uint32, env: PumpEnv)
    requires m.push.active && SessionOk(m.push) && GoodInput(file, m, Tick(now, env))
    requires |file| == m.push.x.totalSize && Positioned(m.push)
    ensures StepSafe(file, m, 0, PumpPush(m, now, env))
  {
    var p := m.push;
    if env.bound && env.paired && p.phase == Streaming && !p.w.waiting && p.w.next < p.x.totalSize
       && Elapsed(now, p.t.nextSend) >= 0 {
      PumpWindowSends(file, m, now, env);
    }
  }

  /** Remote offsets of this transfer lie on chunk boundaries (they are the receiver's contiguous prefix). */
  ghost predicate AlignedInput(m: Master, i: Input)
    requires m.push.x.chunkBytes > 0
  {
    i.Remote? && (i.kind.ChunkAck? || i.kind.ChunkNack?) && i.corr == m.push.x.reqId ==> Aligned(m.push.x, i.offset)
  }

  lemma RemoteSafe(file: seq<byte>, m: Master, i: Input)
    requires i.Remote? && m.push.active && SessionOk(m.push) && GoodInput(file, m, i) && |file| == m.push.x.totalSize
    requires Positioned(m.push) && AlignedInput(m, i)
    ensures StepSafe(file, m, Named(m, i), Step(m, i))
  {
    if i.corr == m.push.x.reqId {
      var p := m.push.(t := m.push.t.(lastActivity := i.now));
      match i.kind {
        case ChunkAck =>
          AckKeeps(p, i.now, i.offset);
          hide SessionOk, Multiple;
        case ChunkNack =>
          NackKeeps(p, i.now, i.offset);
          hide SessionOk, Multiple;
        case _ =>
      }
    }
  }

  /** One input, whatever it is, sends only what it may and never moves the acknowledged offset back. */
  lemma StepIsSafe(file: seq<byte>, m: Master, i: Input)
    requires m.push.active && SessionOk(m.push) && GoodInput(file, m, i) && |file| == m.push.x.totalSize
    requires Positioned(m.push) && AlignedInput(m, i)
    ensures StepSafe(file, m, Named(m, i), Step(m, i))
  {
    hide SessionOk, Multiple;
    match i {
      case Tick(now, env) => PumpSafe(file, m, now, env);
      case Remote(now, corr, kind, offset, code, env) => RemoteSafe(file, m, i);
      case _ =>
    }
  }

  // ---------------------------------------------------------------- the end frame needs every acknowledgement

  lemma {:induction false} LoopSendsOnlyChunks(p: PushSession, now: uint32, io: seq<ChunkIo>, k: nat)
    requires k <= CHUNK_BUDGET_PER_TICK == |io|
    ensures forall i :: 0 <= i < |SendLoop(p, now, io, k).1| ==> SendLoop(p, now, io, k).1[i].Chunk?
    decreases CHUNK_BUDGET_PER_TICK - k
  {
    if k < CHUNK_BUDGET_PER_TICK && p.w.next < p.x.totalSize && p.w.next < p.w.pendingEnd
       && io[k].Read? && io[k].data != [] && io[k].sendOk {
      LoopSendsOnlyChunks(AfterChunk(p, |ChunkData(p, io[k].data)|), now, io, k + 1);
    }
  }

  ghost predicate SendsEnd(m: Master, m': Master) {
    exists i :: |m.sent| <= i < |m'.sent| && m'.sent[i].End?
  }

  lemma WindowSendsNoEnd(m: Master, now: uint32, env: PumpEnv)
    requires |env.io| == CHUNK_BUDGET_PER_TICK
    ensures !SendsEnd(m, PumpWindow(m, now, env))
  {
    LoopSendsOnlyChunks(OpenWindow(m.push), now, env.io, 0);
    hide SendLoop, OpenWindow;
  }

  /**
   The sender on its own, for any acknowledgements inside the image and any refusals at all: a step that
   sends the end frame is taken with the whole image acknowledged.
  */
  lemma EndNeedsEveryAck(file: seq<byte>, m: Master, i: Input)
    requires m.push.active && SessionOk(m.push) && GoodInput(file, m, i) && SendsEnd(m, Step(m, i))
    ensures m.push.w.remoteAcked == m.push.x.totalSize && m.push.phase == Streaming
  {
    if i.Tick? {
      WindowSendsNoEnd(m, i.now, i.env);
    }
    hide PumpWindow, Multiple, Elapsed, OnAck, OnNack;
  }
}
