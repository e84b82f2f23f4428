/**
 The management service's firmware-push entry points, as they update the session records in place. Each
 method is tied to the step function of the same name; the results about runs are stated over those.
*/
module OtaPushMachine {
  import opened FixedWidth
  import opened OtaSender

  /** The loop begun at `start` has sent `frames` and stands at `p` before iteration `k`. */
  ghost predicate SoFar(start: PushSession, frames: seq<Frame>, p: PushSession, now: uint32, io: seq<ChunkIo>, k: nat)
    requires k <= CHUNK_BUDGET_PER_TICK == |io|
  {
    var rest := SendLoop(p, now, io, k);
    SendLoop(start, now, io, 0) == (rest.0, frames + rest.1, rest.2)
  }

  lemma LoopStarts(start: PushSession, now: uint32, io: seq<ChunkIo>)
    requires |io| == CHUNK_BUDGET_PER_TICK
    ensures SoFar(start, [], start, now, io, 0)
  {
    hide SendLoop;
    var rest := SendLoop(start, now, io, 0);
    assert [] + rest.1 == rest.1;
  }

  predicate WantsChunk(p: PushSession) {
    p.w.next < p.x.totalSize && p.w.next < p.w.pendingEnd
  }

  lemma IterationSends(p: PushSession, now: uint32, io: seq<ChunkIo>, k: nat)
    requires k < CHUNK_BUDGET_PER_TICK == |io| && WantsChunk(p) && io[k].Read? && io[k].data != [] && io[k].sendOk
    ensures var data := ChunkData(p, io[k].data);
            var rest := SendLoop(AfterChunk(p, |data|), now, io, k + 1);
            SendLoop(p, now, io, k) == (rest.0, [Chunk(p.x.reqId, p.w.next, data)] + rest.1, rest.2)
  {
    hide AfterChunk, ChunkData;
  }

  lemma {:induction false} IterationStops(p: PushSession, now: uint32, io: seq<ChunkIo>, k: nat)
    requires k <= CHUNK_BUDGET_PER_TICK == |io|
    ensures k == CHUNK_BUDGET_PER_TICK || !WantsChunk(p) ==> SendLoop(p, now, io, k) == (p, [], Drained)
    ensures k < CHUNK_BUDGET_PER_TICK && WantsChunk(p) && (io[k].ReadFails? || io[k].data == []) ==>
              SendLoop(p, now, io, k) == (p, [], Failed(InternalError, CODE_STORAGE_NOT_READY))
    ensures k < CHUNK_BUDGET_PER_TICK && WantsChunk(p) && io[k].Read? && io[k].data != [] && !io[k].sendOk ==>
              SendLoop(p, now, io, k) == (BackOff(p, now), [],
                if p.sendFailStreak + 1 >= MAX_SEND_FAIL_STREAK then Failed(InternalError, CODE_INTERNAL_ERROR)
                    else BackedOff)
  {
    hide BackOff;
  }

  lemma LoopSends(start: PushSession, frames: seq<Frame>, p: PushSession, now: uint32, io: seq<ChunkIo>, k: nat)
    requires k < CHUNK_BUDGET_PER_TICK == |io| && SoFar(start, frames, p, now, io, k)
    requires WantsChunk(p) && io[k].Read? && io[k].data != [] && io[k].sendOk
    ensures var data := ChunkData(p, io[k].data);
            SoFar(start, frames + [Chunk(p.x.reqId, p.w.next, data)], AfterChunk(p, |data|), now, io, k + 1)
  {
    hide SendLoop, AfterChunk, ChunkData;
    IterationSends(p, now, io, k);
    var data := ChunkData(p, io[k].data);
    var rest := SendLoop(AfterChunk(p, |data|), now, io, k + 1);
    assert frames + ([Chunk(p.x.reqId, p.w.next, data)] + rest.1)
        == (frames + [Chunk(p.x.reqId, p.w.next, data)]) + rest.1;
  }

  lemma {:induction false} LoopEnds(start: PushSession, frames: seq<Frame>, p: PushSession, now: uint32,
                                    io: seq<ChunkIo>, k: nat)
    requires k <= CHUNK_BUDGET_PER_TICK == |io| && SoFar(start, frames, p, now, io, k)
    requires k < CHUNK_BUDGET_PER_TICK && WantsChunk(p) && io[k].Read? && io[k].data != [] ==> !io[k].sendOk
    ensures SendLoop(start, now, io, 0) == (SendLoop(p, now, io, k).0, frames, SendLoop(p, now, io, k).2)
  {
    hide SendLoop, BackOff;
    IterationStops(p, now, io, k);
    assert frames + [] == frames;
  }

  class OtaPushService {
    var push: PushSession
    var update: UpdateSession
    var sent: seq<Frame>
    var events: seq<Event>

    ghost function State(): Master
      reads this
    {
      Master(push, update, sent, events)
    }

    constructor ()
      ensures State() == Master(NO_PUSH, NO_UPDATE, [], [])
    {
      push, update, sent, events := NO_PUSH, NO_UPDATE, [], [];
    }

    /** Starts a push once the storage has been checked; refused while one is active or for an odd chunk size. */
    method StartOtaPushLocal(now: uint32, x: Transfer, beginSent: bool) returns (ok: bool)
      modifies this
      ensures ok <==> !old(push.active) && 32 <= x.chunkBytes <= 220 && x.totalSize != 0 && beginSent
      ensures State() == if ok then old(State()).(push := StartPush(now, x),
                                                  sent := old(sent) + [Begin(x.reqId, x.totalSize, x.chunkBytes,
                                                                             x.imageCrc)])
                         else old(State())
    {
      if push.active || x.chunkBytes < 32 || x.chunkBytes > 220 || x.totalSize == 0 || !beginSent {
        return false;
      }
      sent := sent + [Begin(x.reqId, x.totalSize, x.chunkBytes, x.imageCrc)];
      push := NO_PUSH.(active := true, x := x, phase := WaitBegin,
                       t := Timers(now, now, 0, 0, now));
      return true;
    }

    method StopOtaUpdateLocal(success: bool, status: Status, code: uint16)
      modifies this
      ensures State() == StopUpdate(old(State()), success, status, code)
    {
      if !update.active {
        return;
      }
      events := events + [UpdateEnded(success, update.reqId, status, code, update.phase)];
      update := NO_UPDATE;
    }

    method StopOtaPushLocal(now: uint32, success: bool, status: Status, code: uint16, env: PumpEnv)
      modifies this
      ensures State() == StopPush(old(State()), now, success, status, code, env)
    {
      if !push.active {
        return;
      }
      if !success && env.bound && env.paired {
        sent := sent + [ClearInbox(push.x.reqId)];
      }
      if update.active && update.reqId == push.x.reqId {
        update := update.(lastActivity := now);
        if !success {
          StopOtaUpdateLocal(false, status, code);
        } else if !env.applySent {
          StopOtaUpdateLocal(false, InternalError, CODE_APPLY_FAILED);
        } else {
          sent := sent + [ApplyImage(push.x.reqId)];
          update := update.(phase := WaitBoot);
        }
      }
      if push.x.emitEvent {
        events := events + [PushEnded(success, push.x.reqId, status, code, push.w.next, push.x.totalSize,
                                      push.chunksSent)];
      }
      push := NO_PUSH;
    }

    /** One tick of the sender: begin wait, window acknowledgement wait, end frame, or the budgeted send loop. */
    method PumpOtaPushLocal(now: uint32, env: PumpEnv)
      requires |env.io| == CHUNK_BUDGET_PER_TICK
      modifies this
      ensures State() == PumpPush(old(State()), now, env)
    {
      if !push.active {
        return;
      }
      if !env.bound {
        StopOtaPushLocal(now, false, UnsupportedCommand, 0, env);
        return;
      }
      if !env.paired {
        StopOtaPushLocal(now, false, NotPaired, 0, env);
        return;
      }
      if push.phase == WaitBegin {
        WaitForBegin(now, env);
        return;
      }
      if push.phase == WaitEnd {
        if Elapsed(now, push.t.lastActivity) >= 60000 {
          StopOtaPushLocal(now, false, Timeout, CODE_TIMEOUT, env);
        }
        return;
      }
      if push.phase != Streaming {
        return;
      }
      if !push.beginAcked {
        if Elapsed(now, push.t.started) >= 900 {
          push := push.(beginAcked := true, t := push.t.(nextSend := now));
        } else {
          return;
        }
      }
      if push.w.waiting {
        WaitForWindow(now, env);
        return;
      }
      if push.w.next >= push.x.totalSize {
        if !env.endSent {
          StopOtaPushLocal(now, false, InternalError, CODE_INTERNAL_ERROR, env);
          return;
        }
        sent := sent + [End(push.x.reqId, push.x.totalSize, push.x.imageCrc)];
        push := push.(phase := WaitEnd, t := push.t.(lastActivity := now));
        return;
      }
      if Elapsed(now, push.t.nextSend) < 0 {
        return;
      }
      SendWindow(now, env);
    }

    method WaitForBegin(now: uint32, env: PumpEnv)
      modifies this
      ensures State() == PumpWaitBegin(old(State()), now, env)
    {
      if Elapsed(now, push.t.lastActivity) >= 12000 {
        StopOtaPushLocal(now, false, Timeout, CODE_TIMEOUT, env);
        return;
      }
      if Elapsed(now, push.t.lastPoll) >= 250 {
        sent := sent + [StatusQuery(push.x.reqId)];
        push := push.(t := push.t.(lastPoll := now));
      }
      if !push.beginAcked && Elapsed(now, push.t.started) >= 900 {
        push := push.(beginAcked := true, phase := Streaming);
        push := push.(w := push.w.(waiting := false, retryCount := 0));
        push := push.(t := push.t.(nextSend := now));
      }
    }

    method WaitForWindow(now: uint32, env: PumpEnv)
      modifies this
      ensures State() == PumpWaiting(old(State()), now, env)
    {
      if push.w.remoteAcked >= push.w.pendingEnd {
        push := push.(w := push.w.(waiting := false, retryCount := 0, pendingEnd := 0));
        return;
      }
      var recovering := push.w.chunks <= RECOVERY_WINDOW_CHUNKS;
      if Elapsed(now, push.t.waitStarted) >= (if recovering then 450 else 1500) {
        if push.w.retryCount >= (if recovering then CHUNK_ACK_MAX_RETRY_RECOVERY else CHUNK_ACK_MAX_RETRY) {
          StopOtaPushLocal(now, false, Timeout, CODE_TIMEOUT, env);
          return;
        }
        push := push.(w := push.w.(retryCount := push.w.retryCount + 1, waiting := false, pendingEnd := 0));
        push := push.(w := push.w.(next := Min(push.w.remoteAcked, push.x.totalSize)));
        push := push.(t := push.t.(nextSend := Wrap32(now + 12)));
      }
    }

    method SendWindow(now: uint32, env: PumpEnv)
      requires |env.io| == CHUNK_BUDGET_PER_TICK
      modifies this
      ensures State() == PumpWindow(old(State()), now, env)
    {
      hide SendLoop, StopPush;
      if push.w.pendingEnd == 0 || push.w.next >= push.w.pendingEnd {
        var windowBytes := Wrap32(push.x.chunkBytes * push.w.chunks);
        push := push.(w := push.w.(pendingEnd := Min(Wrap32(push.w.next + windowBytes), push.x.totalSize)));
      }
      var exit := SendChunks(now, env.io);
      if exit.Failed? {
        StopOtaPushLocal(now, false, exit.status, exit.code, env);
        return;
      }
      if exit.Drained? && push.w.next >= push.w.pendingEnd {
        push := push.(w := push.w.(waiting := true, retryCount := 0), t := push.t.(waitStarted := now));
      }
    }

    /** The budgeted loop: read a chunk, send it, advance; stops on a full window, an empty budget or a failure. */
    method SendChunks(now: uint32, io: seq<ChunkIo>) returns (exit: LoopExit)
      requires |io| == CHUNK_BUDGET_PER_TICK
      modifies this`push, this`sent
      ensures var r := SendLoop(old(push), now, io, 0);
              push == r.0 && sent == old(sent) + r.1 && exit == r.2
    {
      hide SendLoop, SoFar;
      ghost var start := push;
      ghost var frames: seq<Frame> := [];
      LoopStarts(start, now, io);
      var k := 0;
      while k < CHUNK_BUDGET_PER_TICK && push.w.next < push.x.totalSize && push.w.next < push.w.pendingEnd
        invariant 0 <= k <= CHUNK_BUDGET_PER_TICK
        invariant sent == old(sent) + frames
        invariant SoFar(start, frames, push, now, io, k)
      {
        if io[k].ReadFails? || io[k].data == [] {
          IterationStops(push, now, io, k);
          LoopEnds(start, frames, push, now, io, k);
          return Failed(InternalError, CODE_STORAGE_NOT_READY);
        }
        var data := io[k].data;
        var remaining := push.x.totalSize - push.w.next;
        if |data| > remaining {
          data := data[..remaining];
        }
        if !io[k].sendOk {
          IterationStops(push, now, io, k);
          LoopEnds(start, frames, push, now, io, k);
          push := push.(sendFailStreak := push.sendFailStreak + 1);
          if push.sendFailStreak >= MAX_SEND_FAIL_STREAK {
            return Failed(InternalError, CODE_INTERNAL_ERROR);
          }
          push := push.(t := push.t.(nextSend := Wrap32(now + Min(40, 2 + push.sendFailStreak * 2))));
          return BackedOff;
        }
        LoopSends(start, frames, push, now, io, k);
        frames := frames + [Chunk(push.x.reqId, push.w.next, data)];
        sent := sent + [Chunk(push.x.reqId, push.w.next, data)];
        push := push.(sendFailStreak := 0,
                      w := push.w.(next := Wrap32(push.w.next + |data|)),
                      chunksSent := Wrap16(push.chunksSent + 1));
        k := k + 1;
      }
      IterationStops(push, now, io, k);
      LoopEnds(start, frames, push, now, io, k);
      return Drained;
    }

    method PumpOtaUpdateLocal(now: uint32, paired: bool)
      modifies this
      ensures State() == PumpUpdate(old(State()), now, paired)
    {
      if !update.active {
        return;
      }
      if !paired {
        StopOtaUpdateLocal(false, NotPaired, CODE_INVALID_STATE);
        return;
      }
      if update.phase == WaitBoot {
        if Elapsed(now, update.lastActivity) >= 180000 {
          StopOtaUpdateLocal(false, Timeout, CODE_TIMEOUT);
        }
      }
    }

    /** A transfer-status event from the radio. */
    method OnOtaTransferStatus(now: uint32, corr: uint32, kind: StatusKind, offset: uint32, code: uint16, env: PumpEnv)
      modifies this
      ensures State() == OnStatus(old(State()), now, corr, kind, offset, code, env)
    {
      if !(push.active && corr == push.x.reqId) {
        return;
      }
      push := push.(t := push.t.(lastActivity := now));
      match kind {
        case ChunkAck =>
          if offset > push.w.remoteAcked {
            push := push.(w := push.w.(remoteAcked := offset));
          }
          if push.w.recoveryUntil != 0 && push.w.remoteAcked >= push.w.recoveryUntil {
            push := push.(w := push.w.(recoveryUntil := 0, chunks := FULL_WINDOW_CHUNKS));
          }
          if !push.beginAcked && offset == 0 {
            push := push.(beginAcked := true, phase := Streaming);
            push := push.(w := push.w.(waiting := false, retryCount := 0), t := push.t.(nextSend := now));
          } else if push.phase == Streaming && push.w.waiting && offset >= push.w.pendingEnd {
            push := push.(w := push.w.(waiting := false, retryCount := 0, pendingEnd := 0));
          }
        case ChunkNack =>
          if push.phase == Streaming {
            var rewind := Min(offset, push.x.totalSize);
            if rewind > push.w.next {
              rewind := push.w.next;
            }
            if rewind < push.w.remoteAcked {
              rewind := push.w.remoteAcked;
            }
            push := push.(w := push.w.(remoteAcked := rewind, waiting := false, retryCount := 0, next := rewind,
                                       pendingEnd := 0, chunks := RECOVERY_WINDOW_CHUNKS));
            push := push.(w := push.w.(recoveryUntil := Min(Wrap32(rewind + push.x.chunkBytes), push.x.totalSize)),
                          t := push.t.(nextSend := Wrap32(now + 20)));
          }
        case FinalizeOk =>
          if push.phase == WaitEnd {
            StopOtaPushLocal(now, true, Ok, code, env);
          }
        case FinalizeFail =>
          if push.phase == WaitEnd {
            StopOtaPushLocal(now, false, InternalError, code, env);
          }
        case FinalizeAck =>
      }
    }

    method OnOtaTransferReady(now: uint32, peer: nat, corr: uint32, env: PumpEnv)
      modifies this
      ensures State() == OnTransferReady(old(State()), now, peer, corr, env)
    {
      if push.active && push.phase == WaitEnd && peer == push.x.peer && corr == push.x.reqId {
        StopOtaPushLocal(now, true, Ok, CODE_OK, env);
      }
    }

    method OnOtaBootComplete(peer: nat)
      modifies this
      ensures State() == OnBootComplete(old(State()), peer)
    {
      if update.active && update.phase == WaitBoot && peer == update.peer {
        StopOtaUpdateLocal(true, Ok, CODE_OK);
      }
    }
  }
}
