/**
 When a push, or the update that owns it, comes to an end without a report of the slave, and what its end leaves behind.
*/
module OtaTimeouts {
  import opened FixedWidth
  import opened OtaSender
  import opened OtaSenderSafety

  /** A tick of a master that has its storage and its peer. */
  predicate IsTick(i: Input) {
    i.Tick? && |i.env.io| == CHUNK_BUDGET_PER_TICK && i.env.bound && i.env.paired
  }

  // ---------------------------------------------------------------- what an end leaves behind

  /**
   Whatever ends a push: the session is empty, at most one event says so, to the owner that asked for it, with what
   was sent; a failed one has the peer's inbox cleared, if there is a peer to reach. The update that owns the push goes
   on to wait for the boot if the image could be applied, and ends with one event of its own otherwise.
  */
  lemma EndLeavesBehind(m: Master, now: uint32, success: bool, status: Status, code: uint16, env: PumpEnv)
    requires m.push.active
    ensures var (m', x) := (StopPush(m, now, success, status, code, env), m.push.x);
            var owned := m.update.active && m.update.reqId == x.reqId;
            var booting := success && env.applySent;
            && m'.push == NO_PUSH && !m'.push.active
            && m'.sent == m.sent + (if !success && env.bound && env.paired then [ClearInbox(x.reqId)] else [])
                                 + (if owned && booting then [ApplyImage(x.reqId)] else [])
            && (!owned ==> m'.update == m.update)
            && (owned && booting ==> m'.update == m.update.(phase := WaitBoot, lastActivity := now))
            && (owned && !booting ==> m'.update == NO_UPDATE)
            && m'.events
               == m.events
                    + (if owned && !booting
                       then [UpdateEnded(false, x.reqId, if success then InternalError else status,
                                         if success then CODE_APPLY_FAILED else code, m.update.phase)] else [])
                    + (if x.emitEvent
                       then [PushEnded(success, x.reqId, status, code, m.push.w.next, x.totalSize, m.push.chunksSent)]
                       else [])
  {
  }

  /** A push ended by a tick has failed. */
  ghost predicate FailsWith(m: Master, m': Master, status: Status, code: uint16) {
    && !m'.push.active
    && (m.push.x.emitEvent ==>
          && m'.events != []
          && m'.events[|m'.events| - 1]
               == PushEnded(false, m.push.x.reqId, status, code, m.push.w.next, m.push.x.totalSize, m.push.chunksSent))
  }

  /** Without its storage or its peer a push fails at the next tick. */
  lemma CutOffFails(m: Master, i: Input)
    requires m.push.active && i.Tick? && |i.env.io| == CHUNK_BUDGET_PER_TICK && !(i.env.bound && i.env.paired)
    ensures FailsWith(m, Step(m, i), if i.env.bound then NotPaired else UnsupportedCommand, 0)
  {
  }

  /** How a push begins: with nothing sent, nothing acknowledged, no failure counted and full windows. */
  lemma PushBegins(now: uint32, x: Transfer)
    ensures var p := StartPush(now, x);
            && p.active && p.x == x && p.phase == WaitBegin && !p.beginAcked && p.chunksSent == 0 == p.sendFailStreak
            && p.w == Window(0, 0, false, 0, 16, 0, 0) && p.t.started == now == p.t.lastActivity == p.t.nextSend
            && p.t.lastPoll == 0
  {
  }

  // ---------------------------------------------------------------- before streaming

  /**
   Waiting for the begin frame's answer: the push fails exactly after 12 seconds without a word from the slave; until
   then it asks for the slave's status every 250 milliseconds, and streams on its own account after 900.
  */
  lemma BeginTick(m: Master, i: Input)
    requires m.push.active && SessionOk(m.push) && m.push.phase == WaitBegin && IsTick(i)
    ensures var (m', t) := (Step(m, i), m.push.t);
            var asks := Elapsed(i.now, t.lastPoll) >= 250;
            var starts := Elapsed(i.now, t.started) >= 900;
            if Elapsed(i.now, t.lastActivity) >= 12000 then FailsWith(m, m', Timeout, 0x000D)
            else
              && m'.push.active && m'.events == m.events && m'.update == m.update
              && m'.sent == m.sent + (if asks then [StatusQuery(m.push.x.reqId)] else [])
              && (m'.push.phase == Streaming <==> starts) && (m'.push.phase == WaitBegin <==> !starts)
              && (m'.push.beginAcked <==> starts)
              && m'.push.w == m.push.w.(retryCount := if starts then 0 else m.push.w.retryCount)
              && m'.push.x == m.push.x
              && m'.push.t == t.(lastPoll := if asks then i.now else t.lastPoll,
                                 nextSend := if starts then i.now else t.nextSend)
  {
    hide Multiple, Elapsed;
  }

  /** The begin frame's answer starts the stream: an acknowledgement of nothing, and only that. */
  lemma BeginAnswered(m: Master, i: Input)
    requires m.push.active && SessionOk(m.push) && m.push.phase == WaitBegin
    requires i.Remote? && i.kind.ChunkAck? && i.corr == m.push.x.reqId
    ensures var m' := Step(m, i);
            && m'.push.active && m'.sent == m.sent && m'.events == m.events
            && (m'.push.phase == Streaming <==> i.offset == 0) && (m'.push.beginAcked <==> i.offset == 0)
            && m'.push.w.next == 0 && m'.push.w.remoteAcked == Max(m.push.w.remoteAcked, i.offset)
            && m'.push.w.retryCount == (if i.offset == 0 then 0 else m.push.w.retryCount)
            && m'.push.t == m.push.t.(lastActivity := i.now,
                                      nextSend := if i.offset == 0 then i.now else m.push.t.nextSend)
  {
    hide Multiple;
  }

  /** An acknowledgement counts if it is the highest so far, and ends the wait for a window it covers. */
  lemma AckCounts(m: Master, i: Input)
    requires m.push.active && SessionOk(m.push) && m.push.phase == Streaming
    requires i.Remote? && i.kind.ChunkAck? && i.corr == m.push.x.reqId
    ensures var (w, m') := (m.push.w, Step(m, i));
            var covered := w.waiting && i.offset >= w.pendingEnd;
            var acked := Max(w.remoteAcked, i.offset);
            var recovered := w.recoveryUntil != 0 && acked >= w.recoveryUntil;
            && m'.push.w == Window(w.next, if covered then 0 else w.pendingEnd, w.waiting && !covered,
                                   if covered then 0 else w.retryCount, if recovered then 16 else w.chunks, acked,
                                   if recovered then 0 else w.recoveryUntil)
            && m'.push == m.push.(w := m'.push.w, t := m.push.t.(lastActivity := i.now))
            && m'.sent == m.sent && m'.events == m.events && m'.update == m.update
  {
    hide Multiple;
  }

  // ---------------------------------------------------------------- streaming

  /** A tick that finds the window acknowledged stops waiting for it, and that is all. */
  lemma CoveredTick(m: Master, i: Input)
    requires m.push.active && m.push.beginAcked && m.push.phase == Streaming && m.push.w.waiting && IsTick(i)
    requires m.push.w.remoteAcked >= m.push.w.pendingEnd
    ensures Step(m, i) == m.(push := m.push.(w := m.push.w.(waiting := false, pendingEnd := 0, retryCount := 0)))
  {
    hide Multiple, Elapsed;
  }

  ghost predicate SendsOn(m: Master, i: Input) {
    && m.push.active && SessionOk(m.push) && m.push.phase == Streaming && !m.push.w.waiting && IsTick(i)
    && m.push.w.next < m.push.x.totalSize
  }

  /** Before the time to send again has come, nothing happens. */
  lemma PauseTick(m: Master, i: Input)
    requires SendsOn(m, i) && Elapsed(i.now, m.push.t.nextSend) < 0
    ensures Step(m, i) == m
  {
    hide Multiple, Elapsed;
  }

  /** An image that cannot be read ends the push. */
  lemma UnreadableFails(m: Master, i: Input)
    requires SendsOn(m, i) && Elapsed(i.now, m.push.t.nextSend) >= 0
    requires i.env.io[0].ReadFails? || i.env.io[0].data == []
    ensures FailsWith(m, Step(m, i), InternalError, 0x0001)
  {
    hide Multiple, Elapsed, OpenWindow;
    StartsLoop(m, i);
  }

  /**
   A chunk the radio does not take costs a pause, of 4 milliseconds at first and 2 more each time up to 40; the 24th
   time in a row ends the push.
  */
  lemma BusyRadioPauses(m: Master, i: Input)
    requires SendsOn(m, i) && Elapsed(i.now, m.push.t.nextSend) >= 0
    requires i.env.io[0].Read? && i.env.io[0].data != [] && !i.env.io[0].sendOk
    ensures var (m', streak) := (Step(m, i), m.push.sendFailStreak + 1);
            if streak == 24 then FailsWith(m, m', InternalError, 0x00FF)
            else
              && m'.push.active && m'.sent == m.sent && m'.events == m.events && m'.update == m.update
              && m'.push.sendFailStreak == streak
              && m'.push.t == m.push.t.(nextSend := Wrap32(i.now + Min(2 * streak + 2, 40)))
              && m'.push.w.next == m.push.w.next && m'.push.w.remoteAcked == m.push.w.remoteAcked
  {
    hide Multiple, Elapsed, OpenWindow;
    StartsLoop(m, i);
  }

  lemma StartsLoop(m: Master, i: Input)
    requires SendsOn(m, i) && Elapsed(i.now, m.push.t.nextSend) >= 0
    ensures Step(m, i) == PumpWindow(m, i.now, i.env)
    ensures var p := OpenWindow(m.push);
            p == m.push.(w := m.push.w.(pendingEnd := p.w.pendingEnd)) && p.w.next < p.w.pendingEnd
  {
    OpenWindowKeeps(m.push);
    hide Multiple, Elapsed, PumpWindow;
  }

  /** Each chunk the radio takes makes an end of the pauses. */
  lemma {:induction false} TakenChunkForgives(p: PushSession, now: uint32, io: seq<ChunkIo>)
    requires p.w.next < p.x.totalSize && p.w.next < p.w.pendingEnd && |io| == CHUNK_BUDGET_PER_TICK
    requires io[0].Read? && io[0].data != [] && io[0].sendOk
    ensures SendLoop(p, now, io, 0).0.sendFailStreak <= 1 && SendLoop(p, now, io, 0).1 != []
  {
    StreakStaysLow(AfterChunk(p, |ChunkData(p, io[0].data)|), now, io, 1);
  }

  lemma SendLoopOnce(p: PushSession, now: uint32, io: seq<ChunkIo>, k: nat)
    requires k <= CHUNK_BUDGET_PER_TICK == |io|
    ensures var sends := k < CHUNK_BUDGET_PER_TICK && p.w.next < p.x.totalSize && p.w.next < p.w.pendingEnd
                         && io[k].Read? && io[k].data != [] && io[k].sendOk;
            && (!sends ==> SendLoop(p, now, io, k).1 == [] && SendLoop(p, now, io, k).0.chunksSent == p.chunksSent)
            && (sends ==>
                  var data := ChunkData(p, io[k].data);
                  var rest := SendLoop(AfterChunk(p, |data|), now, io, k + 1);
                  SendLoop(p, now, io, k) == (rest.0, [Chunk(p.x.reqId, p.w.next, data)] + rest.1, rest.2))
  {
    hide ChunkData, BackOff, AfterChunk;
    BackOffCountsNothing(p, now);
  }

  lemma BackOffCountsNothing(p: PushSession, now: uint32)
    ensures BackOff(p, now).chunksSent == p.chunksSent
  {
  }

  /** Every chunk sent is counted, modulo 2^16, and nothing else is. */
  lemma {:induction false} ChunksCounted(p: PushSession, now: uint32, io: seq<ChunkIo>, k: nat)
    requires k <= CHUNK_BUDGET_PER_TICK == |io|
    ensures var (p', frames, _) := SendLoop(p, now, io, k);
            && p'.chunksSent == (p.chunksSent + |frames|) % 0x1_0000
            && forall i :: 0 <= i < |frames| ==> frames[i].Chunk?
    decreases CHUNK_BUDGET_PER_TICK - k
  {
    hide SendLoop, ChunkData;
    SendLoopOnce(p, now, io, k);
    if k < CHUNK_BUDGET_PER_TICK && p.w.next < p.x.totalSize && p.w.next < p.w.pendingEnd
       && io[k].Read? && io[k].data != [] && io[k].sendOk {
      ChunksCounted(AfterChunk(p, |ChunkData(p, io[k].data)|), now, io, k + 1);
    }
  }

  lemma {:induction false} StreakStaysLow(p: PushSession, now: uint32, io: seq<ChunkIo>, k: nat)
    requires k <= CHUNK_BUDGET_PER_TICK == |io| && p.sendFailStreak == 0
    ensures SendLoop(p, now, io, k).0.sendFailStreak <= 1
    decreases CHUNK_BUDGET_PER_TICK - k
  {
    if k < CHUNK_BUDGET_PER_TICK && p.w.next < p.x.totalSize && p.w.next < p.w.pendingEnd
       && io[k].Read? && io[k].data != [] && io[k].sendOk {
      StreakStaysLow(AfterChunk(p, |ChunkData(p, io[k].data)|), now, io, k + 1);
    }
  }

  // ---------------------------------------------------------------- after streaming

  /** With everything sent and acknowledged the end frame goes out, or the push fails. */
  lemma EndTick(m: Master, i: Input)
    requires m.push.active && SessionOk(m.push) && m.push.phase == Streaming && !m.push.w.waiting && IsTick(i)
    requires m.push.w.next == m.push.x.totalSize
    ensures var (m', x) := (Step(m, i), m.push.x);
            if i.env.endSent then
              && m'.sent == m.sent + [End(x.reqId, x.totalSize, x.imageCrc)] && m'.events == m.events
              && m'.push == m.push.(phase := WaitEnd, t := m.push.t.(lastActivity := i.now))
            else FailsWith(m, m', InternalError, 0x00FF)
  {
    hide Multiple, Elapsed;
  }

  /** Waiting for the final report: the push fails exactly after a minute without a word from the slave. */
  lemma FinalTick(m: Master, i: Input)
    requires m.push.active && SessionOk(m.push) && m.push.phase == WaitEnd && IsTick(i)
    ensures if Elapsed(i.now, m.push.t.lastActivity) >= 60000 then FailsWith(m, Step(m, i), Timeout, 0x000D)
            else Step(m, i) == m
  {
    hide Multiple, Elapsed;
  }

  /** An update fails exactly when its peer is gone, or three minutes after it began to wait for the boot. */
  lemma UpdateTickExactly(m: Master, i: Input)
    requires i.UpdateTick? && m.update.active
    ensures var late := m.update.phase == WaitBoot && Elapsed(i.now, m.update.lastActivity) >= 180000;
            var u := m.update;
            if !i.paired then
              Step(m, i) == m.(update := NO_UPDATE,
                               events := m.events + [UpdateEnded(false, u.reqId, NotPaired, 0x0006, u.phase)])
            else if late then
              Step(m, i) == m.(update := NO_UPDATE,
                               events := m.events + [UpdateEnded(false, u.reqId, Timeout, 0x000D, u.phase)])
            else Step(m, i) == m
  {
    hide Elapsed;
  }

  /** The boot of its peer ends the update that waits for it, and no other. */
  lemma BootEndsUpdate(m: Master, i: Input)
    requires i.BootComplete?
    ensures var u := m.update;
            Step(m, i) == if u.active && u.phase == WaitBoot && u.peer == i.peer
                          then m.(update := NO_UPDATE,
                                  events := m.events + [UpdateEnded(true, u.reqId, Ok, 0x0000, WaitBoot)])
                          else m
  {
  }

  /** The retry limit that no run reaches: six expired waits in a row, or twenty for a single chunk. */
  lemma RetryLimit(m: Master, now: uint32, env: PumpEnv)
    requires m.push.active && m.push.w.waiting && m.push.w.remoteAcked < m.push.w.pendingEnd
    requires Elapsed(now, m.push.t.waitStarted) >= 1500 && m.push.w.chunks in {1, 16}
    ensures var m' := PumpWaiting(m, now, env);
            !m'.push.active <==> m.push.w.retryCount >= (if m.push.w.chunks == 1 then 20 else 6)
  {
    hide Elapsed;
  }
}
