/**
 The master's half of a firmware push: the session record and one step function per entry point.
*/
module OtaSender {
  import opened FixedWidth

  datatype Phase = Idle | WaitBegin | Streaming | WaitEnd

  datatype Status = Ok | Timeout | NotPaired | InternalError | UnsupportedCommand

  const CODE_OK: uint16 := 0x0000
  const CODE_STORAGE_NOT_READY: uint16 := 0x0001
  const CODE_INVALID_STATE: uint16 := 0x0006
  const CODE_APPLY_FAILED: uint16 := 0x000C
  const CODE_TIMEOUT: uint16 := 0x000D
  const CODE_INTERNAL_ERROR: uint16 := 0x00FF

  const FULL_WINDOW_CHUNKS: nat := 16
  const RECOVERY_WINDOW_CHUNKS: nat := 1
  const CHUNK_BUDGET_PER_TICK: nat := 8
  const MAX_SEND_FAIL_STREAK: nat := 24
  const CHUNK_ACK_MAX_RETRY: nat := 6
  const CHUNK_ACK_MAX_RETRY_RECOVERY: nat := 20

  /** What a push is fixed to when it starts. */
  datatype Transfer = Transfer(peer: nat, reqId: uint32, chunkBytes: uint16, totalSize: uint32, imageCrc: uint32,
                               emitEvent: bool)

  /** The go-back-N bookkeeping. */
  datatype Window = Window(
    next: uint32,
    pendingEnd: uint32,
    waiting: bool,
    retryCount: nat,
    chunks: nat,
    remoteAcked: uint32,
    recoveryUntil: uint32)

  datatype Timers = Timers(started: uint32, lastActivity: uint32, waitStarted: uint32, lastPoll: uint32,
                           nextSend: uint32)

  datatype PushSession = PushSession(
    active: bool,
    x: Transfer,
    phase: Phase,
    beginAcked: bool,
    w: Window,
    chunksSent: uint16,
    sendFailStreak: nat,
    t: Timers)

  const NO_WINDOW := Window(0, 0, false, 0, FULL_WINDOW_CHUNKS, 0, 0)
  const NO_PUSH := PushSession(false, Transfer(0, 0, 0, 0, 0, true), Idle, false, NO_WINDOW, 0, 0,
                               Timers(0, 0, 0, 0, 0))

  datatype UpdatePhase = UpdateIdle | Pushing | WaitBoot

  datatype UpdateSession = UpdateSession(active: bool, peer: nat, reqId: uint32, phase: UpdatePhase,
                                         lastActivity: uint32)

  const NO_UPDATE := UpdateSession(false, 0, 0, UpdateIdle, 0)

  /** Frames the master hands to the radio. */
  datatype Frame =
    | Begin(corr: uint32, total: uint32, chunkSize: uint32, crc: uint32)
    | Chunk(corr: uint32, offset: uint32, data: seq<byte>)
    | End(corr: uint32, total: uint32, crc: uint32)
    | StatusQuery(corr: uint32)
    | ClearInbox(corr: uint32)
    | ApplyImage(corr: uint32)

  /** Terminal service events: one per finished push (when its owner asked for it) and one per finished update. */
  datatype Event =
    | PushEnded(success: bool, reqId: uint32, status: Status, code: uint16, next: uint32, total: uint32, chunks: uint16)
    | UpdateEnded(success: bool, reqId: uint32, status: Status, code: uint16, phase: UpdatePhase)

  datatype StatusKind = ChunkAck | ChunkNack | FinalizeOk | FinalizeFail | FinalizeAck

  datatype Master = Master(push: PushSession, update: UpdateSession, sent: seq<Frame>, events: seq<Event>)

  /** One iteration's I/O: the storage read of the next chunk, then the radio's answer to the send. */
  datatype ChunkIo = ReadFails | Read(data: seq<byte>, sendOk: bool)

  /** What the environment answers during one call. */
  datatype PumpEnv = PumpEnv(bound: bool, paired: bool, applySent: bool, endSent: bool, io: seq<ChunkIo>)

  // ---------------------------------------------------------------- starting and stopping a session

  function StartPush(now: uint32, x: Transfer): PushSession {
    PushSession(true, x, WaitBegin, false, NO_WINDOW, 0, 0, Timers(now, now, 0, 0, now))
  }

  function StopUpdate(m: Master, success: bool, status: Status, code: uint16): Master {
    if !m.update.active then m
    else m.(events := m.events + [UpdateEnded(success, m.update.reqId, status, code, m.update.phase)],
            update := NO_UPDATE)
  }

  /** What a finished push means for the update that owns it. */
  function HandOverToUpdate(m: Master, now: uint32, success: bool, status: Status, code: uint16,
                            applySent: bool): Master {
    if !(m.update.active && m.update.reqId == m.push.x.reqId) then m
    else
      var touched := m.(update := m.update.(lastActivity := now));
      if !success then StopUpdate(touched, false, status, code)
      else if !applySent then StopUpdate(touched, false, InternalError, CODE_APPLY_FAILED)
      else touched.(sent := touched.sent + [ApplyImage(m.push.x.reqId)], update := touched.update.(phase := WaitBoot))
  }

  function StopPush(m: Master, now: uint32, success: bool, status: Status, code: uint16, env: PumpEnv): Master {
    if !m.push.active then m
    else
      var p := m.push;
      var m0 := if !success && env.bound && env.paired then m.(sent := m.sent + [ClearInbox(p.x.reqId)]) else m;
      var m1 := HandOverToUpdate(m0, now, success, status, code, env.applySent);
      m1.(events := if p.x.emitEvent
                    then m1.events + [PushEnded(success, p.x.reqId, status, code, p.w.next, p.x.totalSize,
                                                p.chunksSent)]
                    else m1.events,
          push := NO_PUSH)
  }

  // ---------------------------------------------------------------- pump: one tick of the sender

  /** The next chunk's bytes: what the storage returned, cut to what is left of the image. */
  function ChunkData(p: PushSession, data: seq<byte>): seq<byte>
    requires p.w.next < p.x.totalSize
  {
    if |data| > p.x.totalSize - p.w.next then data[..p.x.totalSize - p.w.next] else data
  }

  datatype LoopExit = Drained | BackedOff | Failed(status: Status, code: uint16)

  function AfterChunk(p: PushSession, n: nat): PushSession {
    p.(sendFailStreak := 0, w := p.w.(next := Wrap32(p.w.next + n)), chunksSent := Wrap16(p.chunksSent + 1))
  }

  function BackOff(p: PushSession, now: uint32): PushSession {
    var streak := p.sendFailStreak + 1;
    if streak >= MAX_SEND_FAIL_STREAK then p.(sendFailStreak := streak)
    else p.(sendFailStreak := streak, t := p.t.(nextSend := Wrap32(now + Min(40, 2 + 2 * streak))))
  }

  /** The budgeted send loop from iteration `k` on: the session it leaves, the frames it sent, why it ended. */
  function SendLoop(p: PushSession, now: uint32, io: seq<ChunkIo>, k: nat): (r: (PushSession, seq<Frame>, LoopExit))
    requires k <= CHUNK_BUDGET_PER_TICK == |io|
    decreases CHUNK_BUDGET_PER_TICK - k
  {
    if !(k < CHUNK_BUDGET_PER_TICK && p.w.next < p.x.totalSize && p.w.next < p.w.pendingEnd) then
      (p, [], Drained)
    else if io[k].ReadFails? || io[k].data == [] then
      (p, [], Failed(InternalError, CODE_STORAGE_NOT_READY))
    else if !io[k].sendOk then
      (BackOff(p, now), [],
       if p.sendFailStreak + 1 >= MAX_SEND_FAIL_STREAK then Failed(InternalError, CODE_INTERNAL_ERROR) else BackedOff)
    else
      var data := ChunkData(p, io[k].data);
      var (p', frames, exit) := SendLoop(AfterChunk(p, |data|), now, io, k + 1);
      (p', [Chunk(p.x.reqId, p.w.next, data)] + frames, exit)
  }

  /** Opens a window when none is pending or the pending one is used up. */
  function OpenWindow(p: PushSession): PushSession {
    if p.w.pendingEnd == 0 || p.w.next >= p.w.pendingEnd then
      p.(w := p.w.(pendingEnd := Min(Wrap32(p.w.next + Wrap32(p.x.chunkBytes * p.w.chunks)), p.x.totalSize)))
    else p
  }

  function StartStreaming(p: PushSession, now: uint32): PushSession {
    p.(beginAcked := true, phase := Streaming, w := p.w.(waiting := false, retryCount := 0), t := p.t.(nextSend := now))
  }

  function PumpWaitBegin(m: Master, now: uint32, env: PumpEnv): Master {
    var p := m.push;
    if Elapsed(now, p.t.lastActivity) >= 12000 then StopPush(m, now, false, Timeout, CODE_TIMEOUT, env)
    else
      var m1 := if Elapsed(now, p.t.lastPoll) >= 250
                then m.(sent := m.sent + [StatusQuery(p.x.reqId)], push := p.(t := p.t.(lastPoll := now))) else m;
      if !p.beginAcked && Elapsed(now, p.t.started) >= 900 then m1.(push := StartStreaming(m1.push, now)) else m1
  }

  function ReleaseWindow(p: PushSession): PushSession {
    p.(w := p.w.(waiting := false, retryCount := 0, pendingEnd := 0))
  }

  function Rewind(p: PushSession, now: uint32): PushSession {
    p.(w := p.w.(retryCount := p.w.retryCount + 1, waiting := false, pendingEnd := 0,
                 next := Min(p.w.remoteAcked, p.x.totalSize)),
       t := p.t.(nextSend := Wrap32(now + 12)))
  }

  function Recovering(w: Window): bool {
    w.chunks <= RECOVERY_WINDOW_CHUNKS
  }

  /** Waiting for the window's acknowledgement: release it, or rewind on timeout. */
  function PumpWaiting(m: Master, now: uint32, env: PumpEnv): Master {
    var p := m.push;
    if p.w.remoteAcked >= p.w.pendingEnd then m.(push := ReleaseWindow(p))
    else if Elapsed(now, p.t.waitStarted) >= (if Recovering(p.w) then 450 else 1500) then
      if p.w.retryCount >= (if Recovering(p.w) then CHUNK_ACK_MAX_RETRY_RECOVERY else CHUNK_ACK_MAX_RETRY)
      then StopPush(m, now, false, Timeout, CODE_TIMEOUT, env)
      else m.(push := Rewind(p, now))
    else m
  }

  function PumpEnd(m: Master, now: uint32, env: PumpEnv): Master {
    var p := m.push;
    if !env.endSent then StopPush(m, now, false, InternalError, CODE_INTERNAL_ERROR, env)
    else m.(sent := m.sent + [End(p.x.reqId, p.x.totalSize, p.x.imageCrc)],
            push := p.(phase := WaitEnd, t := p.t.(lastActivity := now)))
  }

  function AfterLoop(p: PushSession, now: uint32): PushSession {
    if p.w.next >= p.w.pendingEnd
    then p.(w := p.w.(waiting := true, retryCount := 0), t := p.t.(waitStarted := now))
    else p
  }

  function PumpWindow(m: Master, now: uint32, env: PumpEnv): Master
    requires |env.io| == CHUNK_BUDGET_PER_TICK
  {
    var (p, frames, exit) := SendLoop(OpenWindow(m.push), now, env.io, 0);
    var m1 := m.(push := p, sent := m.sent + frames);
    match exit
    case Failed(status, code) => StopPush(m1, now, false, status, code, env)
    case BackedOff => m1
    case Drained => m1.(push := AfterLoop(p, now))
  }

  function PumpStreaming(m: Master, now: uint32, env: PumpEnv): Master
    requires |env.io| == CHUNK_BUDGET_PER_TICK
  {
    if m.push.w.waiting then PumpWaiting(m, now, env)
    else if m.push.w.next >= m.push.x.totalSize then PumpEnd(m, now, env)
    else if Elapsed(now, m.push.t.nextSend) < 0 then m
    else PumpWindow(m, now, env)
  }

  function PumpPush(m: Master, now: uint32, env: PumpEnv): Master
    requires |env.io| == CHUNK_BUDGET_PER_TICK
  {
    var p := m.push;
    if !p.active then m
    else if !env.bound then StopPush(m, now, false, UnsupportedCommand, 0, env)
    else if !env.paired then StopPush(m, now, false, NotPaired, 0, env)
    else match p.phase
      case Idle => m
      case WaitBegin => PumpWaitBegin(m, now, env)
      case WaitEnd =>
        if Elapsed(now, p.t.lastActivity) >= 60000 then StopPush(m, now, false, Timeout, CODE_TIMEOUT, env) else m
      case Streaming =>
        if p.beginAcked then PumpStreaming(m, now, env)
        else if Elapsed(now, p.t.started) >= 900
        then PumpStreaming(m.(push := p.(beginAcked := true, t := p.t.(nextSend := now))), now, env)
        else m
  }

  function PumpUpdate(m: Master, now: uint32, paired: bool): Master {
    if !m.update.active then m
    else if !paired then StopUpdate(m, false, NotPaired, CODE_INVALID_STATE)
    else if m.update.phase == WaitBoot && Elapsed(now, m.update.lastActivity) >= 180000
    then StopUpdate(m, false, Timeout, CODE_TIMEOUT)
    else m
  }

  // ---------------------------------------------------------------- remote status events

  function RaiseAcked(w: Window, offset: uint32): Window {
    var w1 := if offset > w.remoteAcked then w.(remoteAcked := offset) else w;
    if w1.recoveryUntil != 0 && w1.remoteAcked >= w1.recoveryUntil
    then w1.(recoveryUntil := 0, chunks := FULL_WINDOW_CHUNKS) else w1
  }

  function OnAck(p: PushSession, now: uint32, offset: uint32): PushSession {
    var p1 := p.(w := RaiseAcked(p.w, offset));
    if !p1.beginAcked && offset == 0 then StartStreaming(p1, now)
    else if p1.phase == Streaming && p1.w.waiting && offset >= p1.w.pendingEnd then ReleaseWindow(p1)
    else p1
  }

  function OnNack(p: PushSession, now: uint32, offset: uint32): PushSession {
    if p.phase != Streaming then p
    else
      var rewind := Max(Min(Min(offset, p.x.totalSize), p.w.next), p.w.remoteAcked);
      p.(w := Window(rewind, 0, false, 0, RECOVERY_WINDOW_CHUNKS, rewind,
                     Min(Wrap32(rewind + p.x.chunkBytes), p.x.totalSize)),
         t := p.t.(nextSend := Wrap32(now + 20)))
  }

  function OnStatus(m: Master, now: uint32, corr: uint32, kind: StatusKind, offset: uint32, code: uint16,
                    env: PumpEnv): Master {
    if !(m.push.active && corr == m.push.x.reqId) then m
    else
      var m1 := m.(push := m.push.(t := m.push.t.(lastActivity := now)));
      match kind
      case ChunkAck => m1.(push := OnAck(m1.push, now, offset))
      case ChunkNack => m1.(push := OnNack(m1.push, now, offset))
      case FinalizeOk => if m.push.phase == WaitEnd then StopPush(m1, now, true, Ok, code, env) else m1
      case FinalizeFail => if m.push.phase == WaitEnd then StopPush(m1, now, false, InternalError, code, env) else m1
      case FinalizeAck => m1
  }

  function OnTransferReady(m: Master, now: uint32, peer: nat, corr: uint32, env: PumpEnv): Master {
    if m.push.active && m.push.phase == WaitEnd && peer == m.push.x.peer && corr == m.push.x.reqId
    then StopPush(m, now, true, Ok, CODE_OK, env) else m
  }

  function OnBootComplete(m: Master, peer: nat): Master {
    if m.update.active && m.update.phase == WaitBoot && peer == m.update.peer
    then StopUpdate(m, true, Ok, CODE_OK) else m
  }
}
