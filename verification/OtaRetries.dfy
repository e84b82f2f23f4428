/**
 The sender's retry counter is cleared each time a window has been sent, so its limit is never reached: a push whose
 acknowledgements stay away is repeated for as long as the slave is silent.
*/
module OtaRetries {
  import opened FixedWidth
  import opened OtaSender
  import opened OtaSenderSafety

  ghost predicate RetriesLow(w: Window) {
    w.retryCount <= 1 && (w.waiting ==> w.retryCount == 0)
  }

  lemma {:induction false} LoopKeepsCounters(p: PushSession, now: uint32, io: seq<ChunkIo>, k: nat)
    requires k <= CHUNK_BUDGET_PER_TICK == |io|
    ensures var p' := SendLoop(p, now, io, k).0; p'.w.retryCount == p.w.retryCount && p'.w.waiting == p.w.waiting
    decreases CHUNK_BUDGET_PER_TICK - k
  {
    if k < CHUNK_BUDGET_PER_TICK && p.w.next < p.x.totalSize && io[k].Read? && io[k].data != [] {
      LoopKeepsCounters(AfterChunk(p, |ChunkData(p, io[k].data)|), now, io, k + 1);
    }
  }

  lemma StopKeepsLow(m: Master, now: uint32, success: bool, status: Status, code: uint16, env: PumpEnv)
    requires RetriesLow(m.push.w)
    ensures RetriesLow(StopPush(m, now, success, status, code, env).push.w)
  {
    hide HandOverToUpdate;
  }

  lemma {:induction false} WindowKeepsLow(m: Master, now: uint32, env: PumpEnv)
    requires |env.io| == CHUNK_BUDGET_PER_TICK && RetriesLow(m.push.w) && !m.push.w.waiting
    ensures RetriesLow(PumpWindow(m, now, env).push.w)
  {
    hide SendLoop, StopPush;
    LoopKeepsCounters(OpenWindow(m.push), now, env.io, 0);
    var (p, frames, exit) := SendLoop(OpenWindow(m.push), now, env.io, 0);
    if exit.Failed? {
      StopKeepsLow(m.(push := p, sent := m.sent + frames), now, false, exit.status, exit.code, env);
    }
  }

  /** An expired wait rewinds to the acknowledged offset; it never ends the push. */
  lemma WaitNeverGivesUp(m: Master, now: uint32, env: PumpEnv)
    requires RetriesLow(m.push.w) && m.push.w.waiting
    ensures var m' := PumpWaiting(m, now, env);
            && m'.events == m.events && m'.sent == m.sent && m'.update == m.update
            && m'.push.active == m.push.active && m'.push.phase == m.push.phase
            && RetriesLow(m'.push.w)
  {
    hide StopPush;
  }

  lemma StreamingKeepsLow(m: Master, now: uint32, env: PumpEnv)
    requires |env.io| == CHUNK_BUDGET_PER_TICK && RetriesLow(m.push.w)
    ensures RetriesLow(PumpStreaming(m, now, env).push.w)
  {
    hide PumpWaiting, PumpWindow, StopPush, Elapsed, RetriesLow;
    if m.push.w.waiting {
      WaitNeverGivesUp(m, now, env);
    } else if m.push.w.next >= m.push.x.totalSize {
      StopKeepsLow(m, now, false, InternalError, CODE_INTERNAL_ERROR, env);
      SameWindow(m, PumpEnd(m, now, env));
    } else if Elapsed(now, m.push.t.nextSend) >= 0 {
      WindowKeepsLow(m, now, env);
    }
  }

  lemma SameWindow(m: Master, n: Master)
    requires RetriesLow(m.push.w)
    ensures n.push.w == m.push.w ==> RetriesLow(n.push.w)
  {
  }

  lemma PumpKeepsLow(m: Master, now: uint32, env: PumpEnv)
    requires |env.io| == CHUNK_BUDGET_PER_TICK && RetriesLow(m.push.w)
    ensures RetriesLow(PumpPush(m, now, env).push.w)
  {
    hide PumpStreaming, StopPush, Elapsed;
    var p := m.push;
    StopKeepsLow(m, now, false, UnsupportedCommand, 0, env);
    StopKeepsLow(m, now, false, NotPaired, 0, env);
    StopKeepsLow(m, now, false, Timeout, CODE_TIMEOUT, env);
    StreamingKeepsLow(m, now, env);
    StreamingKeepsLow(m.(push := p.(beginAcked := true, t := p.t.(nextSend := now))), now, env);
  }

  /** Whatever the ticks and reports, the counter never passes one. */
  lemma StepKeepsLow(m: Master, i: Input)
    requires (i.Tick? ==> |i.env.io| == CHUNK_BUDGET_PER_TICK) && RetriesLow(m.push.w)
    ensures RetriesLow(Step(m, i).push.w)
  {
    hide PumpPush, StopPush, Elapsed, RaiseAcked;
    match i
    case Tick(now, env) => PumpKeepsLow(m, now, env);
    case Remote(now, corr, kind, offset, code, env) => StatusKeepsLow(m, now, corr, kind, offset, code, env);
    case Ready(now, peer, corr, env) => StopKeepsLow(m, now, true, Ok, CODE_OK, env);
    case BootComplete(peer) =>
    case UpdateTick(now, paired) =>
  }

  lemma StatusKeepsLow(m: Master, now: uint32, corr: uint32, kind: StatusKind, offset: uint32, code: uint16,
                       env: PumpEnv)
    requires RetriesLow(m.push.w)
    ensures RetriesLow(OnStatus(m, now, corr, kind, offset, code, env).push.w)
  {
    hide StopPush;
    var m1 := m.(push := m.push.(t := m.push.t.(lastActivity := now)));
    StopKeepsLow(m1, now, true, Ok, code, env);
    StopKeepsLow(m1, now, false, InternalError, code, env);
  }

  ghost function RunSender(m: Master, inputs: seq<Input>): Master
    requires forall i :: 0 <= i < |inputs| ==> inputs[i].Tick? ==> |inputs[i].env.io| == CHUNK_BUDGET_PER_TICK
    decreases |inputs|
  {
    if inputs == [] then m else RunSender(Step(m, inputs[0]), inputs[1..])
  }

  /** In every run of a fresh push the next expired wait, whenever it comes, starts the window over. */
  lemma {:induction false} RetryLimitNeverReached(m: Master, inputs: seq<Input>, now: uint32, env: PumpEnv)
    requires RetriesLow(m.push.w)
    requires forall i :: 0 <= i < |inputs| ==> inputs[i].Tick? ==> |inputs[i].env.io| == CHUNK_BUDGET_PER_TICK
    ensures var a := RunSender(m, inputs);
            && RetriesLow(a.push.w)
            && (a.push.w.waiting && a.push.w.remoteAcked < a.push.w.pendingEnd
                && Elapsed(now, a.push.t.waitStarted) >= (if Recovering(a.push.w) then 450 else 1500)
                ==> PumpWaiting(a, now, env) == a.(push := Rewind(a.push, now)))
    decreases |inputs|
  {
    hide Step, Rewind, StopPush, Elapsed;
    if inputs != [] {
      StepKeepsLow(m, inputs[0]);
      RetryLimitNeverReached(Step(m, inputs[0]), inputs[1..], now, env);
    }
  }
}
