/**
 Staging a topology on a slave, one frame per acknowledgement, and the pull bookkeeping around it: pending
 pulls, deferred commits, and what each reply, command or timeout does to them.
*/
module TopologyStaging {
  import opened FixedWidth
  import opened TopologyTypes
  import opened NodeBundle

  datatype Status = Ok | OkDeferred | InternalError | Timeout | QueueFull | Failure(code: nat)

  const STAGE_SET: nat := 1
  const COMMIT: nat := 2

  datatype StageFrame =
    | Clear
    | BeginStage(schema: byte, version: uint32, neg: byte, pos: byte)
    | SetGroup(group: Group)
    | SetSlot(slot: Slot)
    | Finalize
    | Commit

  datatype StageStep = NoStep | WaitClear | WaitBegin | WaitGroup | WaitSlot | WaitFinalize

  /** One stage request in flight; `openedAt` is the place of its opening in the service log. */
  datatype Stage = Stage(
    step: StageStep,
    groupCursor: nat,
    slotCursor: nat,
    finalizeCorr: uint32,
    seen: nat,
    snapshot: Snapshot,
    openedAt: nat)

  /** What a pending pull waits for. */
  datatype Mode = Plain | LooseBundle | StrictBundle(bundle: Bundle) | Staging(stage: Stage)

  datatype Pending = Pending(
    reqId: uint32,
    cmd: nat,
    source: nat,
    peer: nat,
    deadline: uint32,
    corrFirst: uint32,
    corrLast: uint32,
    mode: Mode,
    chunks: nat)

  datatype DeferredCommit = DeferredCommit(reqId: uint32, source: nat, peer: nat, deadline: uint32)

  datatype Leaving = StageFailed(status: Status) | SendFailed | TimedOut | Dispatched

  /** Everything observable, in order. */
  datatype Entry =
    | Opened(peer: nat, reqId: uint32, snapshot: Snapshot)
    | Sent(peer: nat, corr: uint32, frame: StageFrame)
    | Acked(peer: nat, corr: uint32)
    | Respond(source: nat, cmd: nat, reqId: uint32, peer: nat, status: Status)
    | Queued(commit: DeferredCommit)
    | Left(commit: DeferredCommit, how: Leaving)

  datatype Service = Service(
    pending: seq<Pending>,
    deferred: seq<DeferredCommit>,
    nextCorr: uint32,
    now: uint32,
    log: seq<Entry>)

  datatype DescKind = AckKind | ErrorKind(code: nat) | BundleKind(page: Page) | DataKind(page: Page)

  /** A reply as the active codec sees it; `reencoded` is whether the descriptor could be written out again. */
  datatype Reply = Empty | Undecodable | Control(ok: bool) | Foreign | Descriptor(kind: DescKind, reencoded: bool)

  // ---------------------------------------------------------------- correlation ids

  const FIRST_INTERNAL_CORR: uint32 := 0x8000_0000

  function AllocateCorr(next: uint32): (corr: uint32)
    ensures corr != 0
  {
    if next < FIRST_INTERNAL_CORR then FIRST_INTERNAL_CORR else next
  }

  function NextCorr(corr: uint32): uint32 {
    if Wrap32(corr + 1) < FIRST_INTERNAL_CORR then FIRST_INTERNAL_CORR else Wrap32(corr + 1)
  }

  /** The ids of frames the master sends on its own account, one after the other. */
  function IdAfter(first: uint32, k: nat): uint32 {
    if k == 0 then AllocateCorr(first) else NextCorr(IdAfter(first, k - 1))
  }

  lemma NextOnCircle(n: nat)
    ensures var (at, next) := (n % 0x8000_0000, (n + 1) % 0x8000_0000);
            next == (if at == 0x7FFF_FFFF then 0 else at + 1) && NextCorr(0x8000_0000 + at) == 0x8000_0000 + next
  {
  }

  /** They run through the upper half of the 32-bit range and start over at its first number. */
  lemma {:induction false} IdsRunInUpperHalf(first: uint32, k: nat)
    ensures var start := if first < 0x8000_0000 then 0 else first - 0x8000_0000;
            IdAfter(first, k) == 0x8000_0000 + (start + k) % 0x8000_0000
  {
    if k != 0 {
      IdsRunInUpperHalf(first, k - 1);
      NextOnCircle((if first < 0x8000_0000 then 0 else first - 0x8000_0000) + k - 1);
    }
  }

  /** So no two of 2^31 ids in a row are the same, and none of them is one that a client may have chosen below. */
  lemma {:induction false} IdsDiffer(first: uint32, i: nat, j: nat)
    requires i < j < i + 0x8000_0000
    ensures IdAfter(first, i) != IdAfter(first, j) && IdAfter(first, i) >= 0x8000_0000
  {
    hide IdAfter;
    IdsRunInUpperHalf(first, i);
    IdsRunInUpperHalf(first, j);
  }

  // ---------------------------------------------------------------- one stage request

  /** The frame the next step sends, and the request after it. */
  function NextFrame(st: Stage, next: StageStep): StageFrame
    requires next == WaitGroup ==> st.groupCursor < |st.snapshot.groups|
    requires next == WaitSlot ==> st.slotCursor < |st.snapshot.slots|
  {
    var snap := st.snapshot;
    match next
    case WaitBegin => BeginStage(snap.schema, snap.version, snap.neg, snap.pos)
    case WaitGroup => SetGroup(snap.groups[st.groupCursor])
    case WaitSlot => SetSlot(snap.slots[st.slotCursor])
    case _ => Finalize
  }

  function Advance(st: Stage, next: StageStep, corr: uint32): Stage {
    match next
    case WaitGroup => st.(step := next, groupCursor := st.groupCursor + 1)
    case WaitSlot => st.(step := next, slotCursor := st.slotCursor + 1)
    case WaitFinalize => st.(step := next, finalizeCorr := corr)
    case _ => st.(step := next)
  }

  function NextDataStep(st: Stage): StageStep {
    if st.groupCursor < |st.snapshot.groups| then WaitGroup
    else if st.slotCursor < |st.snapshot.slots| then WaitSlot
    else WaitFinalize
  }

  datatype StageOutcome = Ended(status: Status) | Continues(next: Stage, frame: StageFrame)

  function Dispatch(st: Stage, next: StageStep, corr: uint32, sendOk: bool): StageOutcome
    requires next == WaitGroup ==> st.groupCursor < |st.snapshot.groups|
    requires next == WaitSlot ==> st.slotCursor < |st.snapshot.slots|
  {
    if sendOk then Continues(Advance(st, next, corr), NextFrame(st, next)) else Ended(InternalError)
  }

  /** An acknowledgement with correlation `corr`; `newCorr` is the id a next frame would carry. */
  function OnStageAck(st: Stage, corr: uint32, newCorr: uint32, sendOk: bool): StageOutcome {
    var st1 := st.(seen := Min(st.seen + 1, 0xFFFF));
    match st.step
    case NoStep => Ended(InternalError)
    case WaitClear => Dispatch(st1, WaitBegin, newCorr, sendOk)
    case WaitFinalize => Ended(if st.finalizeCorr != 0 && corr != st.finalizeCorr then InternalError else Ok)
    case _ => Dispatch(st1, NextDataStep(st1), newCorr, sendOk)
  }

  function OnStageReply(st: Stage, corr: uint32, newCorr: uint32, reply: Reply, sendOk: bool): StageOutcome {
    if !reply.Descriptor? then Ended(InternalError)
    else match reply.kind
      case AckKind => OnStageAck(st, corr, newCorr, sendOk)
      case ErrorKind(code) => Ended(Failure(code))
      case _ => Ended(InternalError)
  }

  // ---------------------------------------------------------------- other pulls

  function PlainStatus(reply: Reply): Status {
    match reply
    case Control(ok) => if ok then Ok else InternalError
    case Descriptor(ErrorKind(code), _) => Failure(code)
    case Descriptor(_, reencoded) => if reencoded then Ok else InternalError
    case _ => InternalError
  }

  function PageOf(kind: DescKind): Page {
    match kind
    case BundleKind(page) => page
    case DataKind(page) => page
    case _ => OneShot(0)
  }

  /** The status of a reply to a bundle pull, what the pull then waits for, and whether it stays pending. */
  function OnBundleReply(mode: Mode, reply: Reply): (Status, Mode, bool)
    requires mode.LooseBundle? || mode.StrictBundle?
  {
    var status := PlainStatus(reply);
    if !(reply.Descriptor? && status == Ok) then (status, mode, false)
    else if mode.LooseBundle? then
      var page := PageOf(reply.kind);
      if page.OneShot? || page.done then (Ok, mode, false) else (OkDeferred, mode, true)
    else if !reply.kind.BundleKind? then (InternalError, mode, false)
    else
      var bundle := OnPage(mode.bundle, reply.kind.page);
      if Complete(bundle) then (Ok, StrictBundle(bundle), false) else (OkDeferred, StrictBundle(bundle), true)
  }

  // ---------------------------------------------------------------- the pending list

  predicate Matches(p: Pending, from: nat, corr: uint32) {
    && p.peer == from
    && (p.mode.Staging? ==> corr == p.corrLast)
    && (!p.mode.Staging? ==> (if p.corrFirst == 0 then p.reqId else p.corrFirst) <= corr)
    && (!p.mode.Staging? ==> corr <= (if p.corrLast == 0 then p.reqId else p.corrLast))
  }

  /** The first pending pull a reply belongs to; the list's length when there is none. */
  function FindPending(ps: seq<Pending>, from: nat, corr: uint32): (i: nat)
    ensures i <= |ps| && (i < |ps| ==> Matches(ps[i], from, corr))
    ensures forall j :: 0 <= j < i ==> !Matches(ps[j], from, corr)
  {
    if ps == [] then 0
    else if Matches(ps[0], from, corr) then 0
    else
      var rest := FindPending(ps[1..], from, corr);
      assert forall j :: 0 < j < 1 + rest ==> ps[j] == ps[1..][j - 1];
      1 + rest
  }

  function HasStage(ps: seq<Pending>, peer: nat): bool {
    exists i :: 0 <= i < |ps| && ps[i].peer == peer && ps[i].cmd == STAGE_SET
  }

  predicate SameKey(a: Pending, b: Pending) {
    a.source == b.source && a.peer == b.peer && a.corrFirst == b.corrFirst && a.corrLast == b.corrLast
  }

  /** Tracking a pull: a request without an id is not tracked; one with the key of a tracked pull replaces it. */
  function Track(ps: seq<Pending>, p: Pending): seq<Pending> {
    if p.reqId == 0 then ps else Replace(ps, p)
  }

  function Replace(ps: seq<Pending>, p: Pending): seq<Pending> {
    if ps == [] then [p]
    else if SameKey(ps[0], p) then [p] + ps[1..]
    else [ps[0]] + Replace(ps[1..], p)
  }

  function Without(ps: seq<Pending>, i: nat): seq<Pending>
    requires i < |ps|
  {
    ps[..i] + ps[i + 1..]
  }

  // ---------------------------------------------------------------- deferred commits

  function CommitPending(d: DeferredCommit, now: uint32): Pending {
    var left := if d.deadline > now then Wrap32(d.deadline - now) else 0;
    Pending(d.reqId, COMMIT, d.source, d.peer, Wrap32(now + (if left == 0 then DEFAULT_TIMEOUT else left)), d.reqId,
            d.reqId, Plain, 0)
  }

  const DEFAULT_TIMEOUT: uint32 := 1500

  /** One deferred commit of the peer whose stage just ended with `status`. */
  function ReleaseOne(s: Service, d: DeferredCommit, status: Status, sendOk: bool): Service {
    if status != Ok then
      s.(log := s.log + [Left(d, StageFailed(status)), Respond(d.source, COMMIT, d.reqId, d.peer, status)])
    else if !sendOk then
      s.(log := s.log + [Left(d, SendFailed), Respond(d.source, COMMIT, d.reqId, d.peer, InternalError)])
    else
      s.(log := s.log + [Left(d, Dispatched), Sent(d.peer, d.reqId, Commit)],
         pending := Track(s.pending, CommitPending(d, s.now)))
  }

  /** The deferred list from `ds` on, with `keep` the commits already kept for other peers. */
  function ReleaseCommits(s: Service, ds: seq<DeferredCommit>, keep: seq<DeferredCommit>, peer: nat, status: Status,
                          sends: seq<bool>): Service
    decreases |ds|
  {
    if ds == [] then s.(deferred := keep)
    else if ds[0].peer != peer then ReleaseCommits(s, ds[1..], keep + [ds[0]], peer, status, sends)
    else
      var sendOk := if |sends| >= |ds| then sends[|sends| - |ds|] else true;
      ReleaseCommits(ReleaseOne(s, ds[0], status, sendOk), ds[1..], keep, peer, status, sends)
  }

  // ---------------------------------------------------------------- the entry points

  function RespondFor(p: Pending, status: Status): Entry {
    Respond(p.source, p.cmd, p.reqId, p.peer, status)
  }

  /** A reply to a pending stage request. */
  function OnStaging(s: Service, i: nat, corr: uint32, reply: Reply, sendOk: bool, timeout: uint32,
                     sends: seq<bool>): Service
    requires i < |s.pending| && s.pending[i].mode.Staging?
  {
    var p := s.pending[i];
    var newCorr := AllocateCorr(s.nextCorr);
    var acked := reply.Descriptor? && reply.kind.AckKind?;
    var asks := acked && p.mode.stage.step != WaitFinalize && p.mode.stage.step != NoStep;
    var s1 := s.(nextCorr := if asks then NextCorr(newCorr) else s.nextCorr,
                 log := if acked then s.log + [Acked(p.peer, corr)] else s.log);
    match OnStageReply(p.mode.stage, corr, newCorr, reply, sendOk)
    case Continues(st, frame) =>
      var p' := p.(mode := Staging(st), corrFirst := newCorr, corrLast := newCorr, chunks := p.chunks + 1,
                   deadline := Wrap32(s.now + timeout));
      s1.(pending := s.pending[i := p'], log := s1.log + [Sent(p.peer, newCorr, frame), RespondFor(p, OkDeferred)])
    case Ended(status) =>
      var s2 := s1.(pending := Without(s.pending, i), log := s1.log + [RespondFor(p, status)]);
      ReleaseCommits(s2, s2.deferred, [], p.peer, status, sends)
  }

  /** A reply to any other pending pull. */
  function OnOther(s: Service, i: nat, reply: Reply, timeout: uint32): Service
    requires i < |s.pending| && !s.pending[i].mode.Staging?
  {
    var p := s.pending[i];
    var (status, mode, keep) :=
      if p.mode.Plain? then (PlainStatus(reply), p.mode, false) else OnBundleReply(p.mode, reply);
    var kept := p.(mode := mode, chunks := p.chunks + 1, deadline := Wrap32(s.now + timeout));
    s.(pending := if keep then s.pending[i := kept] else Without(s.pending, i),
       log := s.log + [RespondFor(p, status)])
  }

  /** `onPullResponse`: at most the first matching pull is touched; strays are ignored. */
  function OnPullResponse(s: Service, from: nat, corr: uint32, reply: Reply, sendOk: bool, timeout: uint32,
                          sends: seq<bool>): Service {
    var i := FindPending(s.pending, from, corr);
    if corr == 0 || i == |s.pending| then s
    else if s.pending[i].mode.Staging? then OnStaging(s, i, corr, reply, sendOk, timeout, sends)
    else OnOther(s, i, reply, timeout)
  }

  /** The stage command: refused while the peer has one in flight, otherwise the clear frame goes out. */
  function StageCommand(s: Service, reqId: uint32, source: nat, peer: nat, snapshot: Snapshot, sendOk: bool,
                        timeout: uint32): Service {
    if HasStage(s.pending, peer) then s.(log := s.log + [Respond(source, STAGE_SET, reqId, peer, QueueFull)])
    else
      var corr := AllocateCorr(s.nextCorr);
      var s1 := s.(nextCorr := NextCorr(corr));
      if !sendOk then s1.(log := s1.log + [Respond(source, STAGE_SET, reqId, peer, InternalError)])
      else
        var p := Pending(reqId, STAGE_SET, source, peer, Wrap32(s.now + timeout), corr, corr,
                         Staging(Stage(WaitClear, 0, 0, corr, 0, snapshot, |s1.log|)), 0);
        s1.(pending := Track(s1.pending, p),
            log := s1.log + [Opened(peer, reqId, snapshot), Sent(peer, corr, Clear),
                             Respond(source, STAGE_SET, reqId, peer, OkDeferred)])
  }

  /** The commit command: deferred while the peer's stage is in flight, otherwise sent at once. */
  function CommitCommand(s: Service, reqId: uint32, source: nat, peer: nat, sendOk: bool, timeout: uint32): Service {
    if HasStage(s.pending, peer) then
      var duplicate := exists i :: 0 <= i < |s.deferred| && s.deferred[i].reqId == reqId
                                   && s.deferred[i].source == source && s.deferred[i].peer == peer;
      var d := DeferredCommit(reqId, source, peer, Wrap32(s.now + timeout));
      s.(deferred := if duplicate then s.deferred else s.deferred + [d],
         log := s.log + (if duplicate then [] else [Queued(d)]) + [Respond(source, COMMIT, reqId, peer, OkDeferred)])
    else if !sendOk then s.(log := s.log + [Respond(source, COMMIT, reqId, peer, InternalError)])
    else
      s.(pending := Track(s.pending, Pending(reqId, COMMIT, source, peer, Wrap32(s.now + timeout), reqId, reqId, Plain,
                                             0)),
         log := s.log + [Sent(peer, reqId, Commit), Respond(source, COMMIT, reqId, peer, OkDeferred)])
  }

  /** Any other tracked pull. */
  function PullCommand(s: Service, reqId: uint32, cmd: nat, source: nat, peer: nat, mode: Mode,
                       timeout: uint32): Service
    requires cmd != STAGE_SET && cmd != COMMIT && !mode.Staging?
  {
    s.(pending := Track(s.pending, Pending(reqId, cmd, source, peer, Wrap32(s.now + timeout), reqId, reqId, mode, 0)),
       log := s.log + [Respond(source, cmd, reqId, peer, OkDeferred)])
  }

  function Unexpired(ps: seq<Pending>, now: uint32): seq<Pending> {
    if ps == [] then []
    else if Elapsed(now, ps[0].deadline) >= 0 then Unexpired(ps[1..], now)
    else [ps[0]] + Unexpired(ps[1..], now)
  }

  /** Deferred commits past their deadline leave with a timeout response; pulls past theirs leave silently. */
  function ExpireCommits(s: Service, ds: seq<DeferredCommit>, keep: seq<DeferredCommit>): Service
    decreases |ds|
  {
    if ds == [] then s.(deferred := keep)
    else if Elapsed(s.now, ds[0].deadline) >= 0 then
      ExpireCommits(s.(log := s.log + [Left(ds[0], TimedOut),
                                       Respond(ds[0].source, COMMIT, ds[0].reqId, ds[0].peer, Timeout)]),
                    ds[1..], keep)
    else ExpireCommits(s, ds[1..], keep + [ds[0]])
  }

  function Prune(s: Service, now: uint32): Service {
    var s1 := s.(now := now, pending := Unexpired(s.pending, now));
    ExpireCommits(s1, s1.deferred, [])
  }

  // ---------------------------------------------------------------- runs

  datatype Event =
    | StageCmd(reqId: uint32, source: nat, peer: nat, snapshot: Snapshot, sendOk: bool, timeout: uint32)
    | CommitCmd(reqId: uint32, source: nat, peer: nat, sendOk: bool, timeout: uint32)
    | PullCmd(reqId: uint32, cmd: nat, source: nat, peer: nat, mode: Mode, timeout: uint32)
    | ReplyEvent(from: nat, corr: uint32, reply: Reply, sendOk: bool, timeout: uint32, sends: seq<bool>)
    | PruneAt(now: uint32)

  predicate Proper(e: Event) {
    e.PullCmd? ==> e.cmd != STAGE_SET && e.cmd != COMMIT && !e.mode.Staging?
  }

  function Handle(s: Service, e: Event): Service
    requires Proper(e)
  {
    match e
    case StageCmd(reqId, source, peer, snapshot, sendOk, timeout) => StageCommand(s, reqId, source, peer, snapshot,
                                                                                  sendOk, timeout)
    case CommitCmd(reqId, source, peer, sendOk, timeout) => CommitCommand(s, reqId, source, peer, sendOk, timeout)
    case PullCmd(reqId, cmd, source, peer, mode, timeout) => PullCommand(s, reqId, cmd, source, peer, mode, timeout)
    case ReplyEvent(from, corr, reply, sendOk, timeout, sends) => OnPullResponse(s, from, corr, reply, sendOk, timeout,
                                                                                 sends)
    case PruneAt(now) => Prune(s, now)
  }

  function HandleAll(s: Service, es: seq<Event>): Service
    requires forall i :: 0 <= i < |es| ==> Proper(es[i])
  {
    if es == [] then s else Handle(HandleAll(s, es[..|es| - 1]), es[|es| - 1])
  }

  const EMPTY_SERVICE := Service([], [], FIRST_INTERNAL_CORR, 0, [])
}
