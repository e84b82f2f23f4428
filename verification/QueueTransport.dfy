/**
 The in-memory mailbox between a front end and the management runtime: three bounded first-in first-out queues that
 either refuse a newcomer or give up their oldest entry, with counters of both.
*/
module QueueTransport {
  import opened Options
  import RequestQueue

  type Request = RequestQueue.Request

  datatype Response = Response(source: nat, requestId: nat, status: nat)

  datatype Event = Event(source: nat, kind: nat, requestId: nat)

  datatype OverflowPolicy = RejectNew | DropOldest

  datatype Admission = Admitted | Rejected | DroppedOldest

  datatype QueueStats = QueueStats(enqueued: nat, rejected: nat, dropped: nat)

  const FRESH := QueueStats(0, 0, 0)

  datatype Config = Config(source: nat, access: nat,
                           maxRequests: nat, maxResponses: nat, maxEvents: nat,
                           requestPolicy: OverflowPolicy, responsePolicy: OverflowPolicy, eventPolicy: OverflowPolicy)

  // ---------------------------------------------------------------- one mailbox

  datatype Mailbox<T> = Mailbox(pending: seq<T>, stats: QueueStats)

  /** What becomes of a newcomer. */
  function Admit(pending: nat, size: nat, policy: OverflowPolicy): Admission {
    if size == 0 then Rejected
    else if pending < size then Admitted
    else if policy == RejectNew then Rejected
    else DroppedOldest
  }

  function Pushed<T>(m: Mailbox<T>, size: nat, policy: OverflowPolicy, x: T): Mailbox<T> {
    match Admit(|m.pending|, size, policy)
    case Rejected => m.(stats := m.stats.(rejected := m.stats.rejected + 1))
    case Admitted => Mailbox(m.pending + [x], m.stats.(enqueued := m.stats.enqueued + 1))
    case DroppedOldest =>
      Mailbox(m.pending[1..] + [x], m.stats.(enqueued := m.stats.enqueued + 1, dropped := m.stats.dropped + 1))
  }

  // ---------------------------------------------------------------- whole runs of one mailbox

  datatype Step<T> = Push(item: T) | Poll | Clear | Configure(size: nat, policy: OverflowPolicy)

  /**
   A mailbox with everything that ever happened to it: what was offered, let in, handed out, and has left by any
   door.
  */
  datatype History<T> = History(box: Mailbox<T>, size: nat, policy: OverflowPolicy,
                                offered: seq<T>, admitted: seq<T>, polled: seq<T>, gone: seq<T>, cleared: nat,
                                largest: nat, everDropping: bool)

  function Opened<T>(size: nat, policy: OverflowPolicy): History<T> {
    History(Mailbox([], FRESH), size, policy, [], [], [], [], 0, size, policy == DropOldest)
  }

  function After<T>(h: History<T>, step: Step<T>): History<T> {
    match step
    case Push(x) =>
      h.(box := Pushed(h.box, h.size, h.policy, x),
         offered := h.offered + [x],
         admitted := if Admit(|h.box.pending|, h.size, h.policy) == Rejected then h.admitted else h.admitted + [x],
         gone := if Admit(|h.box.pending|, h.size, h.policy) == DroppedOldest then h.gone + [h.box.pending[0]]
             else h.gone)
    case Poll =>
      if h.box.pending == [] then h
      else h.(box := h.box.(pending := h.box.pending[1..]), polled := h.polled + [h.box.pending[0]],
              gone := h.gone + [h.box.pending[0]])
    case Clear => h.(box := h.box.(pending := []), gone := h.gone + h.box.pending,
                     cleared := h.cleared + |h.box.pending|)
    case Configure(size, policy) =>
      h.(size := size, policy := policy,
         largest := if size > h.largest then size else h.largest,
         everDropping := h.everDropping || policy == DropOldest)
  }

  function Run<T>(h: History<T>, steps: seq<Step<T>>): History<T>
    decreases |steps|
  {
    if steps == [] then h else Run(After(h, steps[0]), steps[1..])
  }

  /** `a` is `b` with some entries left out, the rest in their order. */
  predicate Subsequence<T(==)>(a: seq<T>, b: seq<T>) {
    || a == []
    || (&& b != []
        && (|| (a[|a| - 1] == b[|b| - 1] && Subsequence(a[..|a| - 1], b[..|b| - 1]))
            || Subsequence(a, b[..|b| - 1])))
  }

  lemma {:induction false} SubsequenceBoth<T>(a: seq<T>, b: seq<T>, x: T)
    requires Subsequence(a, b)
    ensures Subsequence(a + [x], b + [x])
  {
    assert (a + [x])[..|a|] == a && (b + [x])[..|b|] == b;
  }

  lemma {:induction false} SubsequenceMore<T>(a: seq<T>, b: seq<T>, x: T)
    requires Subsequence(a, b)
    ensures Subsequence(a, b + [x])
  {
    assert (b + [x])[..|b|] == b;
  }

  lemma {:induction false} SubsequenceMoreAll<T>(a: seq<T>, b: seq<T>, c: seq<T>)
    requires Subsequence(a, b)
    ensures Subsequence(a, b + c)
    decreases |c|
  {
    if c == [] {
      assert b + c == b;
    } else {
      SubsequenceMoreAll(a, b, c[..|c| - 1]);
      SubsequenceMore(a, b + c[..|c| - 1], c[|c| - 1]);
      assert b + c == b + c[..|c| - 1] + [c[|c| - 1]];
    }
  }

  /** Nothing is lost, invented, duplicated or overtaken, and the counters say where everything went. */
  ghost predicate Accounted<T(!new)>(h: History<T>) {
    && h.admitted == h.gone + h.box.pending
    && Subsequence(h.polled, h.gone)
    && |h.gone| == |h.polled| + h.box.stats.dropped + h.cleared
    && |h.admitted| == h.box.stats.enqueued
    && |h.offered| == h.box.stats.enqueued + h.box.stats.rejected
    && Subsequence(h.admitted, h.offered)
    && |h.box.pending| <= h.largest && h.size <= h.largest
    && (!h.everDropping ==> h.box.stats.dropped == 0 && h.policy == RejectNew)
  }

  lemma {:induction false} MoveOver<T>(a: seq<T>, b: seq<T>, x: T)
    ensures a + b + [x] == a + (b + [x])
    ensures b != [] ==> a + b + [x] == a + [b[0]] + (b[1..] + [x])
  {
  }

  lemma {:induction false} RefusalAccounted<T(!new)>(h: History<T>, x: T)
    requires Accounted(h) && Admit(|h.box.pending|, h.size, h.policy) == Rejected
    ensures Accounted(After(h, Push(x)))
  {
    hide Subsequence, Admit;
    SubsequenceMore(h.admitted, h.offered, x);
  }

  lemma {:induction false} AdmissionAccounted<T(!new)>(h: History<T>, x: T)
    requires Accounted(h) && Admit(|h.box.pending|, h.size, h.policy) == Admitted && |h.box.pending| < h.size
    ensures Accounted(After(h, Push(x)))
  {
    hide Subsequence, Admit;
    SubsequenceBoth(h.admitted, h.offered, x);
    MoveOver(h.gone, h.box.pending, x);
  }

  lemma {:induction false} DropAccounted<T(!new)>(h: History<T>, x: T)
    requires Accounted(h) && Admit(|h.box.pending|, h.size, h.policy) == DroppedOldest
    requires h.box.pending != [] && h.policy == DropOldest
    ensures Accounted(After(h, Push(x)))
  {
    hide Subsequence, Admit;
    SubsequenceBoth(h.admitted, h.offered, x);
    SubsequenceMore(h.polled, h.gone, h.box.pending[0]);
    MoveOver(h.gone, h.box.pending, x);
  }

  lemma {:induction false} PushAccounted<T(!new)>(h: History<T>, x: T)
    requires Accounted(h)
    ensures Accounted(After(h, Push(x)))
  {
    hide Accounted, After;
    match Admit(|h.box.pending|, h.size, h.policy)
    case Rejected => RefusalAccounted(h, x);
    case Admitted => AdmissionAccounted(h, x);
    case DroppedOldest => DropAccounted(h, x);
  }

  lemma {:induction false} StepAccounted<T(!new)>(h: History<T>, step: Step<T>)
    requires Accounted(h)
    ensures Accounted(After(h, step))
  {
    hide Subsequence;
    var p := h.box.pending;
    match step
    case Push(x) =>
      PushAccounted(h, x);
    case Poll =>
      if p != [] {
        SubsequenceBoth(h.polled, h.gone, p[0]);
        assert h.gone + p == h.gone + [p[0]] + p[1..];
      }
    case Clear =>
      SubsequenceMoreAll(h.polled, h.gone, p);
      assert h.gone + p == h.gone + p + [];
    case Configure(_, _) =>
  }

  lemma {:induction false} RunAccounted<T(!new)>(h: History<T>, steps: seq<Step<T>>)
    requires Accounted(h)
    ensures Accounted(Run(h, steps))
    decreases |steps|
  {
    hide Accounted, After;
    if steps != [] {
      StepAccounted(h, steps[0]);
      RunAccounted(After(h, steps[0]), steps[1..]);
    }
  }

  /** Every run of a mailbox is accounted for, whatever is pushed, polled, cleared or reconfigured. */
  lemma {:induction false} AlwaysAccounted<T(!new)>(size: nat, policy: OverflowPolicy, steps: seq<Step<T>>)
    ensures Accounted(Run(Opened(size, policy), steps))
  {
    RunAccounted(Opened<T>(size, policy), steps);
  }

  /** The size and policy in force: those of the last reconfiguration, or else the ones it was opened with. */
  ghost predicate InForce<T(!new)>(steps: seq<Step<T>>, size0: nat, policy0: OverflowPolicy, size: nat,
                                   policy: OverflowPolicy) {
    || (size == size0 && policy == policy0 && forall i :: 0 <= i < |steps| ==> !steps[i].Configure?)
    || (exists k :: 0 <= k < |steps| && steps[k] == Configure(size, policy)
                    && forall i :: k < i < |steps| ==> !steps[i].Configure?)
  }

  /** Each push of a run is judged by the size and policy in force; a reconfiguration itself takes nothing away. */
  lemma {:induction false} LastConfigured<T(!new)>(h: History<T>, steps: seq<Step<T>>)
    ensures InForce(steps, h.size, h.policy, Run(h, steps).size, Run(h, steps).policy)
    decreases |steps|
  {
    hide Pushed;
    if steps != [] {
      var h1, rest, e := After(h, steps[0]), steps[1..], Run(h, steps);
      LastConfigured(h1, rest);
      assert forall i :: 0 < i < |steps| ==> steps[i] == rest[i - 1];
      if k :| 0 <= k < |rest| && rest[k] == Configure(e.size, e.policy)
              && forall i :: k < i < |rest| ==> !rest[i].Configure? {
        assert steps[k + 1] == Configure(e.size, e.policy);
      }
    }
  }

  lemma ConfigureKeepsBox<T>(h: History<T>, size: nat, policy: OverflowPolicy)
    ensures After(h, Configure(size, policy)).box == h.box
    ensures After(h, Configure(size, policy)).size == size && After(h, Configure(size, policy)).policy == policy
  {
  }

  ghost predicate KeepsSize<T(!new)>(steps: seq<Step<T>>) {
    forall i :: 0 <= i < |steps| ==> !steps[i].Configure? && !steps[i].Clear?
  }

  lemma {:induction false} RunKeepsSize<T(!new)>(h: History<T>, steps: seq<Step<T>>)
    requires KeepsSize(steps)
    ensures Run(h, steps).largest == h.largest && Run(h, steps).cleared == h.cleared
    ensures Run(h, steps).everDropping == h.everDropping
    decreases |steps|
  {
    hide Pushed;
    if steps != [] {
      assert !steps[0].Configure? && !steps[0].Clear?;
      RunKeepsSize(After(h, steps[0]), steps[1..]);
    }
  }

  /** With a fixed configuration the counters balance and the queue never outgrows its size. */
  lemma {:induction false} FixedSizeBalances<T(!new)>(size: nat, policy: OverflowPolicy, steps: seq<Step<T>>)
    requires KeepsSize(steps)
    ensures var h := Run(Opened<T>(size, policy), steps);
            && h.box.stats.enqueued == |h.polled| + h.box.stats.dropped + |h.box.pending|
            && |h.box.pending| <= size
  {
    AlwaysAccounted(size, policy, steps);
    RunKeepsSize(Opened<T>(size, policy), steps);
  }

  lemma {:induction false} WholeSubsequence<T>(a: seq<T>, b: seq<T>)
    requires Subsequence(a, b) && |a| == |b|
    ensures a == b
    decreases |a|
  {
    if a != [] {
      var n := |a| - 1;
      if Subsequence(a, b[..n]) {
        SubsequenceShorter(a, b[..n]);
      } else {
        WholeSubsequence(a[..n], b[..n]);
        assert a == a[..n] + [a[n]] && b == b[..n] + [b[n]];
      }
    }
  }

  lemma {:induction false} SubsequenceShorter<T>(a: seq<T>, b: seq<T>)
    requires Subsequence(a, b)
    ensures |a| <= |b|
    decreases |b|
  {
    if a != [] {
      if Subsequence(a, b[..|b| - 1]) {
        SubsequenceShorter(a, b[..|b| - 1]);
      } else {
        SubsequenceShorter(a[..|a| - 1], b[..|b| - 1]);
      }
    }
  }

  /** A mailbox that refuses newcomers hands out everything it let in, in order. */
  lemma {:induction false} RefusingLosesNothing<T(!new)>(size: nat, steps: seq<Step<T>>)
    requires KeepsSize(steps)
    ensures var h := Run(Opened<T>(size, RejectNew), steps); h.polled + h.box.pending == h.admitted
  {
    AlwaysAccounted(size, RejectNew, steps);
    RunKeepsSize(Opened<T>(size, RejectNew), steps);
    var h := Run(Opened<T>(size, RejectNew), steps);
    WholeSubsequence(h.polled, h.gone);
  }

  // ---------------------------------------------------------------- the transport

  class ManagementQueueTransport {
    var cfg: Config
    var requests: seq<Request>
    var responses: seq<Response>
    var events: seq<Event>
    var requestStats: QueueStats
    var responseStats: QueueStats
    var eventStats: QueueStats

    ghost function Requests(): Mailbox<Request>
      reads `requests, `requestStats
    {
      Mailbox(requests, requestStats)
    }

    ghost function Responses(): Mailbox<Response>
      reads `responses, `responseStats
    {
      Mailbox(responses, responseStats)
    }

    ghost function Events(): Mailbox<Event>
      reads `events, `eventStats
    {
      Mailbox(events, eventStats)
    }

    constructor (config: Config)
      ensures cfg == config
      ensures Requests() == Opened(config.maxRequests, config.requestPolicy).box
      ensures Responses() == Opened(config.maxResponses, config.responsePolicy).box
      ensures Events() == Opened(config.maxEvents, config.eventPolicy).box
    {
      cfg, requests, responses, events := config, [], [], [];
      requestStats, responseStats, eventStats := FRESH, FRESH, FRESH;
    }

    static method MakeRoom<T>(q: seq<T>, size: nat, policy: OverflowPolicy) returns (room: seq<T>, admission: Admission)
      ensures admission == Admit(|q|, size, policy)
      ensures room == if admission == DroppedOldest then q[1..] else q
    {
      if size == 0 {
        return q, Rejected;
      }
      if |q| < size {
        return q, Admitted;
      }
      if policy != DropOldest {
        return q, Rejected;
      }
      return q[1..], DroppedOldest;
    }

    method Configure(config: Config)
      modifies `cfg
      ensures cfg == config
    {
      cfg := config;
    }

    method Clear()
      modifies `requests, `responses, `events
      ensures requests == [] && responses == [] && events == []
    {
      requests, responses, events := [], [], [];
    }

    method EnqueueRequest(r: Request) returns (ok: bool)
      modifies `requests, `requestStats
      ensures Requests() == Pushed(old(Requests()), cfg.maxRequests, cfg.requestPolicy, r)
      ensures ok <==> Admit(old(|requests|), cfg.maxRequests, cfg.requestPolicy) != Rejected
    {
      var room, admission := MakeRoom(requests, cfg.maxRequests, cfg.requestPolicy);
      if admission == Rejected {
        requestStats := requestStats.(rejected := requestStats.rejected + 1);
        return false;
      }
      if admission == DroppedOldest {
        requestStats := requestStats.(dropped := requestStats.dropped + 1);
      }
      requests := room + [r];
      requestStats := requestStats.(enqueued := requestStats.enqueued + 1);
      return true;
    }

    method PollRequest() returns (r: Option<Request>)
      modifies `requests
      ensures r == if old(requests) == [] then None else Some(old(requests)[0])
      ensures requests == if old(requests) == [] then [] else old(requests)[1..]
    {
      if requests == [] {
        return None;
      }
      r := Some(requests[0]);
      requests := requests[1..];
    }

    method SendResponse(response: Response) returns (ok: bool)
      modifies `responses, `responseStats
      ensures Responses() == Pushed(old(Responses()), cfg.maxResponses, cfg.responsePolicy, response)
      ensures ok <==> Admit(old(|responses|), cfg.maxResponses, cfg.responsePolicy) != Rejected
    {
      var room, admission := MakeRoom(responses, cfg.maxResponses, cfg.responsePolicy);
      if admission == Rejected {
        responseStats := responseStats.(rejected := responseStats.rejected + 1);
        return false;
      }
      if admission == DroppedOldest {
        responseStats := responseStats.(dropped := responseStats.dropped + 1);
      }
      responses := room + [response];
      responseStats := responseStats.(enqueued := responseStats.enqueued + 1);
      return true;
    }

    method SendEvent(event: Event) returns (ok: bool)
      modifies `events, `eventStats
      ensures Events() == Pushed(old(Events()), cfg.maxEvents, cfg.eventPolicy, event)
      ensures ok <==> Admit(old(|events|), cfg.maxEvents, cfg.eventPolicy) != Rejected
    {
      var room, admission := MakeRoom(events, cfg.maxEvents, cfg.eventPolicy);
      if admission == Rejected {
        eventStats := eventStats.(rejected := eventStats.rejected + 1);
        return false;
      }
      if admission == DroppedOldest {
        eventStats := eventStats.(dropped := eventStats.dropped + 1);
      }
      events := room + [event];
      eventStats := eventStats.(enqueued := eventStats.enqueued + 1);
      return true;
    }
  }
}
