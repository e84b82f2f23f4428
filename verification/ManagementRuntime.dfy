/**
 The router between the transports and the service: it takes requests from the transports in turn, and hands the
 service's responses and events to the transports they are meant for.
*/
module ManagementRuntime {
  import opened FixedWidth
  import opened Options
  import opened RequestQueue
  import opened QueueTransport
  import opened RequestRounds
  import opened Dispatch
  import opened ServiceDesk

  type Transport = ManagementQueueTransport

  /** Events of the unknown source go to every transport. */
  const UNKNOWN_SOURCE: nat := 0

  ghost function Queues(ts: seq<Transport>): (qs: seq<seq<Request>>)
    reads ts`requests
    ensures |qs| == |ts|
  {
    if ts == [] then [] else Queues(ts[..|ts| - 1]) + [ts[|ts| - 1].requests]
  }

  lemma {:induction false} QueuesAt(ts: seq<Transport>)
    ensures forall i :: 0 <= i < |ts| ==> Queues(ts)[i] == ts[i].requests
    decreases |ts|
  {
    if ts != [] {
      QueuesAt(ts[..|ts| - 1]);
    }
  }

  ghost function Configs(ts: seq<Transport>): (cs: seq<Config>)
    reads ts`cfg
    ensures |cs| == |ts|
  {
    if ts == [] then [] else Configs(ts[..|ts| - 1]) + [ts[|ts| - 1].cfg]
  }

  lemma {:induction false} ConfigsAt(ts: seq<Transport>)
    ensures forall i :: 0 <= i < |ts| ==> Configs(ts)[i] == ts[i].cfg
    decreases |ts|
  {
    if ts != [] {
      ConfigsAt(ts[..|ts| - 1]);
    }
  }

  ghost function ResponseBoxes(ts: seq<Transport>): (bs: seq<Mailbox<Response>>)
    reads ts`responses, ts`responseStats
    ensures |bs| == |ts|
  {
    if ts == [] then [] else ResponseBoxes(ts[..|ts| - 1]) + [ts[|ts| - 1].Responses()]
  }

  lemma {:induction false} ResponseBoxesAt(ts: seq<Transport>)
    ensures forall i :: 0 <= i < |ts| ==> ResponseBoxes(ts)[i] == ts[i].Responses()
    decreases |ts|
  {
    if ts != [] {
      ResponseBoxesAt(ts[..|ts| - 1]);
    }
  }

  ghost function ResponseLimits(ts: seq<Transport>): (ls: seq<Limit>)
    reads ts`cfg
    ensures |ls| == |ts|
  {
    if ts == [] then []
    else
      var cfg := ts[|ts| - 1].cfg;
      ResponseLimits(ts[..|ts| - 1]) + [Limit(cfg.source, cfg.maxResponses, cfg.responsePolicy)]
  }

  lemma {:induction false} ResponseLimitsAt(ts: seq<Transport>)
    ensures forall i :: 0 <= i < |ts| ==>
              ResponseLimits(ts)[i] == Limit(ts[i].cfg.source, ts[i].cfg.maxResponses, ts[i].cfg.responsePolicy)
    decreases |ts|
  {
    if ts != [] {
      ResponseLimitsAt(ts[..|ts| - 1]);
    }
  }

  ghost function EventBoxes(ts: seq<Transport>): (bs: seq<Mailbox<Event>>)
    reads ts`events, ts`eventStats
    ensures |bs| == |ts|
  {
    if ts == [] then [] else EventBoxes(ts[..|ts| - 1]) + [ts[|ts| - 1].Events()]
  }

  lemma {:induction false} EventBoxesAt(ts: seq<Transport>)
    ensures forall i :: 0 <= i < |ts| ==> EventBoxes(ts)[i] == ts[i].Events()
    decreases |ts|
  {
    if ts != [] {
      EventBoxesAt(ts[..|ts| - 1]);
    }
  }

  ghost function EventLimits(ts: seq<Transport>): (ls: seq<Limit>)
    reads ts`cfg
    ensures |ls| == |ts|
  {
    if ts == [] then []
    else
      var cfg := ts[|ts| - 1].cfg;
      EventLimits(ts[..|ts| - 1]) + [Limit(cfg.source, cfg.maxEvents, cfg.eventPolicy)]
  }

  lemma {:induction false} EventLimitsAt(ts: seq<Transport>)
    ensures forall i :: 0 <= i < |ts| ==>
              EventLimits(ts)[i] == Limit(ts[i].cfg.source, ts[i].cfg.maxEvents, ts[i].cfg.eventPolicy)
    decreases |ts|
  {
    if ts != [] {
      EventLimitsAt(ts[..|ts| - 1]);
    }
  }

  /** A response goes to the transports of its request's source, an event of the unknown source to all. */
  function ResponseRoute(response: Response): Option<nat> {
    Some(response.source)
  }

  function EventRoute(event: Event): Option<nat> {
    if event.source == UNKNOWN_SOURCE then None else Some(event.source)
  }

  /**
   The responses for clients of one source, in order; the events for them, those of source 0, which are for everyone,
   included.
  */
  function ResponsesFor(responses: seq<Response>, source: nat): seq<Response> {
    if responses == [] then []
    else
      var n := |responses| - 1;
      ResponsesFor(responses[..n], source) + if responses[n].source == source then [responses[n]] else []
  }

  function EventsFor(events: seq<Event>, source: nat): seq<Event> {
    if events == [] then []
    else
      var n := |events| - 1;
      EventsFor(events[..n], source)
        + if events[n].source == source || events[n].source == 0 then [events[n]] else []
  }

  lemma {:induction false} ResponsesAreMine(responses: seq<Response>, limit: Limit)
    ensures Mine(responses, ResponseRoute, limit) == ResponsesFor(responses, limit.source)
    decreases |responses|
  {
    if responses != [] {
      ResponsesAreMine(responses[..|responses| - 1], limit);
    }
  }

  lemma {:induction false} EventsAreMine(events: seq<Event>, limit: Limit)
    ensures Mine(events, EventRoute, limit) == EventsFor(events, limit.source)
    decreases |events|
  {
    if events != [] {
      EventsAreMine(events[..|events| - 1], limit);
    }
  }

  /** Each mailbox has been pushed the responses for clients of its own source, in order, and nothing else. */
  ghost predicate OwnResponses(before: seq<Mailbox<Response>>, after: seq<Mailbox<Response>>, limits: seq<Limit>,
                               sent: seq<Response>) {
    && |before| == |after| == |limits|
    && forall j :: 0 <= j < |after| ==>
         after[j] == PushedAll(before[j], limits[j].size, limits[j].policy, ResponsesFor(sent, limits[j].source))
  }

  /** The same for events. */
  ghost predicate OwnEvents(before: seq<Mailbox<Event>>, after: seq<Mailbox<Event>>, limits: seq<Limit>,
                            sent: seq<Event>) {
    && |before| == |after| == |limits|
    && forall j :: 0 <= j < |after| ==>
         after[j] == PushedAll(before[j], limits[j].size, limits[j].policy, EventsFor(sent, limits[j].source))
  }

  lemma {:induction false} EachOwnResponses(boxes: seq<Mailbox<Response>>, limits: seq<Limit>, sent: seq<Response>)
    requires |boxes| == |limits|
    ensures OwnResponses(boxes, SentAll(boxes, limits, ResponseRoute, sent), limits, sent)
  {
    hide SentAll, PushedAll, ResponseRoute, ResponsesFor, Mine;
    var after := SentAll(boxes, limits, ResponseRoute, sent);
    forall j | 0 <= j < |after|
      ensures after[j] == PushedAll(boxes[j], limits[j].size, limits[j].policy, ResponsesFor(sent, limits[j].source)) {
      EachGetsItsOwn(boxes, limits, ResponseRoute, sent, j);
      ResponsesAreMine(sent, limits[j]);
    }
  }

  lemma {:induction false} EachOwnEvents(boxes: seq<Mailbox<Event>>, limits: seq<Limit>, sent: seq<Event>)
    requires |boxes| == |limits|
    ensures OwnEvents(boxes, SentAll(boxes, limits, EventRoute, sent), limits, sent)
  {
    hide SentAll, PushedAll, EventRoute, EventsFor, Mine;
    var after := SentAll(boxes, limits, EventRoute, sent);
    forall j | 0 <= j < |after|
      ensures after[j] == PushedAll(boxes[j], limits[j].size, limits[j].policy, EventsFor(sent, limits[j].source)) {
      EachGetsItsOwn(boxes, limits, EventRoute, sent, j);
      EventsAreMine(sent, limits[j]);
    }
  }

  /** The message is pushed into the mailboxes of one source, or into all of them; the others stay as they were. */
  ghost predicate PushedToSource<T>(before: seq<Mailbox<T>>, after: seq<Mailbox<T>>, limits: seq<Limit>,
                                    everyone: bool, source: nat, x: T) {
    && |before| == |after| == |limits|
    && forall j :: 0 <= j < |after| ==>
         after[j] == if everyone || limits[j].source
             == source then Pushed(before[j], limits[j].size, limits[j].policy, x)
                     else before[j]
  }

  function First<T>(xs: seq<T>, n: nat): seq<T> {
    xs[..Min(n, |xs|)]
  }

  lemma {:induction false} HandsOut<T>(queue: seq<T>, left: seq<T>, limit: nat, before: seq<Mailbox<T>>,
                                       after: seq<Mailbox<T>>, limits: seq<Limit>, route: T -> Option<nat>, t0: Tally,
                                       t1: Tally)
    requires |before| == |limits| && Handed(queue, left, limit, before, after, limits, route, t0, t1)
    ensures after == SentAll(before, limits, route, First(queue, limit))
  {
  }

  predicate Distinct(ts: seq<Transport>) {
    forall i, j :: 0 <= i < j < |ts| ==> ts[i] != ts[j]
  }

  datatype Intake = Intake(submitted: nat, dropped: nat, serviceRejected: nat)

  datatype Stats = Stats(intake: Intake, responses: Tally, events: Tally)

  const FRESH_STATS := Stats(Intake(0, 0, 0), Tally(0, 0, 0, 0), Tally(0, 0, 0, 0))

  /** Every request taken is counted as submitted, and then waits in the service, or as dropped by it. */
  predicate Counted(s0: Stats, waiting0: nat, offered0: nat, s1: Stats, waiting1: nat, offered1: nat) {
    var (i0, i1) := (s0.intake, s1.intake);
    && s1.responses == s0.responses && s1.events == s0.events
    && i1.submitted - i0.submitted == waiting1 - waiting0
    && i1.dropped - i0.dropped == i1.serviceRejected - i0.serviceRejected
    && (i1.submitted - i0.submitted) + (i1.dropped - i0.dropped) == offered1 - offered0
  }

  /** The responses and events the service has queued for its clients. */
  class ServiceOutbox {
    var responses: seq<Response>
    var events: seq<Event>

    constructor ()
      ensures responses == [] && events == []
    {
      responses, events := [], [];
    }

    method Queue(answered: seq<Response>, announced: seq<Event>)
      modifies this
      ensures responses == old(responses) + answered && events == old(events) + announced
    {
      responses := responses + answered;
      events := events + announced;
    }

    method PollResponse() returns (r: Option<Response>)
      modifies `responses
      ensures old(responses) == [] ==> r == None && responses == []
      ensures old(responses) != [] ==> r == Some(old(responses)[0]) && responses == old(responses)[1..]
    {
      if responses == [] {
        return None;
      }
      r := Some(responses[0]);
      responses := responses[1..];
    }

    method PollEvent() returns (e: Option<Event>)
      modifies `events
      ensures old(events) == [] ==> e == None && events == []
      ensures old(events) != [] ==> e == Some(old(events)[0]) && events == old(events)[1..]
    {
      if events == [] {
        return None;
      }
      e := Some(events[0]);
      events := events[1..];
    }
  }

  class ManagementRuntime {
    const service: RequestService
    var transports: seq<Transport>
    var stats: Stats
    var cursor: nat

    ghost predicate Valid()
      reads this, service
    {
      Distinct(transports) && service.Valid()
    }

    constructor (s: RequestService)
      requires s.Valid()
      ensures Valid() && service == s && transports == [] && cursor == 0
      ensures stats == FRESH_STATS
    {
      service, transports, cursor := s, [], 0;
      stats := FRESH_STATS;
    }

    method AddTransport(t: Transport) returns (ok: bool)
      requires Valid()
      modifies `transports
      ensures Valid()
      ensures ok <==> t !in old(transports)
      ensures transports == if ok then old(transports) + [t] else old(transports)
    {
      if t in transports {
        return false;
      }
      transports := transports + [t];
      return true;
    }

    method RemoveTransport(t: Transport) returns (ok: bool)
      requires Valid()
      modifies `transports
      ensures Valid()
      ensures ok <==> t in old(transports)
      ensures !ok ==> transports == old(transports)
      ensures ok ==> exists i :: 0 <= i < |old(transports)| && old(transports)[i] == t
                       && transports == old(transports)[..i] + old(transports)[i + 1..]
    {
      var i := 0;
      while i < |transports| && transports[i] != t
        invariant 0 <= i <= |transports| && t !in transports[..i]
      {
        i := i + 1;
      }
      if i == |transports| {
        return false;
      }
      transports := transports[..i] + transports[i + 1..];
      return true;
    }

    /** One step of the intake loop. */
    method TakeTurn(t: Transport, tables: Tables) returns (polled: bool)
      requires Valid()
      modifies `stats, service, t`requests
      ensures Valid()
      ensures polled <==> old(t.requests) != []
      ensures !polled ==>
                t.requests == old(t.requests) && service.offered == old(service.offered) && stats == old(stats)
      ensures polled ==> t.requests == old(t.requests)[1..]
      ensures polled ==> service.offered == old(service.offered) + [Stamp(old(t.requests)[0], t.cfg)]
      ensures TakenIn(old(DeskOf(service)), DeskOf(service), tables)
      ensures Counted(old(stats), old(|service.waiting|), old(|service.offered|), stats, |service.waiting|,
                      |service.offered|)
    {
      hide TakenIn, Sorted;
      ghost var before := DeskOf(service);
      var request := t.PollRequest();
      NothingTakenIn(before, tables);
      if request.None? {
        return false;
      }
      var stamped := Stamp(request.value, t.cfg);
      OneTakenIn(before, tables, stamped);
      var (priority, timeout) := tables(stamped.cmd);
      var accepted := service.Submit(stamped, priority, timeout);
      if accepted {
        stats := stats.(intake := stats.intake.(submitted := stats.intake.submitted + 1));
      } else {
        stats := stats.(intake := stats.intake.(dropped := stats.intake.dropped + 1,
                                               serviceRejected := stats.intake.serviceRejected + 1));
      }
      return true;
    }

    /** The step's transport gives its next request, if it has one. */
    method PumpStep(tables: Tables, step: nat, ghost queues: seq<seq<Request>>, ghost rank: nat) returns (polled: bool)
      requires Valid() && cursor < |transports| == |queues| && step < |transports|
      requires Drained(Queues(transports), queues, cursor, rank, step)
      modifies `stats, service, transports`requests
      ensures Valid() && Drained(Queues(transports), queues, cursor, rank, step + 1)
      ensures var t := At(cursor, step, |queues|);
              && (polled <==> rank < |queues[t]|)
              && service.offered == old(service.offered)
                   + if rank < |queues[t]| then [Stamp(queues[t][rank], Configs(transports)[t])] else []
      ensures TakenIn(old(DeskOf(service)), DeskOf(service), tables)
      ensures Counted(old(stats), old(|service.waiting|), old(|service.offered|), stats, |service.waiting|,
                      |service.offered|)
    {
      hide Drained, StableSorted, Stamp, Queues, Configs, TakenIn, DeskOf;
      ghost var now := Queues(transports);
      QueuesAt(transports);
      ConfigsAt(transports);
      Wraps(cursor, step, |transports|);
      FrontOfQueue(now, queues, cursor, rank, step);
      var idx := (cursor + step) % |transports|;
      polled := TakeTurn(transports[idx], tables);
      QueuesAt(transports);
      assert Queues(transports) == now[idx := if now[idx] == [] then [] else now[idx][1..]];
      DrainedStep(now, Queues(transports), queues, cursor, rank, step);
    }

    /** One round of the intake: every transport that still has a request gives one, starting at the cursor. */
    method PumpRound(tables: Tables, ghost queues: seq<seq<Request>>, ghost rank: nat) returns (any: bool)
      requires Valid() && cursor < |transports| == |queues|
      requires Drained(Queues(transports), queues, cursor, rank, 0)
      modifies `stats, service, transports`requests
      ensures Valid() && Drained(Queues(transports), queues, cursor, rank + 1, 0)
      ensures Fits(Round(Lengths(queues), cursor, rank, |queues|), queues)
      ensures service.offered == old(service.offered)
                + Taken(Round(Lengths(queues), cursor, rank, |queues|), queues, Configs(transports))
      ensures any <==> exists t :: 0 <= t < |queues| && rank < |queues[t]|
      ensures TakenIn(old(DeskOf(service)), DeskOf(service), tables)
      ensures Counted(old(stats), old(|service.waiting|), old(|service.offered|), stats, |service.waiting|,
                      |service.offered|)
    {
      hide Fits, Taken, Round, Lengths, Configs, Drained, Queues, Schedule, StableSorted, Distinct, At, Stamp, TakenIn,
        DeskOf;
      ghost var n := |transports|;
      NothingTakenIn(DeskOf(service), tables);
      ghost var lens, cfgs := Lengths(queues), Configs(transports);
      ghost var turns: seq<Slot> := [];
      NoTurns(queues, cfgs);
      RoundStep(lens, cursor, rank, 1);
      any := false;
      var step := 0;
      while step < |transports|
        invariant 0 <= step <= n == |transports| && transports == old(transports) && cursor == old(cursor)
        invariant Valid() && Drained(Queues(transports), queues, cursor, rank, step)
        invariant turns == Round(lens, cursor, rank, step) && Fits(turns, queues)
        invariant service.offered == old(service.offered) + Taken(turns, queues, cfgs)
        invariant any <==> turns != []
        invariant TakenIn(old(DeskOf(service)), DeskOf(service), tables)
        invariant Counted(old(stats), old(|service.waiting|), old(|service.offered|), stats, |service.waiting|,
                          |service.offered|)
      {
        ghost var t := At(cursor, step, n);
        RoundStep(lens, cursor, rank, step + 1);
        if rank < lens[t] {
          TurnTaken(turns, Slot(t, rank), queues, cfgs);
          turns := turns + [Slot(t, rank)];
        }
        ghost var before := DeskOf(service);
        var polled := PumpStep(tables, step, queues, rank);
        TakenInTwice(old(DeskOf(service)), before, DeskOf(service), tables);
        any := any || polled;
        step := step + 1;
      }
      DrainedRound(Queues(transports), queues, cursor, rank);
      RoundEmpty(queues, cursor, rank);
    }

    /** The intake of one tick: up to `rounds` requests from every transport. */
    method PumpRequests(rounds: nat, tables: Tables)
      requires Valid()
      modifies this`stats, this`cursor, service, transports`requests
      ensures Valid()
      ensures |transports| == 0 || rounds == 0 ==>
                Queues(transports) == old(Queues(transports)) && service.offered == old(service.offered)
                    && cursor == old(cursor)
      ensures |transports| > 0 && rounds > 0 ==>
                IntakeIs(old(Queues(transports)), Configs(transports), old(cursor), rounds,
                         old(service.offered), service.offered, Queues(transports), cursor)
      ensures TakenIn(old(DeskOf(service)), DeskOf(service), tables)
      ensures Counted(old(stats), old(|service.waiting|), old(|service.offered|), stats, |service.waiting|,
                      |service.offered|)
    {
      hide Fits, Taken, Round, Lengths, Configs, Drained, Queues, Schedule, StableSorted, Distinct, Before, InTurn;
      hide Served, TakenIn, DeskOf;
      NothingTakenIn(DeskOf(service), tables);
      ghost var queues, cfgs := Queues(transports), Configs(transports);
      if |transports| == 0 || rounds == 0 {
        return;
      }
      cursor := cursor % |transports|;
      ghost var lens := Lengths(queues);
      ghost var turns: seq<Slot> := [];
      NoTurns(queues, cfgs);
      ScheduleStep(lens, cursor, 1);
      DrainedStart(queues, cursor);
      var round := 0;
      var any := true;
      while round < rounds && any
        invariant 0 <= round <= rounds && transports == old(transports) && cursor == old(cursor) % |transports|
            && Valid()
        invariant Drained(Queues(transports), queues, cursor, round, 0)
        invariant turns == Schedule(lens, cursor, round) && Fits(turns, queues)
        invariant service.offered == old(service.offered) + Taken(turns, queues, cfgs)
        invariant !any ==> forall t :: 0 <= t < |queues| ==> |queues[t]| <= round
        invariant TakenIn(old(DeskOf(service)), DeskOf(service), tables)
        invariant Counted(old(stats), old(|service.waiting|), old(|service.offered|), stats, |service.waiting|,
                          |service.offered|)
        decreases rounds - round
      {
        ScheduleStep(lens, cursor, round + 1);
        ghost var before := DeskOf(service);
        any := PumpRound(tables, queues, round);
        TakenInTwice(old(DeskOf(service)), before, DeskOf(service), tables);
        TakenJoined(turns, Round(lens, cursor, round, |lens|), queues, cfgs);
        turns := turns + Round(lens, cursor, round, |lens|);
        round := round + 1;
      }
      if !any {
        IdleRounds(lens, cursor, round, rounds);
      }
      DrainedEnd(Queues(transports), queues, cursor, round, rounds);
      cursor := (cursor + 1) % |transports|;
    }

    /** Hands one response to every transport on its route. */
    method DispatchResponse(response: Response) returns (targeted: nat, delivered: nat, rejected: nat)
      requires Valid()
      modifies transports`responses, transports`responseStats
      ensures ResponseBoxes(transports) == SentTo(old(ResponseBoxes(transports)), ResponseLimits(transports),
                                                  ResponseRoute(response), response)
      ensures targeted == Routes(ResponseLimits(transports), ResponseRoute(response)) == delivered + rejected
      ensures PushedToSource(old(ResponseBoxes(transports)), ResponseBoxes(transports), ResponseLimits(transports),
                             false, response.source, response)
      ensures targeted == |OfSource(ResponseLimits(transports), response.source)|
      ensures delivered == Accepting(old(ResponseBoxes(transports)), ResponseLimits(transports),
                                     ResponseRoute(response))
    {
      hide ResponseLimits, ResponseBoxes, Pushed, Admit, SentTo, Routes, Accepting;
      ghost var limits, boxes, route := ResponseLimits(transports), ResponseBoxes(transports), ResponseRoute(response);
      ResponseBoxesAt(transports);
      ResponseLimitsAt(transports);
      SentToAt(boxes, limits, route, response);
      RoutesOfSource(limits, response.source);
      targeted, delivered, rejected := 0, 0, 0;
      var i := 0;
      RoutesNone(boxes[..0], limits[..0], route);
      while i < |transports|
        invariant 0 <= i <= |transports| == |boxes| == |limits|
        invariant forall j :: 0 <= j < i ==> transports[j].Responses() == SentTo(boxes, limits, route, response)[j]
        invariant forall j :: i <= j < |transports| ==> transports[j].Responses() == boxes[j]
        invariant targeted == Routes(limits[..i], route) == delivered + rejected
        invariant delivered == Accepting(boxes[..i], limits[..i], route)
      {
        RoutesNext(boxes, limits, i, route);
        if transports[i].cfg.source == response.source {
          targeted := targeted + 1;
          var ok := transports[i].SendResponse(response);
          if ok {
            delivered := delivered + 1;
          } else {
            rejected := rejected + 1;
          }
        }
        i := i + 1;
      }
      ResponseBoxesAt(transports);
      assert boxes[..i] == boxes && limits[..i] == limits;
    }

    /** The response phase of a tick: up to `limit` responses leave the service, in order. */
    method DispatchResponses(outbox: ServiceOutbox, limit: nat)
      requires Valid()
      modifies `stats, outbox`responses, transports`responses, transports`responseStats
      ensures Handed(old(outbox.responses), outbox.responses, limit, old(ResponseBoxes(transports)),
                     ResponseBoxes(transports), ResponseLimits(transports), ResponseRoute, old(stats.responses),
                     stats.responses)
      ensures stats == old(stats).(responses := stats.responses)
    {
      hide PushedToSource, OfSource, ResponseLimits, ResponseBoxes, SentTo, SentAll, Routes, Accepting, Tallied,
        ResponseRoute, Distinct, StableSorted;
      ghost var limits, boxes, queue := ResponseLimits(transports), ResponseBoxes(transports), outbox.responses;
      var i := 0;
      TallyStart(stats.responses, boxes, limits, ResponseRoute);
      assert queue[..0] == [];
      while i < limit
        invariant 0 <= i <= limit && i <= |queue| && outbox.responses == queue[i..]
        invariant ResponseBoxes(transports) == SentAll(boxes, limits, ResponseRoute, queue[..i])
        invariant Tallied(old(stats.responses), stats.responses, boxes, limits, ResponseRoute, queue[..i])
        invariant stats == old(stats).(responses := stats.responses)
      {
        var next := outbox.PollResponse();
        if next.None? {
          break;
        }
        var targeted, delivered, rejected := DispatchResponse(next.value);
        TallyMore(old(stats.responses), stats.responses, boxes, limits, ResponseRoute, queue, i, delivered, rejected);
        var t := stats.responses;
        stats := stats.(responses := Tally(t.dispatched + delivered, t.dropped + (if delivered == 0 then 1 else 0),
                                        t.unrouted + (if targeted == 0 then 1 else 0), t.refused + rejected));
        i := i + 1;
      }
    }

    /** Hands one event to every transport on its route. */
    method DispatchEvent(event: Event) returns (targeted: nat, delivered: nat, rejected: nat)
      requires Valid()
      modifies transports`events, transports`eventStats
      ensures EventBoxes(transports) == SentTo(old(EventBoxes(transports)), EventLimits(transports), EventRoute(event),
                                               event)
      ensures targeted == Routes(EventLimits(transports), EventRoute(event)) == delivered + rejected
      ensures PushedToSource(old(EventBoxes(transports)), EventBoxes(transports), EventLimits(transports),
                             event.source == 0, event.source, event)
      ensures targeted == if event.source == 0 then |transports|
                          else |OfSource(EventLimits(transports), event.source)|
      ensures delivered == Accepting(old(EventBoxes(transports)), EventLimits(transports), EventRoute(event))
    {
      hide EventLimits, EventBoxes, Pushed, Admit, SentTo, Routes, Accepting;
      ghost var limits, boxes, route := EventLimits(transports), EventBoxes(transports), EventRoute(event);
      EventBoxesAt(transports);
      EventLimitsAt(transports);
      SentToAt(boxes, limits, route, event);
      RoutesOfSource(limits, event.source);
      RoutesToAll(limits);
      targeted, delivered, rejected := 0, 0, 0;
      var broadcast := event.source == UNKNOWN_SOURCE;
      var i := 0;
      RoutesNone(boxes[..0], limits[..0], route);
      while i < |transports|
        invariant 0 <= i <= |transports| == |boxes| == |limits|
        invariant forall j :: 0 <= j < i ==> transports[j].Events() == SentTo(boxes, limits, route, event)[j]
        invariant forall j :: i <= j < |transports| ==> transports[j].Events() == boxes[j]
        invariant targeted == Routes(limits[..i], route) == delivered + rejected
        invariant delivered == Accepting(boxes[..i], limits[..i], route)
      {
        RoutesNext(boxes, limits, i, route);
        if broadcast || transports[i].cfg.source == event.source {
          targeted := targeted + 1;
          var ok := transports[i].SendEvent(event);
          if ok {
            delivered := delivered + 1;
          } else {
            rejected := rejected + 1;
          }
        }
        i := i + 1;
      }
      EventBoxesAt(transports);
      assert boxes[..i] == boxes && limits[..i] == limits;
    }

    /** The event phase of a tick: up to `limit` events leave the service, in order. */
    method DispatchEvents(outbox: ServiceOutbox, limit: nat)
      requires Valid()
      modifies `stats, outbox`events, transports`events, transports`eventStats
      ensures Handed(old(outbox.events), outbox.events, limit, old(EventBoxes(transports)), EventBoxes(transports),
                     EventLimits(transports), EventRoute, old(stats.events), stats.events)
      ensures stats == old(stats).(events := stats.events)
    {
      hide PushedToSource, OfSource, EventLimits, EventBoxes, SentTo, SentAll, Routes, Accepting, Tallied, EventRoute,
        Distinct, StableSorted;
      ghost var limits, boxes, queue := EventLimits(transports), EventBoxes(transports), outbox.events;
      var i := 0;
      TallyStart(stats.events, boxes, limits, EventRoute);
      assert queue[..0] == [];
      while i < limit
        invariant 0 <= i <= limit && i <= |queue| && outbox.events == queue[i..]
        invariant EventBoxes(transports) == SentAll(boxes, limits, EventRoute, queue[..i])
        invariant Tallied(old(stats.events), stats.events, boxes, limits, EventRoute, queue[..i])
        invariant stats == old(stats).(events := stats.events)
      {
        var next := outbox.PollEvent();
        if next.None? {
          break;
        }
        var targeted, delivered, rejected := DispatchEvent(next.value);
        TallyMore(old(stats.events), stats.events, boxes, limits, EventRoute, queue, i, delivered, rejected);
        var t := stats.events;
        stats := stats.(events := Tally(t.dispatched + delivered, t.dropped + (if delivered == 0 then 1 else 0),
                                        t.unrouted + (if targeted == 0 then 1 else 0), t.refused + rejected));
        i := i + 1;
      }
    }

    /** The first half of a tick: the intake, and then the service's turn. */
    method Serve(now: uint32, rounds: nat, tables: Tables)
      requires Valid()
      modifies this`stats, this`cursor, service, transports`requests
      ensures Valid()
      ensures |transports| == 0 || rounds == 0 ==>
                Queues(transports) == old(Queues(transports)) && service.offered == old(service.offered)
                    && cursor == old(cursor)
      ensures |transports| > 0 && rounds > 0 ==>
                IntakeIs(old(Queues(transports)), Configs(transports), old(cursor), rounds,
                         old(service.offered), service.offered, Queues(transports), cursor)
      ensures Ticked(old(DeskOf(service)), DeskOf(service), tables, now)
      ensures Counted(old(stats), old(|service.waiting|), old(|service.offered|), stats,
                      |AfterOffers(old(DeskOf(service)), DeskOf(service), tables).waiting|, |service.offered|)
    {
      hide IntakeIs, Distinct, Sorted, Queues, Configs, TakenIn, Ticked, Counted, AfterOffers, IsFirst, Without,
        Elapsed, OfPriority;
      PumpRequests(rounds, tables);
      ghost var between := DeskOf(service);
      var taken := service.TakeNext(now);
      TickedThrough(old(DeskOf(service)), between, DeskOf(service), tables, now);
    }

    /** The second half of a tick: what the service has queued goes out. */
    method Deliver(outbox: ServiceOutbox, maxResponses: nat, maxEvents: nat)
      requires Valid()
      modifies this`stats, outbox
      modifies transports`responses, transports`responseStats, transports`events, transports`eventStats
      ensures stats.intake == old(stats.intake)
      ensures Handed(old(outbox.responses), outbox.responses, maxResponses, old(ResponseBoxes(transports)),
                     ResponseBoxes(transports), ResponseLimits(transports), ResponseRoute, old(stats.responses),
                     stats.responses)
      ensures Handed(old(outbox.events), outbox.events, maxEvents, old(EventBoxes(transports)), EventBoxes(transports),
                     EventLimits(transports), EventRoute, old(stats.events), stats.events)
      ensures OwnResponses(old(ResponseBoxes(transports)), ResponseBoxes(transports), ResponseLimits(transports),
                        First(old(outbox.responses), maxResponses))
      ensures OwnEvents(old(EventBoxes(transports)), EventBoxes(transports), EventLimits(transports),
                        First(old(outbox.events), maxEvents))
    {
      hide Handed, OwnResponses, OwnEvents, First, Distinct, StableSorted, ResponseBoxes, EventBoxes, ResponseLimits,
        EventLimits, ResponseRoute, EventRoute;
      ghost var responses, events := First(outbox.responses, maxResponses), First(outbox.events, maxEvents);
      EachOwnResponses(ResponseBoxes(transports), ResponseLimits(transports), responses);
      EachOwnEvents(EventBoxes(transports), EventLimits(transports), events);
      DispatchResponses(outbox, maxResponses);
      HandsOut(old(outbox.responses), outbox.responses, maxResponses, old(ResponseBoxes(transports)),
               ResponseBoxes(transports), ResponseLimits(transports), ResponseRoute, old(stats.responses),
               stats.responses);
      DispatchEvents(outbox, maxEvents);
      HandsOut(old(outbox.events), outbox.events, maxEvents, old(EventBoxes(transports)), EventBoxes(transports),
               EventLimits(transports), EventRoute, old(stats.events), stats.events);
    }

    /**
     One tick: the intake, the service's turn, and the delivery of what the service has queued. `answered` and
     `announced` are what the service itself queues for its clients while it takes the requests and executes one.
    */
    method Tick(now: uint32, rounds: nat, maxResponses: nat, maxEvents: nat, tables: Tables,
                outbox: ServiceOutbox, answered: seq<Response>, announced: seq<Event>)
      requires Valid()
      modifies this`stats, this`cursor, service, outbox
      modifies transports`requests, transports`responses, transports`responseStats, transports`events,
          transports`eventStats
      ensures Valid()
      ensures |transports| == 0 || rounds == 0 ==>
                Queues(transports) == old(Queues(transports)) && service.offered == old(service.offered)
                    && cursor == old(cursor)
      ensures |transports| > 0 && rounds > 0 ==>
                IntakeIs(old(Queues(transports)), Configs(transports), old(cursor), rounds,
                         old(service.offered), service.offered, Queues(transports), cursor)
      ensures Ticked(old(DeskOf(service)), DeskOf(service), tables, now)
      ensures Counted(old(stats), old(|service.waiting|), old(|service.offered|), old(stats).(intake := stats.intake),
                      |AfterOffers(old(DeskOf(service)), DeskOf(service), tables).waiting|, |service.offered|)
      ensures Handed(old(outbox.responses) + answered, outbox.responses, maxResponses, old(ResponseBoxes(transports)),
                     ResponseBoxes(transports), ResponseLimits(transports), ResponseRoute, old(stats.responses),
                     stats.responses)
      ensures Handed(old(outbox.events) + announced, outbox.events, maxEvents, old(EventBoxes(transports)),
                     EventBoxes(transports), EventLimits(transports), EventRoute, old(stats.events), stats.events)
      ensures OwnResponses(old(ResponseBoxes(transports)), ResponseBoxes(transports), ResponseLimits(transports),
                        First(old(outbox.responses) + answered, maxResponses))
      ensures OwnEvents(old(EventBoxes(transports)), EventBoxes(transports), EventLimits(transports),
                        First(old(outbox.events) + announced, maxEvents))
    {
      hide IntakeIs, Handed, OwnResponses, OwnEvents, First, Distinct, StableSorted, Queues, Configs, ResponseBoxes,
        EventBoxes, ResponseLimits, EventLimits, Ticked, AfterOffers, ResponseRoute, EventRoute;
      Serve(now, rounds, tables);
      outbox.Queue(answered, announced);
      Deliver(outbox, maxResponses, maxEvents);
    }
  }
}
