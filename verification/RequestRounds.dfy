/**
 The turns in which a tick of the management runtime takes requests: no transport gets ahead of another by more than
 one request, and the transport that starts changes from tick to tick.
*/
module RequestRounds {
  import opened FixedWidth
  import opened QueueTransport

  // ---------------------------------------------------------------- whose turn it is

  /** The `rank`-th request of a transport. */
  datatype Slot = Slot(transport: nat, rank: nat)

  /** The transport served at a step of a round that starts at `cursor`. */
  function At(cursor: nat, step: nat, n: nat): nat {
    if cursor + step < n then cursor + step else cursor + step - n
  }

  /** The step at which a transport is served. */
  function StepOf(t: nat, cursor: nat, n: nat): int {
    if cursor <= t then t - cursor else t - cursor + n
  }

  lemma {:induction false} Wraps(cursor: nat, step: nat, n: nat)
    requires cursor < n && step < n
    ensures (cursor + step) % n == At(cursor, step, n)
  {
    var x := cursor + step;
    assert n <= x ==> x / n == 1;
  }

  /** The turns of the first `steps` steps of a round: transports whose requests have run out are passed over. */
  function Round(lens: seq<nat>, cursor: nat, rank: nat, steps: nat): (turns: seq<Slot>)
    requires cursor < |lens| && steps <= |lens|
  {
    if steps == 0 then []
    else
      var t := At(cursor, steps - 1, |lens|);
      Round(lens, cursor, rank, steps - 1) + if rank < lens[t] then [Slot(t, rank)] else []
  }

  function Schedule(lens: seq<nat>, cursor: nat, rounds: nat): (turns: seq<Slot>)
    requires cursor < |lens|
  {
    if rounds == 0 then [] else Schedule(lens, cursor, rounds - 1) + Round(lens, cursor, rounds - 1, |lens|)
  }

  lemma RoundStep(lens: seq<nat>, cursor: nat, rank: nat, steps: nat)
    requires cursor < |lens| && 0 < steps <= |lens|
    ensures Round(lens, cursor, rank, 0) == []
    ensures At(cursor, steps - 1, |lens|) < |lens| && StepOf(At(cursor, steps - 1, |lens|), cursor, |lens|) == steps - 1
    ensures Round(lens, cursor, rank, steps)
         == Round(lens, cursor, rank, steps - 1)
          + if rank < lens[At(cursor, steps - 1, |lens|)] then [Slot(At(cursor, steps - 1, |lens|), rank)] else []
  {
  }

  lemma ScheduleStep(lens: seq<nat>, cursor: nat, rounds: nat)
    requires cursor < |lens| && 0 < rounds
    ensures Schedule(lens, cursor, 0) == []
    ensures Schedule(lens, cursor, rounds) == Schedule(lens, cursor, rounds - 1)
        + Round(lens, cursor, rounds - 1, |lens|)
  {
  }

  lemma StepsDiffer(t: nat, u: nat, cursor: nat, n: nat)
    requires cursor < n && t < n && u < n
    ensures 0 <= StepOf(t, cursor, n) < n
    ensures StepOf(t, cursor, n) == StepOf(u, cursor, n) <==> t == u
  {
  }

  /** Earlier rounds first; within a round, in turn from the cursor. */
  predicate Before(a: Slot, b: Slot, cursor: nat, n: nat) {
    a.rank < b.rank || (a.rank == b.rank && StepOf(a.transport, cursor, n) < StepOf(b.transport, cursor, n))
  }

  ghost predicate InTurn(turns: seq<Slot>, cursor: nat, n: nat) {
    forall i, j :: 0 <= i < j < |turns| ==> Before(turns[i], turns[j], cursor, n)
  }

  lemma {:induction false} RoundMembers(lens: seq<nat>, cursor: nat, rank: nat, steps: nat, s: Slot)
    requires cursor < |lens| && steps <= |lens|
    ensures s in Round(lens, cursor, rank, steps)
       <==> s.transport < |lens| && s.rank == rank < lens[s.transport] && StepOf(s.transport, cursor, |lens|) < steps
    decreases steps
  {
    if steps != 0 {
      RoundMembers(lens, cursor, rank, steps - 1, s);
    }
  }

  /** Exactly the first `rounds` requests of every transport are taken. */
  lemma {:induction false} ScheduleMembers(lens: seq<nat>, cursor: nat, rounds: nat, s: Slot)
    requires cursor < |lens|
    ensures s in Schedule(lens, cursor, rounds)
        <==> s.transport < |lens| && s.rank < rounds && s.rank < lens[s.transport]
    decreases rounds
  {
    hide Round, StepOf;
    if rounds != 0 {
      ScheduleMembers(lens, cursor, rounds - 1, s);
      RoundMembers(lens, cursor, rounds - 1, |lens|, s);
      if s.transport < |lens| {
        StepsDiffer(s.transport, s.transport, cursor, |lens|);
      }
    }
  }

  lemma {:induction false} RoundInTurn(lens: seq<nat>, cursor: nat, rank: nat, steps: nat)
    requires cursor < |lens| && steps <= |lens|
    ensures InTurn(Round(lens, cursor, rank, steps), cursor, |lens|)
    decreases steps
  {
    if steps != 0 {
      RoundInTurn(lens, cursor, rank, steps - 1);
      var before := Round(lens, cursor, rank, steps - 1);
      forall i | 0 <= i < |before| ensures Before(before[i], Slot(At(cursor, steps - 1, |lens|), rank), cursor,
                                                  |lens|) {
        RoundMembers(lens, cursor, rank, steps - 1, before[i]);
        assert before[i] in before;
      }
    }
  }

  /** The turns are taken round by round, and within a round in turn from the cursor: nobody overtakes. */
  lemma {:induction false} ScheduleInTurn(lens: seq<nat>, cursor: nat, rounds: nat)
    requires cursor < |lens|
    ensures InTurn(Schedule(lens, cursor, rounds), cursor, |lens|)
    decreases rounds
  {
    hide Round, Schedule, InTurn, StepOf;
    if rounds == 0 {
      NothingInTurn(cursor, |lens|);
      ScheduleStep(lens, cursor, 1);
    } else {
      ScheduleStep(lens, cursor, rounds);
      ScheduleInTurn(lens, cursor, rounds - 1);
      RoundInTurn(lens, cursor, rounds - 1, |lens|);
      var before, last := Schedule(lens, cursor, rounds - 1), Round(lens, cursor, rounds - 1, |lens|);
      forall i, j | 0 <= i < |before| && 0 <= j < |last| ensures Before(before[i], last[j], cursor, |lens|) {
        ScheduleMembers(lens, cursor, rounds - 1, before[i]);
        RoundMembers(lens, cursor, rounds - 1, |lens|, last[j]);
        assert before[i] in before && last[j] in last;
      }
      InTurnJoined(before, last, cursor, |lens|);
    }
  }

  lemma NothingInTurn(cursor: nat, n: nat)
    ensures InTurn([], cursor, n)
  {
  }

  lemma {:induction false} InTurnJoined(a: seq<Slot>, b: seq<Slot>, cursor: nat, n: nat)
    requires InTurn(a, cursor, n) && InTurn(b, cursor, n)
    requires forall i, j :: 0 <= i < |a| && 0 <= j < |b| ==> Before(a[i], b[j], cursor, n)
    ensures InTurn(a + b, cursor, n)
  {
    hide Before;
    forall i, j | 0 <= i < j < |a + b| ensures Before((a + b)[i], (a + b)[j], cursor, n) {
      assert (i < |a| ==> (a + b)[i] == a[i]) && (i >= |a| ==> (a + b)[i] == b[i - |a|]);
      assert (j < |a| ==> (a + b)[j] == a[j]) && (j >= |a| ==> (a + b)[j] == b[j - |a|]);
    }
  }

  /** The ranks one transport is served, in order. */
  function Served(turns: seq<Slot>, t: nat): seq<nat> {
    if turns == [] then []
    else Served(turns[..|turns| - 1], t) + if turns[|turns| - 1].transport == t then [turns[|turns| - 1].rank] else []
  }

  lemma {:induction false} ServedJoined(a: seq<Slot>, b: seq<Slot>, t: nat)
    ensures Served(a + b, t) == Served(a, t) + Served(b, t)
    decreases |b|
  {
    if b == [] {
      assert a + b == a;
    } else {
      assert (a + b)[..|a + b| - 1] == a + b[..|b| - 1];
      ServedJoined(a, b[..|b| - 1], t);
    }
  }

  lemma {:induction false} ServedInRound(lens: seq<nat>, cursor: nat, rank: nat, steps: nat, t: nat)
    requires cursor < |lens| && steps <= |lens| && t < |lens|
    ensures Served(Round(lens, cursor, rank, steps), t)
         == if rank < lens[t] && StepOf(t, cursor, |lens|) < steps then [rank] else []
    decreases steps
  {
    hide Round, Served, StepOf, At;
    ServedOne(Slot(t, rank), t);
    StepsDiffer(t, t, cursor, |lens|);
    if steps == 0 {
      RoundStep(lens, cursor, rank, 1);
    } else {
      RoundStep(lens, cursor, rank, steps);
      ServedInRound(lens, cursor, rank, steps - 1, t);
      var u := At(cursor, steps - 1, |lens|);
      StepsDiffer(t, u, cursor, |lens|);
      var last := if rank < lens[u] then [Slot(u, rank)] else [];
      ServedJoined(Round(lens, cursor, rank, steps - 1), last, t);
      ServedOne(Slot(u, rank), t);
    }
  }

  lemma {:induction false} ServedOne(s: Slot, t: nat)
    ensures Served([], t) == [] && Served([s], t) == if s.transport == t then [s.rank] else []
  {
    assert [s][..0] == [];
  }

  function UpTo(n: nat): (s: seq<nat>)
    ensures |s| == n && forall i :: 0 <= i < n ==> s[i] == i
  {
    if n == 0 then [] else UpTo(n - 1) + [n - 1]
  }

  /** Each transport is served its first requests, first in first out. */
  lemma {:induction false} FirstInFirstOut(lens: seq<nat>, cursor: nat, rounds: nat, t: nat)
    requires cursor < |lens| && t < |lens|
    ensures Served(Schedule(lens, cursor, rounds), t) == UpTo(if rounds <= lens[t] then rounds else lens[t])
    decreases rounds
  {
    hide Round, Schedule, Served, StepOf;
    ServedOne(Slot(t, rounds), t);
    if rounds == 0 {
      ScheduleStep(lens, cursor, 1);
    } else {
      ScheduleStep(lens, cursor, rounds);
      FirstInFirstOut(lens, cursor, rounds - 1, t);
      ServedInRound(lens, cursor, rounds - 1, |lens|, t);
      ServedJoined(Schedule(lens, cursor, rounds - 1), Round(lens, cursor, rounds - 1, |lens|), t);
      StepsDiffer(t, t, cursor, |lens|);
    }
  }

  /** Rounds in which no transport has a request left change nothing. */
  lemma {:induction false} IdleRounds(lens: seq<nat>, cursor: nat, done: nat, rounds: nat)
    requires cursor < |lens| && done <= rounds && forall t :: 0 <= t < |lens| ==> lens[t] <= done
    ensures Schedule(lens, cursor, rounds) == Schedule(lens, cursor, done)
    decreases rounds
  {
    hide Round, Schedule;
    if done < rounds {
      IdleRounds(lens, cursor, done, rounds - 1);
      IdleRound(lens, cursor, rounds - 1, |lens|);
      ScheduleStep(lens, cursor, rounds);
    }
  }

  lemma {:induction false} IdleRound(lens: seq<nat>, cursor: nat, rank: nat, steps: nat)
    requires cursor < |lens| && steps <= |lens| && forall t :: 0 <= t < |lens| ==> lens[t] <= rank
    ensures Round(lens, cursor, rank, steps) == []
    decreases steps
  {
    if steps != 0 {
      IdleRound(lens, cursor, rank, steps - 1);
    }
  }

  // ---------------------------------------------------------------- what is taken

  /** The transport, not its client, says where a request comes from and what it may do. */
  function Stamp(r: Request, cfg: Config): Request {
    r.(source := cfg.source, access := cfg.access)
  }

  predicate Fits(turns: seq<Slot>, queues: seq<seq<Request>>) {
    forall i :: 0 <= i < |turns| ==> turns[i].transport < |queues| && turns[i].rank < |queues[turns[i].transport]|
  }

  function Taken(turns: seq<Slot>, queues: seq<seq<Request>>, cfgs: seq<Config>): (rs: seq<Request>)
    requires Fits(turns, queues) && |cfgs| == |queues|
    ensures |rs| == |turns|
  {
    if turns == [] then []
    else
      var last := turns[|turns| - 1];
      Taken(turns[..|turns| - 1], queues, cfgs) + [Stamp(queues[last.transport][last.rank], cfgs[last.transport])]
  }

  function Lengths(queues: seq<seq<Request>>): (lens: seq<nat>)
    ensures |lens| == |queues| && forall i :: 0 <= i < |queues| ==> lens[i] == |queues[i]|
  {
    if queues == [] then [] else Lengths(queues[..|queues| - 1]) + [|queues[|queues| - 1]|]
  }

  /** How far into its queue a transport is, `step` steps into a round. */
  function Progress(len: nat, t: nat, cursor: nat, n: nat, rank: nat, step: nat): (k: nat)
    ensures k <= len
  {
    var k := if StepOf(t, cursor, n) < step then rank + 1 else rank;
    if k <= len then k else len
  }

  /** Every transport still holds exactly what the turns taken so far left behind. */
  predicate Drained(now: seq<seq<Request>>, queues: seq<seq<Request>>, cursor: nat, rank: nat, step: nat) {
    && |now| == |queues|
    && forall t :: 0 <= t < |now| ==> now[t] == queues[t][Progress(|queues[t]|, t, cursor, |now|, rank, step)..]
  }

  /** The transport whose turn it is holds its request of this rank in front, if it has one. */
  lemma {:induction false} FrontOfQueue(now: seq<seq<Request>>, queues: seq<seq<Request>>, cursor: nat, rank: nat,
                                        step: nat)
    requires cursor < |now| == |queues| && step < |now| && Drained(now, queues, cursor, rank, step)
    ensures var t := At(cursor, step, |now|);
            && (now[t] != [] <==> rank < |queues[t]|)
            && (rank < |queues[t]| ==> now[t][0] == queues[t][rank])
  {
    var t := At(cursor, step, |now|);
    assert now[t] == queues[t][Progress(|queues[t]|, t, cursor, |now|, rank, step)..];
  }

  lemma {:induction false} DrainedStep(now: seq<seq<Request>>, next: seq<seq<Request>>, queues: seq<seq<Request>>,
                                       cursor: nat, rank: nat, step: nat)
    requires cursor < |now| == |queues| && step < |now| && Drained(now, queues, cursor, rank, step)
    requires var t := At(cursor, step, |now|); next == now[t := if now[t] == [] then [] else now[t][1..]]
    ensures Drained(next, queues, cursor, rank, step + 1)
  {
    var u := At(cursor, step, |now|);
    forall t | 0 <= t < |now|
      ensures next[t] == queues[t][Progress(|queues[t]|, t, cursor, |now|, rank, step + 1)..]
    {
      StepsDiffer(t, u, cursor, |now|);
      assert now[t] == queues[t][Progress(|queues[t]|, t, cursor, |now|, rank, step)..];
    }
  }

  /** A whole round is the start of the next. */
  lemma {:induction false} DrainedRound(now: seq<seq<Request>>, queues: seq<seq<Request>>, cursor: nat, rank: nat)
    requires cursor < |now| == |queues| && Drained(now, queues, cursor, rank, |now|)
    ensures Drained(now, queues, cursor, rank + 1, 0)
  {
    forall t | 0 <= t < |now|
      ensures now[t] == queues[t][Progress(|queues[t]|, t, cursor, |now|, rank + 1, 0)..]
    {
      StepsDiffer(t, t, cursor, |now|);
      assert now[t] == queues[t][Progress(|queues[t]|, t, cursor, |now|, rank, |now|)..];
    }
  }

  lemma {:induction false} DrainedStart(queues: seq<seq<Request>>, cursor: nat)
    requires cursor < |queues|
    ensures Drained(queues, queues, cursor, 0, 0)
  {
    forall t | 0 <= t < |queues| ensures queues[t] == queues[t][Progress(|queues[t]|, t, cursor, |queues|, 0, 0)..] {
      StepsDiffer(t, t, cursor, |queues|);
    }
  }

  /** After the last round every transport has given its first `rounds` requests, or all it had. */
  lemma {:induction false} DrainedEnd(now: seq<seq<Request>>, queues: seq<seq<Request>>, cursor: nat, done: nat,
                                      rounds: nat)
    requires cursor < |now| == |queues| && Drained(now, queues, cursor, done, 0) && done <= rounds
    requires done < rounds ==> forall t :: 0 <= t < |queues| ==> |queues[t]| <= done
    ensures forall t :: 0 <= t < |now| ==> now[t] == queues[t][Min(rounds, |queues[t]|)..]
  {
    forall t | 0 <= t < |now| ensures now[t] == queues[t][Min(rounds, |queues[t]|)..] {
      StepsDiffer(t, t, cursor, |now|);
      assert now[t] == queues[t][Progress(|queues[t]|, t, cursor, |now|, done, 0)..];
    }
  }

  lemma {:induction false} TakenJoined(a: seq<Slot>, b: seq<Slot>, queues: seq<seq<Request>>, cfgs: seq<Config>)
    requires Fits(a, queues) && Fits(b, queues) && |cfgs| == |queues|
    ensures Fits(a + b, queues) && Taken(a + b, queues, cfgs) == Taken(a, queues, cfgs) + Taken(b, queues, cfgs)
    decreases |b|
  {
    if b == [] {
      assert a + b == a;
    } else {
      var n := |b| - 1;
      assert (a + b)[..|a + b| - 1] == a + b[..n];
      assert b == b[..n] + [b[n]];
      TakenJoined(a, b[..n], queues, cfgs);
    }
  }

  lemma {:induction false} TurnTaken(turns: seq<Slot>, s: Slot, queues: seq<seq<Request>>, cfgs: seq<Config>)
    requires Fits(turns, queues) && |cfgs| == |queues| && s.transport < |queues| && s.rank < |queues[s.transport]|
    ensures Fits(turns + [s], queues)
    ensures Taken(turns + [s], queues, cfgs)
         == Taken(turns, queues, cfgs) + [Stamp(queues[s.transport][s.rank], cfgs[s.transport])]
  {
    assert (turns + [s])[..|turns|] == turns;
  }

  lemma {:induction false} NoTurns(queues: seq<seq<Request>>, cfgs: seq<Config>)
    requires |cfgs| == |queues|
    ensures Fits([], queues) && Taken([], queues, cfgs) == []
  {
  }

  /** A round is empty exactly when no queue is that long. */
  lemma {:induction false} RoundEmpty(queues: seq<seq<Request>>, cursor: nat, rank: nat)
    requires cursor < |queues|
    ensures Round(Lengths(queues), cursor, rank, |queues|) != []
        <==> exists t :: 0 <= t < |queues| && rank < |queues[t]|
  {
    hide Round, Lengths;
    var lens := Lengths(queues);
    var turns := Round(lens, cursor, rank, |lens|);
    if turns != [] {
      RoundMembers(lens, cursor, rank, |lens|, turns[0]);
      assert turns[0] in turns;
    } else {
      forall t | 0 <= t < |queues| ensures |queues[t]| <= rank {
        RoundMembers(lens, cursor, rank, |lens|, Slot(t, rank));
        StepsDiffer(t, t, cursor, |lens|);
      }
    }
  }

  /** Each request is offered as its transport's queue holds it, under that transport's own source and rights. */
  lemma {:induction false} TakenAt(turns: seq<Slot>, queues: seq<seq<Request>>, cfgs: seq<Config>, i: nat)
    requires Fits(turns, queues) && |cfgs| == |queues| && i < |turns|
    ensures var (r, queued) := (Taken(turns, queues, cfgs)[i], queues[turns[i].transport][turns[i].rank]);
            && r.source == cfgs[turns[i].transport].source && r.access == cfgs[turns[i].transport].access
            && r == queued.(source := r.source, access := r.access)
    decreases |turns|
  {
    if i < |turns| - 1 {
      TakenAt(turns[..|turns| - 1], queues, cfgs, i);
    }
  }

  /**
   What an intake does: the scheduled turns are offered to the service, the queues lose just those, the cursor
   moves on.
  */
  ghost predicate IntakeIs(queues: seq<seq<Request>>, cfgs: seq<Config>, cursor: nat, rounds: nat,
                           offered: seq<Request>, nowOffered: seq<Request>, now: seq<seq<Request>>, nowCursor: nat)
    requires |queues| > 0 && |cfgs| == |queues|
  {
    var start := cursor % |queues|;
    var turns := Schedule(Lengths(queues), start, rounds);
    && Fits(turns, queues)
    && nowOffered == offered + Taken(turns, queues, cfgs)
    && |now| == |queues|
    && (forall t :: 0 <= t < |now| ==> now[t] == queues[t][Min(rounds, |queues[t]|)..])
    && nowCursor == (start + 1) % |queues|
  }
}
