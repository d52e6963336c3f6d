/**
 The scheduler process. A timer fires ticks at any moment; a tick gives way at every query and transaction, so ticks, requests,
 executors and crashes interleave. That one list is worked off before the next is asked for, which the system of automations takes
 for granted, is a consequence of the ticking flag.
 */
module AutomationScheduler {
  import opened Wrappers
  import opened AutomationRow
  import opened AutomationSystem
  import opened AutomationRuns

  type TickId = nat

  /** `queried` tells whether the list of this part was asked for already. */
  datatype TickPhase = Expiring(queried: bool) | Noticing | Claiming(queried: bool) | Launching | Over

  /** `executors` counts the executions under way of each run. */
  datatype Process = Process(
    s: System,
    ticking: bool,
    ticks: map<TickId, TickPhase>,
    inFlight: set<RunRef>,
    executors: multiset<RunRef>)

  datatype Step =
    | Fire(tick: TickId)
    | Query(tick: TickId, ids: set<AutomationId>, now: int)
    | Row(tick: TickId, id: AutomationId, now: int)
    | MoveOn(tick: TickId)
    | Launch(tick: TickId, pending: seq<RunRef>)
    | Break(tick: TickId, now: int)
    | Settle(run: RunRef)
    | Elsewhere(event: Event)
    | Restart(now: int)

  function Boot(): Process {
    Process(Start(), false, map[], {}, multiset{})
  }

  predicate IsBetween(phase: TickPhase) { !phase.Over? }

  // ---------------------------------------------------------------- starting runs

  /** The runs a tick starts: those of its list that are not in flight, each once. */
  function Started(inFlight: set<RunRef>, pending: seq<RunRef>): seq<RunRef>
    decreases |pending|
  {
    if pending == [] then []
    else if pending[0] in inFlight then Started(inFlight, pending[1..])
    else [pending[0]] + Started(inFlight + {pending[0]}, pending[1..])
  }

  lemma {:induction false} StartedIff(inFlight: set<RunRef>, pending: seq<RunRef>, run: RunRef)
    ensures run in Started(inFlight, pending) <==> run in pending && run !in inFlight
    decreases |pending|
  {
    if pending != [] {
      if pending[0] in inFlight {
        StartedIff(inFlight, pending[1..], run);
      } else {
        StartedIff(inFlight + {pending[0]}, pending[1..], run);
      }
    }
  }

  lemma {:induction false} StartedOnce(inFlight: set<RunRef>, pending: seq<RunRef>, run: RunRef)
    ensures multiset(Started(inFlight, pending))[run] == if run in pending && run !in inFlight then 1 else 0
    decreases |pending|
  {
    if pending != [] {
      if pending[0] in inFlight {
        StartedOnce(inFlight, pending[1..], run);
      } else {
        StartedOnce(inFlight + {pending[0]}, pending[1..], run);
        StartedHead(inFlight, pending);
      }
    }
  }

  lemma StartedHead(inFlight: set<RunRef>, pending: seq<RunRef>)
    requires pending != [] && pending[0] !in inFlight
    ensures multiset(Started(inFlight, pending)) == multiset{pending[0]} + multiset(Started(inFlight + {pending[0]}, pending[1..]))
  {
  }

  lemma {:induction false} StartedSkips(inFlight: set<RunRef>, pending: seq<RunRef>, k: nat)
    requires k < |pending|
    ensures Started(inFlight, pending[..k + 1]) ==
      Started(inFlight, pending[..k]) + (if pending[k] in inFlight || pending[k] in pending[..k] then [] else [pending[k]])
    decreases k
  {
    var front := pending[..k + 1];
    if k == 0 {
      assert front == [pending[0]] && front[1..] == [] && pending[..0] == [];
    } else {
      var rest := pending[1..];
      assert front[1..] == rest[..k] && pending[..k][1..] == rest[..k - 1] && rest[k - 1] == pending[k];
      assert pending[..k] == [pending[0]] + rest[..k - 1];
      StartedSkips(if pending[0] in inFlight then inFlight else inFlight + {pending[0]}, rest, k - 1);
    }
  }

  // ---------------------------------------------------------------- the process

  /** The event of the system of automations that a step is. */
  function EventOf(p: Process, step: Step): Option<Event> {
    match step
    case Query(tick, ids, now) =>
      if tick !in p.ticks then None
      else if p.ticks[tick] == Expiring(false) then Some(Event(FindOver(ids), now))
      else if p.ticks[tick] == Claiming(false) then Some(Event(FindDue(ids), now))
      else None
    case Row(tick, id, now) =>
      if tick !in p.ticks then None
      else if p.ticks[tick] == Expiring(true) then Some(Event(ExpireNext(id), now))
      else if p.ticks[tick] == Claiming(true) then Some(Event(ClaimNext(id), now))
      else None
    case Break(tick, now) => if tick in p.ticks && IsBetween(p.ticks[tick]) then Some(Event(DropLists, now)) else None
    case Elsewhere(event) => Some(event)
    case Restart(now) => Some(Event(Crash, now))
    case _ => None
  }

  /** What does not belong to ticks. */
  predicate IsElsewhere(a: Action) {
    !(a.FindOver? || a.ExpireNext? || a.FindDue? || a.ClaimNext? || a.DropLists? || a.Crash?)
  }

  /** What the database answers, and what the code checks; nothing here looks at how far other ticks are. */
  predicate Possible(p: Process, step: Step) {
    match step
    case Fire(tick) => tick !in p.ticks
    case Query(tick, ids, now) =>
      && tick in p.ticks && p.s.clock <= now
      && ((p.ticks[tick] == Expiring(false) && forall id <- ids :: id in p.s.table && IsOver(p.s.table[id], now))
          || (p.ticks[tick] == Claiming(false) && forall id <- ids :: id in p.s.table && IsDue(p.s.table[id], now)))
    case Row(tick, id, now) =>
      && tick in p.ticks && p.s.clock <= now
      && ((p.ticks[tick] == Expiring(true) && id in p.s.over) || (p.ticks[tick] == Claiming(true) && id in p.s.due))
    case MoveOn(tick) =>
      && tick in p.ticks
      && ((p.ticks[tick] == Expiring(true) && p.s.over == {}) || p.ticks[tick] == Noticing
          || (p.ticks[tick] == Claiming(true) && p.s.due == map[]))
    case Launch(tick, _) => tick in p.ticks && p.ticks[tick] == Launching
    case Break(tick, now) => tick in p.ticks && IsBetween(p.ticks[tick]) && p.s.clock <= now
    case Settle(run) => run in p.executors
    case Elsewhere(event) => IsElsewhere(event.action) && Enabled(p.s, event)
    case Restart(now) => p.s.clock <= now
  }

  function NextPhase(phase: TickPhase): TickPhase {
    match phase
    case Expiring(queried) => if queried then Noticing else Expiring(true)
    case Noticing => Claiming(false)
    case Claiming(queried) => if queried then Launching else Claiming(true)
    case _ => Over
  }

  function Next(env: Environment, p: Process, step: Step): Process
    requires ValidEnvironment(env)
  {
    var s := if EventOf(p, step).Some? then Apply(env, p.s, EventOf(p, step).value) else p.s;
    match step
    case Fire(tick) =>
      if p.ticking then p.(ticks := p.ticks[tick := Over]) else p.(ticking := true, ticks := p.ticks[tick := Expiring(false)])
    case Query(tick, _, _) => if tick in p.ticks then p.(s := s, ticks := p.ticks[tick := NextPhase(p.ticks[tick])]) else p
    case Row(_, _, _) => p.(s := s)
    case MoveOn(tick) => if tick in p.ticks then p.(ticks := p.ticks[tick := NextPhase(p.ticks[tick])]) else p
    case Launch(tick, pending) =>
      var started := Started(p.inFlight, pending);
      p.(ticking := false, ticks := p.ticks[tick := Over], inFlight := p.inFlight + (set run | run in started),
         executors := p.executors + multiset(started))
    case Break(tick, _) => p.(s := s, ticking := false, ticks := p.ticks[tick := Over])
    case Settle(run) => p.(inFlight := p.inFlight - {run}, executors := p.executors - multiset{run})
    case Elsewhere(_) => p.(s := s)
    case Restart(_) => Process(s, false, map[], {}, multiset{})
  }

  // ---------------------------------------------------------------- what every interleaving keeps

  /** The flag is up exactly while a tick is between its begin and its end, and it is only one. */
  predicate OneTick(p: Process) {
    && (p.ticking <==> exists t :: t in p.ticks && IsBetween(p.ticks[t]))
    && (forall t <- p.ticks, u <- p.ticks :: IsBetween(p.ticks[t]) && IsBetween(p.ticks[u]) ==> t == u)
  }

  /** A list that is not worked off belongs to a tick that is working on it. */
  predicate ListsHaveTicks(p: Process) {
    && (p.s.over != {} ==> exists t :: t in p.ticks && p.ticks[t] == Expiring(true))
    && (p.s.due != map[] ==> exists t :: t in p.ticks && p.ticks[t] == Claiming(true))
  }

  /** What is in flight is what is being executed, and nothing is executed twice at a time. */
  ghost predicate OneExecutor(p: Process) {
    forall run :: p.executors[run] == if run in p.inFlight then 1 else 0
  }

  ghost predicate ProcessInv(p: Process) {
    OneTick(p) && ListsHaveTicks(p) && OneExecutor(p)
  }

  lemma TickListsAreEmpty(p: Process, tick: TickId)
    requires OneTick(p) && ListsHaveTicks(p) && tick in p.ticks && IsBetween(p.ticks[tick])
    ensures p.ticks[tick] != Expiring(true) ==> p.s.over == {}
    ensures p.ticks[tick] != Claiming(true) ==> p.s.due == map[]
  {
  }

  lemma NoTickNoList(p: Process)
    requires OneTick(p) && ListsHaveTicks(p) && !p.ticking
    ensures p.s.over == {} && p.s.due == map[]
  {
  }

  /** A tick asks for a list only when no list is left over: what the system of automations demands of its events follows. */
  lemma StepIsEnabled(p: Process, step: Step)
    requires ProcessInv(p) && Possible(p, step) && EventOf(p, step).Some?
    ensures Enabled(p.s, EventOf(p, step).value)
  {
    if step.Query? {
      TickListsAreEmpty(p, step.tick);
    }
  }

  lemma ElsewhereKeepsLists(env: Environment, s: System, e: Event)
    requires ValidEnvironment(env) && IsElsewhere(e.action)
    ensures Apply(env, s, e).over == s.over && Apply(env, s, e).due == s.due
  {
    hide AutomationRow.Step, Create, ConversationDeleted, PrepareStarts;
  }

  lemma TickStepKeepsInv(env: Environment, p: Process, step: Step)
    requires ValidEnvironment(env) && ProcessInv(p) && Possible(p, step) && (step.Query? || step.Row? || step.MoveOn? || step.Break?)
    ensures OneTick(Next(env, p, step)) && ListsHaveTicks(Next(env, p, step))
  {
    hide OnRow, AutomationRow.Step, Create, ConversationDeleted, PrepareStarts;
    var q := Next(env, p, step);
    TickListsAreEmpty(p, step.tick);
    assert step.tick in q.ticks;
  }

  lemma LaunchKeepsInv(env: Environment, p: Process, tick: TickId, pending: seq<RunRef>)
    requires ValidEnvironment(env) && ProcessInv(p) && Possible(p, Launch(tick, pending))
    ensures ProcessInv(Next(env, p, Launch(tick, pending)))
  {
    var q, started := Next(env, p, Launch(tick, pending)), Started(p.inFlight, pending);
    TickListsAreEmpty(p, tick);
    forall run ensures q.executors[run] == if run in q.inFlight then 1 else 0 {
      StartedOnce(p.inFlight, pending, run);
      StartedIff(p.inFlight, pending, run);
    }
  }

  lemma FireKeepsInv(env: Environment, p: Process, tick: TickId)
    requires ValidEnvironment(env) && ProcessInv(p) && tick !in p.ticks
    ensures ProcessInv(Next(env, p, Fire(tick)))
  {
    var q := Next(env, p, Fire(tick));
    assert forall t <- p.ticks :: t in q.ticks && q.ticks[t] == p.ticks[t];
    if p.ticking {
      var t :| t in p.ticks && IsBetween(p.ticks[t]);
      assert t in q.ticks && IsBetween(q.ticks[t]);
    } else {
      NoTickNoList(p);
      assert IsBetween(q.ticks[tick]);
    }
  }

  lemma StepKeepsInv(env: Environment, p: Process, step: Step)
    requires ValidEnvironment(env) && ProcessInv(p) && Possible(p, step)
    ensures ProcessInv(Next(env, p, step))
  {
    hide Apply;
    match step
    case Fire(tick) => FireKeepsInv(env, p, tick);
    case Query(_, _, _) => TickStepKeepsInv(env, p, step);
    case Row(_, _, _) => TickStepKeepsInv(env, p, step);
    case MoveOn(_) => TickStepKeepsInv(env, p, step);
    case Break(_, _) => TickStepKeepsInv(env, p, step);
    case Launch(tick, pending) => LaunchKeepsInv(env, p, tick, pending);
    case Settle(run) =>
    case Elsewhere(event) => ElsewhereKeepsLists(env, p.s, event);
    case Restart(now) => RestartKeepsInv(env, p, now);
  }

  lemma RestartKeepsInv(env: Environment, p: Process, now: int)
    requires ValidEnvironment(env)
    ensures ProcessInv(Next(env, p, Restart(now)))
  {
  }

  // ---------------------------------------------------------------- whole runs

  function RunOn(env: Environment, p: Process, steps: seq<Step>): Process
    requires ValidEnvironment(env)
    decreases |steps|
  {
    if steps == [] then p else RunOn(env, Next(env, p, steps[0]), steps[1..])
  }

  predicate AllPossible(env: Environment, p: Process, steps: seq<Step>)
    requires ValidEnvironment(env)
    decreases |steps|
  {
    steps != [] ==> Possible(p, steps[0]) && AllPossible(env, Next(env, p, steps[0]), steps[1..])
  }

  /** The events of the system of automations that a run of the process consists of. */
  function EventsOf(env: Environment, p: Process, steps: seq<Step>): seq<Event>
    requires ValidEnvironment(env)
    decreases |steps|
  {
    if steps == [] then []
    else
      (if EventOf(p, steps[0]).Some? then [EventOf(p, steps[0]).value] else []) + EventsOf(env, Next(env, p, steps[0]), steps[1..])
  }

  lemma NextApplies(env: Environment, p: Process, step: Step)
    requires ValidEnvironment(env) && Possible(p, step)
    ensures Next(env, p, step).s == if EventOf(p, step).Some? then Apply(env, p.s, EventOf(p, step).value) else p.s
  {
    hide Apply;
  }

  lemma {:induction false} RunsAreFeasibleFrom(env: Environment, p: Process, steps: seq<Step>)
    requires ValidEnvironment(env) && ProcessInv(p) && AllPossible(env, p, steps)
    ensures Feasible(env, p.s, EventsOf(env, p, steps)) && RunOn(env, p, steps).s == After(env, p.s, EventsOf(env, p, steps))
    ensures ProcessInv(RunOn(env, p, steps))
    decreases |steps|
  {
    hide Apply, Next, Possible, ProcessInv, Enabled, EventOf;
    if steps != [] {
      StepKeepsInv(env, p, steps[0]);
      NextApplies(env, p, steps[0]);
      RunsAreFeasibleFrom(env, Next(env, p, steps[0]), steps[1..]);
      var rest := EventsOf(env, Next(env, p, steps[0]), steps[1..]);
      if EventOf(p, steps[0]).Some? {
        StepIsEnabled(p, steps[0]);
        assert ([EventOf(p, steps[0]).value] + rest)[1..] == rest;
      } else {
        assert [] + rest == rest;
      }
    }
  }

  /**
   Every run of the scheduler process, ticks interleaved with everything else, is a feasible run of the system of automations; so
   what holds in all of its reachable states holds under the scheduler.
   */
  lemma ScheduledRunsAreFeasible(env: Environment, steps: seq<Step>)
    requires ValidEnvironment(env) && AllPossible(env, Boot(), steps)
    ensures Feasible(env, Start(), EventsOf(env, Boot(), steps))
    ensures RunOn(env, Boot(), steps).s == After(env, Start(), EventsOf(env, Boot(), steps))
  {
    RunsAreFeasibleFrom(env, Boot(), steps);
  }

  /** In every interleaving at most one tick is between its begin and its end, and no run has two executors. */
  lemma TicksDoNotOverlap(env: Environment, steps: seq<Step>)
    requires ValidEnvironment(env) && AllPossible(env, Boot(), steps)
    ensures var p := RunOn(env, Boot(), steps);
      && (forall t <- p.ticks, u <- p.ticks :: IsBetween(p.ticks[t]) && IsBetween(p.ticks[u]) ==> t == u)
      && (forall run :: p.executors[run] <= 1)
  {
    hide RunOn;
    RunsAreFeasibleFrom(env, Boot(), steps);
  }

  /** While a run is executed no tick starts it again; once it settled, the next one that finds it pending does. */
  lemma SettledRunsMayStartAgain(env: Environment, p: Process, run: RunRef, pending: seq<RunRef>)
    requires ValidEnvironment(env) && ProcessInv(p) && run in p.executors && run in pending
    ensures run !in Started(p.inFlight, pending) && run in Started(Next(env, p, Settle(run)).inFlight, pending)
  {
    StartedIff(p.inFlight, pending, run);
    StartedIff(p.inFlight - {run}, pending, run);
  }

  // ---------------------------------------------------------------- a tick gets through

  /** A tick that fires begins unless another is under way. */
  lemma FiringIff(env: Environment, p: Process, tick: TickId)
    requires ValidEnvironment(env) && ProcessInv(p) && Possible(p, Fire(tick))
    ensures var q := Next(env, p, Fire(tick));
      && q.ticking && tick in q.ticks && q.s == p.s
      && (q.ticks[tick] == Expiring(false) <==> forall t <- p.ticks :: p.ticks[t] == Over)
      && (q.ticks[tick] == Over <==> exists t <- p.ticks :: p.ticks[t] != Over)
  {
  }

  /** The parts of a tick, in order: it expires, sends notices, claims, and starts what is pending; then, or when it fails, it is over. */
  lemma TickGoesOn(env: Environment, p: Process, step: Step)
    requires ValidEnvironment(env) && Possible(p, step) && (step.Query? || step.Row? || step.MoveOn? || step.Launch? || step.Break?)
    ensures var q, before := Next(env, p, step), p.ticks[step.tick];
      && step.tick in q.ticks
      && (step.Query? ==> q.ticks[step.tick] == if before.Expiring? then Expiring(true) else Claiming(true))
      && (step.Row? ==> q.ticks[step.tick] == before)
      && (step.MoveOn? ==>
            q.ticks[step.tick] == if before.Expiring? then Noticing else if before.Noticing? then Claiming(false) else Launching)
      && (step.Launch? || step.Break? ==> q.ticks[step.tick] == Over && !q.ticking)
      && (forall t <- p.ticks :: t != step.tick ==> t in q.ticks && q.ticks[t] == p.ticks[t])
  {
    hide Apply;
  }

  function PartsLeft(phase: TickPhase): nat {
    match phase
    case Expiring(queried) => if queried then 5 else 6
    case Noticing => 4
    case Claiming(queried) => if queried then 2 else 3
    case Launching => 1
    case Over => 0
  }

  lemma RowsShrink(env: Environment, p: Process, tick: TickId, id: AutomationId)
    requires ValidEnvironment(env) && ProcessInv(p) && Possible(p, Row(tick, id, p.s.clock))
    ensures var q := Next(env, p, Row(tick, id, p.s.clock));
      |q.s.over| + |q.s.due| < |p.s.over| + |p.s.due|
  {
    hide OnRow, AutomationRow.Step;
    var q := Next(env, p, Row(tick, id, p.s.clock));
    TickListsAreEmpty(p, tick);
    if p.ticks[tick] == Expiring(true) {
      assert q.s.over == p.s.over - {id} && q.s.due == p.s.due;
      assert p.s.over == q.s.over + {id};
    } else {
      assert q.s.over == p.s.over && q.s.due.Keys == p.s.due.Keys - {id};
      assert p.s.due.Keys == q.s.due.Keys + {id};
      assert |q.s.due.Keys| == |q.s.due| && |p.s.due.Keys| == |p.s.due|;
    }
  }

  /** Whatever happened, a tick that is under way can always be brought to its end by steps of its own, and then another may begin. */
  lemma {:induction false} TickCanFinish(env: Environment, p: Process, tick: TickId) returns (steps: seq<Step>)
    requires ValidEnvironment(env) && ProcessInv(p) && tick in p.ticks && IsBetween(p.ticks[tick])
    ensures AllPossible(env, p, steps)
    ensures var q := RunOn(env, p, steps); tick in q.ticks && q.ticks[tick] == Over && !q.ticking
    decreases PartsLeft(p.ticks[tick]), |p.s.over| + |p.s.due|
  {
    var first := OwnStep(p, tick);
    StepKeepsInv(env, p, first);
    TickGoesOn(env, p, first);
    var q := Next(env, p, first);
    if q.ticks[tick] == Over {
      OneStep(env, p, first);
      steps := [first];
    } else {
      if first.Row? {
        RowsShrink(env, p, tick, first.id);
      }
      hide ProcessInv, Possible, Next;
      var rest := TickCanFinish(env, q, tick);
      steps := [first] + rest;
      assert steps[1..] == rest;
    }
  }

  lemma OneStep(env: Environment, p: Process, step: Step)
    requires ValidEnvironment(env) && Possible(p, step)
    ensures AllPossible(env, p, [step]) && RunOn(env, p, [step]) == Next(env, p, step)
  {
    hide Possible, Next;
    assert [step][1..] == [];
  }

  lemma OwnStep(p: Process, tick: TickId) returns (step: Step)
    requires tick in p.ticks && IsBetween(p.ticks[tick])
    ensures Possible(p, step) && (step.Query? || step.Row? || step.MoveOn? || step.Launch?) && step.tick == tick
    ensures step.Row? ==> step.now == p.s.clock
  {
    match p.ticks[tick]
    case Expiring(queried) =>
      if !queried {
        step := Query(tick, {}, p.s.clock);
      } else if p.s.over == {} {
        step := MoveOn(tick);
      } else {
        var id :| id in p.s.over;
        step := Row(tick, id, p.s.clock);
      }
    case Claiming(queried) =>
      if !queried {
        step := Query(tick, {}, p.s.clock);
      } else if p.s.due == map[] {
        step := MoveOn(tick);
      } else {
        var id :| id in p.s.due;
        step := Row(tick, id, p.s.clock);
      }
    case Noticing => step := MoveOn(tick);
    case Launching => step := Launch(tick, []);
  }

  // ---------------------------------------------------------------- in place

  class Scheduler {
    var ticking: bool
    var inFlight: set<RunRef>

    constructor ()
      ensures !ticking && inFlight == {}
    {
      ticking, inFlight := false, {};
    }

    /** A tick up to its first query: overlapping ticks end here. */
    method Begin() returns (begun: bool)
      modifies this`ticking
      ensures begun <==> !old(ticking)
      ensures ticking
    {
      if ticking {
        return false;
      }
      ticking := true;
      return true;
    }

    /** The last part of a tick, over the pending runs it queried. */
    method Launch(pending: seq<RunRef>) returns (started: seq<RunRef>)
      modifies this
      ensures !ticking && started == Started(old(inFlight), pending)
      ensures inFlight == old(inFlight) + set run | run in started
    {
      started := [];
      for k := 0 to |pending|
        invariant started == Started(old(inFlight), pending[..k])
        invariant inFlight == old(inFlight) + set run | run in started
      {
        var run := pending[k];
        StartedSkips(old(inFlight), pending, k);
        StartedIff(old(inFlight), pending[..k], run);
        if run in inFlight {
          continue;
        }
        inFlight := inFlight + {run};
        started := started + [run];
      }
      assert pending[..|pending|] == pending;
      ticking := false;
    }

    method Finished(run: RunRef)
      modifies this`inFlight
      ensures inFlight == old(inFlight) - {run}
      ensures forall pending: seq<RunRef> :: run in pending ==> run in Started(inFlight, pending)
    {
      inFlight := inFlight - {run};
      forall pending: seq<RunRef> | run in pending ensures run in Started(inFlight, pending) {
        StartedIff(inFlight, pending, run);
      }
    }
  }
}
