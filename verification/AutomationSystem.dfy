/**
 All automations under one scheduler process, as a transition system.
 A transaction is one step. Steps of requests, of the scheduler's tick and of the running executors interleave freely:
 between the query of claimDue and its per-row transactions anything may happen, and an executor holds its run
 across any number of other steps.
 */
module AutomationSystem {
  import opened Wrappers
  import opened AutomationLifecycle
  import opened AutomationRow
  import opened AutomationPromises

  type AutomationId = string

  datatype RunRef = RunRef(automationId: AutomationId, i: nat)

  /**
   table: the automations with their runs. live: conversations that exist and are not in the recycle bin.
   over, due: what the current expireDue and claimDue found and have not dealt with yet.
   executing: runs held by an executor of this process.
   */
  datatype System = System(
    table: map<AutomationId, Automation>,
    live: set<ConversationId>,
    over: set<AutomationId>,
    due: map<AutomationId, int>,
    executing: set<RunRef>,
    clock: int)

  datatype Action =
    | OpenConversation(conversationId: ConversationId)
    | DeleteConversation(conversationId: ConversationId)
    | CreateAutomation(id: AutomationId, conversationId: ConversationId, create: CreateInput)
    | Request(id: AutomationId, request: RowEvent)
    | CompleteAutomation(id: AutomationId, reason: CompletionReason)
    | FindOver(ids: set<AutomationId>)
    | ExpireNext(id: AutomationId)
    | FindDue(ids: set<AutomationId>)
    | ClaimNext(id: AutomationId)
    | DropLists
    | StartRun(run: RunRef, traceId: TraceId)
    | EndRun(run: RunRef, outcome: Outcome)
    | RequeueRun(run: RunRef)
    | AbandonRun(run: RunRef)
    | Crash
    | RecoverInterrupted(run: RunRef)

  datatype Event = Event(action: Action, now: int)

  predicate IsRequest(e: RowEvent) {
    e.DoUpdate? || e.DoPause? || e.DoResume? || e.DoCancel?
  }

  function Start(): System {
    System(map[], {}, {}, map[], {}, 0)
  }

  function OnRow(env: Environment, s: System, id: AutomationId, e: RowEvent, now: int): map<AutomationId, Automation>
    requires ValidEnvironment(env)
  {
    if id in s.table then s.table[id := Step(env, s.table[id], e, now)] else s.table
  }

  function Apply(env: Environment, s: System, e: Event): System
    requires ValidEnvironment(env)
  {
    var t := s.(clock := e.now);
    match e.action
    case OpenConversation(c) => t.(live := s.live + {c})
    case DeleteConversation(c) =>
      t.(live := s.live - {c},
         table := map id | id in s.table ::
           if s.table[id].conversationId == c then ConversationDeleted(s.table[id]) else s.table[id])
    case CreateAutomation(id, c, input) =>
      if c !in s.live || Create(env, c, input, e.now).Err? then t
      else t.(table := s.table[id := Create(env, c, input, e.now).value])
    case Request(id, request) =>
      if id in s.table && s.table[id].conversationId in s.live then t.(table := OnRow(env, s, id, request, e.now)) else t
    case CompleteAutomation(id, reason) => t.(table := OnRow(env, s, id, DoComplete(reason), e.now))
    case FindOver(ids) => t.(over := ids)
    case ExpireNext(id) =>
      if id !in s.over then t
      else t.(table := OnRow(env, s, id, DoComplete(Expired), e.now), over := s.over - {id})
    case FindDue(ids) => t.(due := map id | id in ids && id in s.table && s.table[id].nextWakeAt.Some? :: s.table[id].nextWakeAt.value)
    case ClaimNext(id) =>
      if id !in s.due then t
      else t.(table := OnRow(env, s, id, DoClaim(s.due[id]), e.now), due := s.due - {id})
    case DropLists => t.(over := {}, due := map[])
    case StartRun(run, traceId) =>
      if run.automationId in s.table && PrepareStarts(s.table[run.automationId], run.i, e.now) then
        t.(table := OnRow(env, s, run.automationId, DoPrepare(run.i, traceId), e.now), executing := s.executing + {run})
      else
        t.(table := OnRow(env, s, run.automationId, DoPrepare(run.i, traceId), e.now))
    case EndRun(run, outcome) =>
      t.(table := OnRow(env, s, run.automationId, DoFinish(run.i, outcome), e.now), executing := s.executing - {run})
    case RequeueRun(run) =>
      t.(table := OnRow(env, s, run.automationId, DoRequeue(run.i), e.now), executing := s.executing - {run})
    case AbandonRun(run) => t.(executing := s.executing - {run})
    case Crash => t.(over := {}, due := map[], executing := {})
    case RecoverInterrupted(run) => t.(table := OnRow(env, s, run.automationId, DoRecover(run.i), e.now))
  }

  /**
   Which events can happen. expireDue and claimDue query again only when their last list is worked off or dropped. An executor ends or
   requeues only the run it holds, once. Recovery only touches runs nobody holds. The clock does not run
   backwards, and a trigger update does not collide with a claim of the same millisecond.
   */
  predicate Enabled(s: System, e: Event) {
    && s.clock <= e.now
    && match e.action
       case CreateAutomation(id, _, _) => id !in s.table
       case Request(id, request) =>
         IsRequest(request) && (id in s.table && request.DoUpdate? ==> !Collides(s.table[id], request.input, e.now))
       case FindOver(ids) => s.over == {} && forall id <- ids :: id in s.table && IsOver(s.table[id], e.now)
       case ExpireNext(id) => id in s.over
       case FindDue(ids) => s.due == map[] && forall id <- ids :: id in s.table && IsDue(s.table[id], e.now)
       case ClaimNext(id) => id in s.due
       case EndRun(run, _) => run in s.executing
       case RequeueRun(run) => run in s.executing
       case AbandonRun(run) => run in s.executing
       case RecoverInterrupted(run) => run !in s.executing
       case _ => true
  }

  // ---------------------------------------------------------------- the invariant of the system

  /** The executor's run is the automation's last, and still under way. */
  predicate Held(s: System, run: RunRef) {
    && run.automationId in s.table
    && run.i + 1 == |s.table[run.automationId].runs|
    && IsUnderWay(s.table[run.automationId].runs[run.i])
  }

  /** In a deleted conversation nothing is scheduled, pending or running; what was running is being cancelled. */
  predicate Retired(a: Automation) {
    IsTerminal(a) && (a.runs != [] ==> !LastRun(a).status.Pending? && !LastRun(a).status.Running?)
  }

  predicate DueIsClaimable(s: System, id: AutomationId)
    requires id in s.due
  {
    id in s.table && !HasOpenRun(s.table[id]) && s.due[id] <= s.clock
  }

  ghost predicate Inv(s: System) {
    && (forall id :: id in s.table ==> Healthy(s.table[id], s.clock))
    && (forall id :: id in s.due ==> DueIsClaimable(s, id))
    && (forall run :: run in s.executing ==> Held(s, run))
    && (forall id :: id in s.table && s.table[id].conversationId !in s.live ==> Retired(s.table[id]))
  }

  // ---------------------------------------------------------------- what other steps leave alone

  /** Only a claim opens a run: an automation found due stays claimable while others act on it. */
  lemma StepOpensNothing(env: Environment, a: Automation, e: RowEvent, now: int)
    requires ValidEnvironment(env) && !HasOpenRun(a) && !e.DoClaim?
    ensures !HasOpenRun(Step(env, a, e, now))
  {
    hide NextAfterRun, NextOnResume, CompletionReasonOf, NormalizeTrigger, NormalizeStopPolicy, StopRuns;
    var b := Step(env, a, e, now);
    if b.runs == StopRuns(a.runs) {
      StoppedOpensNothing(a, b);
    } else {
      match e
      case DoPrepare(i, traceId) => if i < |a.runs| { assert !IsOpen(a.runs[i]); }
      case DoRequeue(i) => if i < |a.runs| { assert !IsOpen(a.runs[i]); }
      case DoRecover(i) => if i < |a.runs| { assert !IsOpen(a.runs[i]); }
      case DoFinish(i, outcome) =>
        assert forall j :: 0 <= j < |b.runs| ==> b.runs[j] == a.runs[j] || !IsOpen(b.runs[j]);
        assert |b.runs| == |a.runs|;
      case _ =>
    }
  }

  lemma StoppedOpensNothing(a: Automation, b: Automation)
    requires !HasOpenRun(a) && b.runs == StopRuns(a.runs)
    ensures !HasOpenRun(b)
  {
    forall i | 0 <= i < |b.runs| ensures !IsOpen(b.runs[i]) {
      assert !IsOpen(a.runs[i]);
    }
  }

  /** Nobody but its executor, or recovery after a crash, takes a run out of the running and cancelling states. */
  lemma StepKeepsUnderWay(env: Environment, a: Automation, e: RowEvent, now: int)
    requires ValidEnvironment(env) && Healthy(a, now) && Permitted(a, e, now)
    requires a.runs != [] && IsUnderWay(LastRun(a))
    requires !e.DoFinish? && !e.DoRequeue? && !e.DoRecover?
    ensures |Step(env, a, e, now).runs| == |a.runs| && IsUnderWay(LastRun(Step(env, a, e, now)))
  {
    hide NextAfterRun, NextOnResume, CompletionReasonOf, NormalizeTrigger, NormalizeStopPolicy, StopRuns;
    var b := Step(env, a, e, now);
    OpenRunIsLast(a);
    if b.runs == StopRuns(a.runs) {
      StopRunsKeeps(a, b);
    } else {
      assert e.DoPrepare? && e.i < |a.runs| ==> !a.runs[e.i].status.Pending?;
    }
  }

  lemma StepKeepsRetired(env: Environment, a: Automation, e: RowEvent, now: int)
    requires ValidEnvironment(env) && Healthy(a, now) && Permitted(a, e, now) && Retired(a)
    ensures Retired(Step(env, a, e, now)) && Step(env, a, e, now).conversationId == a.conversationId
  {
    hide NextAfterRun, NextOnResume, CompletionReasonOf, NormalizeTrigger, NormalizeStopPolicy, StopRuns;
    var b := Step(env, a, e, now);
    TerminalIsAbsorbing(env, a, e, now);
    if b.runs == StopRuns(a.runs) {
      StopRunsKeeps(a, b);
    } else if e.DoPrepare? || e.DoRequeue? || e.DoRecover? || e.DoFinish? {
      assert |b.runs| == |a.runs|;
      assert e.i < |a.runs| ==> forall j :: 0 <= j < |a.runs| && j != e.i ==> b.runs[j] == a.runs[j];
    }
  }

  lemma StepKeepsConversation(env: Environment, a: Automation, e: RowEvent, now: int)
    requires ValidEnvironment(env)
    ensures Step(env, a, e, now).conversationId == a.conversationId
  {
    hide NextAfterRun, NextOnResume, CompletionReasonOf, NormalizeTrigger, NormalizeStopPolicy, StopRuns;
  }

  // ---------------------------------------------------------------- the invariant holds in every run

  /** One row took a permitted step; the lists of due and executing runs only lost entries that the step may have broken. */
  lemma RowStepKeepsInv(env: Environment, s: System, id: AutomationId, e: RowEvent, now: int, t: System)
    requires ValidEnvironment(env) && Inv(s) && s.clock <= now && id in s.table
    requires Permitted(s.table[id], e, now)
    requires t.table == s.table[id := Step(env, s.table[id], e, now)] && t.live == s.live && t.clock == now
    requires t.due.Keys <= s.due.Keys && forall d :: d in t.due ==> t.due[d] == s.due[d]
    requires e.DoClaim? ==> id !in t.due
    requires forall run :: run in t.executing ==> run in s.executing || Held(t, run)
    requires (e.DoFinish? || e.DoRequeue? || e.DoRecover?) ==> RunRef(id, e.i) !in t.executing
    ensures Inv(t)
  {
    hide Step, Permitted, Healthy, Retired, HasOpenRun;
    forall d | d in t.table ensures Healthy(t.table[d], now) {
      if d == id {
        StepKeepsHealthy(env, s.table[id], e, s.clock, now);
      } else {
        LaterClock(s.table[d], s.clock, now);
      }
    }
    LaterClock(s.table[id], s.clock, now);
    forall d | d in t.due ensures DueIsClaimable(t, d) {
      assert DueIsClaimable(s, d);
      if d == id {
        StepOpensNothing(env, s.table[id], e, now);
      }
    }
    forall run | run in t.executing ensures Held(t, run) {
      if run in s.executing && run.automationId == id {
        ExecutorKeepsItsRun(env, s, run, e, now);
      }
    }
    forall d | d in t.table && t.table[d].conversationId !in t.live ensures Retired(t.table[d]) {
      if d == id {
        StepKeepsConversation(env, s.table[id], e, now);
        StepKeepsRetired(env, s.table[id], e, now);
      }
    }
  }

  lemma ExecutorKeepsItsRun(env: Environment, s: System, run: RunRef, e: RowEvent, now: int)
    requires ValidEnvironment(env) && Held(s, run)
    requires Healthy(s.table[run.automationId], now) && Permitted(s.table[run.automationId], e, now)
    requires (e.DoFinish? || e.DoRequeue? || e.DoRecover?) ==> e.i != run.i
    ensures var b := Step(env, s.table[run.automationId], e, now);
      run.i + 1 == |b.runs| && IsUnderWay(b.runs[run.i])
  {
    hide NextAfterRun, NextOnResume, CompletionReasonOf, NormalizeTrigger, NormalizeStopPolicy, StopRuns, Step;
    var a := s.table[run.automationId];
    if e.DoRecover? {
      RecoverOfAnotherRun(env, a, e.i, now);
    } else {
      StepKeepsUnderWay(env, a, e, now);
    }
  }

  lemma RecoverOfAnotherRun(env: Environment, a: Automation, i: nat, now: int)
    requires ValidEnvironment(env) && OnlyLastRunOpen(a) && i + 1 != |a.runs|
    ensures Step(env, a, DoRecover(i), now) == a
  {
  }

  lemma CreatedIsHealthy(env: Environment, c: ConversationId, input: CreateInput, now: int)
    requires ValidEnvironment(env) && Create(env, c, input, now).Ok?
    ensures Healthy(Create(env, c, input, now).value, now)
    ensures Create(env, c, input, now).value.conversationId == c && Create(env, c, input, now).value.runs == []
  {
    hide NormalizeTrigger, NormalizeStopPolicy;
  }

  lemma DeletionKeepsInv(env: Environment, s: System, c: ConversationId, now: int)
    requires ValidEnvironment(env) && Inv(s) && s.clock <= now
    ensures Inv(Apply(env, s, Event(DeleteConversation(c), now)))
  {
    hide Healthy, StopRuns;
    var t := Apply(env, s, Event(DeleteConversation(c), now));
    forall id | id in s.table
      ensures Healthy(t.table[id], now)
      ensures !HasOpenRun(s.table[id]) ==> !HasOpenRun(t.table[id])
      ensures t.table[id].conversationId == s.table[id].conversationId
      ensures s.table[id].runs != [] && IsUnderWay(LastRun(s.table[id])) ==>
        |t.table[id].runs| == |s.table[id].runs| && IsUnderWay(LastRun(t.table[id]))
      ensures t.table[id].conversationId !in t.live ==> Retired(t.table[id])
    {
      var a := s.table[id];
      assert Healthy(a, s.clock);
      LaterClock(a, s.clock, now);
      if a.conversationId == c {
        StepKeepsHealthy(env, a, DoDeleteConversation, s.clock, now);
        HealthyParts(a, now);
        StopRunsKeeps(a, t.table[id]);
        if !HasOpenRun(a) {
          StoppedOpensNothing(a, t.table[id]);
        }
      }
    }
    forall id | id in t.due ensures DueIsClaimable(t, id) {
      assert DueIsClaimable(s, id);
    }
    forall run | run in t.executing ensures Held(t, run) {
      assert Held(s, run);
    }
  }

  lemma HealthyParts(a: Automation, now: int)
    requires Healthy(a, now)
    ensures OnlyLastRunOpen(a) && TracesMatch(a) && ScheduleIncreases(a)
  {
  }

  lemma ClaimKeepsInv(env: Environment, s: System, id: AutomationId, now: int)
    requires ValidEnvironment(env) && Inv(s) && s.clock <= now && id in s.due
    ensures Inv(Apply(env, s, Event(ClaimNext(id), now)))
  {
    hide Healthy, HasOpenRun, Step;
    assert DueIsClaimable(s, id);
    RowStepKeepsInv(env, s, id, DoClaim(s.due[id]), now, Apply(env, s, Event(ClaimNext(id), now)));
  }

  lemma StartKeepsInv(env: Environment, s: System, run: RunRef, traceId: TraceId, now: int)
    requires ValidEnvironment(env) && Inv(s) && s.clock <= now && run.automationId in s.table
    ensures Inv(Apply(env, s, Event(StartRun(run, traceId), now)))
  {
    hide Healthy;
    var a := s.table[run.automationId];
    var t := Apply(env, s, Event(StartRun(run, traceId), now));
    if PrepareStarts(a, run.i, now) {
      assert Healthy(a, s.clock);
      HealthyParts(a, s.clock);
      assert IsOpen(a.runs[run.i]) && run.i + 1 == |a.runs|;
      assert Held(t, run);
    }
    RowStepKeepsInv(env, s, run.automationId, DoPrepare(run.i, traceId), now, t);
  }

  lemma LaterClocks(s: System, now: int)
    requires Inv(s) && s.clock <= now
    ensures forall id <- s.table :: Healthy(s.table[id], now)
  {
    hide Healthy;
    forall id | id in s.table ensures Healthy(s.table[id], now) {
      LaterClock(s.table[id], s.clock, now);
    }
  }

  predicate OnOneRow(action: Action) {
    || action.Request? || action.CompleteAutomation? || action.ExpireNext? || action.EndRun? || action.RequeueRun?
    || action.RecoverInterrupted?
  }

  lemma RowEventKeepsInv(env: Environment, s: System, e: Event)
    requires ValidEnvironment(env) && Inv(s) && Enabled(s, e) && OnOneRow(e.action)
    ensures Inv(Apply(env, s, e))
  {
    hide Healthy, HasOpenRun, Step, Retired;
    var t := Apply(env, s, e);
    LaterClocks(s, e.now);
    match e.action
    case Request(id, request) =>
      if id in s.table && s.table[id].conversationId in s.live { RowStepKeepsInv(env, s, id, request, e.now, t); }
    case CompleteAutomation(id, reason) =>
      if id in s.table { RowStepKeepsInv(env, s, id, DoComplete(reason), e.now, t); }
    case ExpireNext(id) =>
      if id in s.over && id in s.table { RowStepKeepsInv(env, s, id, DoComplete(Expired), e.now, t); }
    case EndRun(run, outcome) =>
      assert Held(s, run);
      RowStepKeepsInv(env, s, run.automationId, DoFinish(run.i, outcome), e.now, t);
    case RequeueRun(run) =>
      assert Held(s, run);
      RowStepKeepsInv(env, s, run.automationId, DoRequeue(run.i), e.now, t);
    case RecoverInterrupted(run) =>
      if run.automationId in s.table { RowStepKeepsInv(env, s, run.automationId, DoRecover(run.i), e.now, t); }
  }

  /** Every enabled event keeps the invariant. */
  lemma EventKeepsInv(env: Environment, s: System, e: Event)
    requires ValidEnvironment(env) && Inv(s) && Enabled(s, e)
    ensures Inv(Apply(env, s, e))
  {
    hide Healthy, HasOpenRun, Step, Create, ConversationDeleted, Retired, PrepareStarts;
    if OnOneRow(e.action) {
      RowEventKeepsInv(env, s, e);
      return;
    }
    LaterClocks(s, e.now);
    match e.action
    case DeleteConversation(c) => DeletionKeepsInv(env, s, c, e.now);
    case CreateAutomation(id, c, input) =>
      if c in s.live && Create(env, c, input, e.now).Ok? {
        CreatedIsHealthy(env, c, input, e.now);
      }
    case ClaimNext(id) => ClaimKeepsInv(env, s, id, e.now);
    case StartRun(run, traceId) =>
      if run.automationId in s.table { StartKeepsInv(env, s, run, traceId, e.now); }
    case _ =>
  }
}
