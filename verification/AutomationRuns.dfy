/** Whole runs of the automation system, from the empty database: what every reachable state satisfies. */
module AutomationRuns {
  import opened Wrappers
  import opened AutomationLifecycle
  import opened AutomationRow
  import opened AutomationPromises
  import opened AutomationSystem

  function After(env: Environment, s: System, events: seq<Event>): System
    requires ValidEnvironment(env)
    decreases |events|
  {
    if events == [] then s else After(env, Apply(env, s, events[0]), events[1..])
  }

  predicate Feasible(env: Environment, s: System, events: seq<Event>)
    requires ValidEnvironment(env)
    decreases |events|
  {
    events != [] ==> Enabled(s, events[0]) && Feasible(env, Apply(env, s, events[0]), events[1..])
  }

  lemma {:induction false} RunsKeepInv(env: Environment, s: System, events: seq<Event>)
    requires ValidEnvironment(env) && Inv(s) && Feasible(env, s, events)
    ensures Inv(After(env, s, events))
    decreases |events|
  {
    hide Inv, Enabled, Apply;
    if events != [] {
      EventKeepsInv(env, s, events[0]);
      RunsKeepInv(env, Apply(env, s, events[0]), events[1..]);
    }
  }

  /**
   In every reachable state, for every automation: it is not orphaned, at most one of its runs is open, its schedule strictly
   increases, and the statuses of automation, run, trace and wake-up agree.
   */
  lemma ReachableStatesAreHealthy(env: Environment, events: seq<Event>, id: AutomationId)
    requires ValidEnvironment(env) && Feasible(env, Start(), events)
    requires id in After(env, Start(), events).table
    ensures var a := After(env, Start(), events).table[id];
      && (a.status == Active ==> a.nextWakeAt.Some? || HasOpenRun(a))
      && (forall i, j :: 0 <= i < j < |a.runs| ==> !(IsOpen(a.runs[i]) && IsOpen(a.runs[j])))
      && (forall i, j :: 0 <= i < j < |a.runs| ==> a.runs[i].scheduledFor < a.runs[j].scheduledFor)
      && (forall i :: 0 <= i < |a.runs| && IsOpen(a.runs[i]) ==> (a.runs[i].status.Pending? <==> a.runs[i].traceId.None?))
      && (forall i :: 0 <= i < |a.runs| && a.runs[i].status.Cancelling? ==> a.status != Active)
      && (forall i :: 0 <= i < |a.runs| && (a.runs[i].status.Pending? || a.runs[i].status.Running?) ==>
            a.status == Active || a.status == Completed)
      && (a.status != Active ==> a.nextWakeAt.None?)
  {
    assert Inv(Start());
    RunsKeepInv(env, Start(), events);
    var s := After(env, Start(), events);
    assert Healthy(s.table[id], s.clock);
  }

  /** Nothing is scheduled, pending or running in a conversation that is in the recycle bin. */
  lemma DeletedConversationsStaySilent(env: Environment, events: seq<Event>, id: AutomationId)
    requires ValidEnvironment(env) && Feasible(env, Start(), events)
    requires var s := After(env, Start(), events); id in s.table && s.table[id].conversationId !in s.live
    ensures var a := After(env, Start(), events).table[id];
      IsTerminal(a) && a.nextWakeAt.None?
      && forall i :: 0 <= i < |a.runs| && IsOpen(a.runs[i]) ==> a.runs[i].status.Cancelling?
  {
    assert Inv(Start());
    RunsKeepInv(env, Start(), events);
    var s := After(env, Start(), events);
    assert Healthy(s.table[id], s.clock) && Retired(s.table[id]);
  }

  /** Deleting a conversation puts it and all its automations there. */
  lemma DeletionSilences(env: Environment, s: System, c: ConversationId, now: int, id: AutomationId)
    requires ValidEnvironment(env) && Inv(s) && s.clock <= now && id in s.table && s.table[id].conversationId == c
    ensures var t := Apply(env, s, Event(DeleteConversation(c), now));
      c !in t.live && id in t.table && Retired(t.table[id]) && t.table[id].nextWakeAt.None?
      && t.live == s.live - {c}
  {
    hide Healthy, Retired, ConversationDeleted;
    var t := Apply(env, s, Event(DeleteConversation(c), now));
    DeletionKeepsInv(env, s, c, now);
    assert t.table[id] == ConversationDeleted(s.table[id]);
    DeletedKeepsConversation(s.table[id]);
    RetiredHasNoWake(t.table[id], now);
  }

  /** A restart forgets what the process held, so recovery may end every run that was interrupted or abandoned; what it ends is closed. */
  lemma RestartMakesRecoverable(env: Environment, s: System, id: AutomationId, now: int)
    requires ValidEnvironment(env) && Inv(s) && s.clock <= now
    requires id in s.table && s.table[id].runs != [] && IsUnderWay(LastRun(s.table[id]))
    ensures var t := Apply(env, s, Event(Crash, now));
      var run := RunRef(id, |s.table[id].runs| - 1);
      && t.due == map[] && t.table == s.table
      && Enabled(t, Event(RecoverInterrupted(run), now))
      && (RecoverRun(env, s.table[id], run.i, now).Ok? ==>
            !HasOpenRun(Apply(env, t, Event(RecoverInterrupted(run), now)).table[id]))
  {
    hide RecoverRun, HasOpenRun, Inv, Apply, Healthy, IsUnderWay;
    var a, i := s.table[id], |s.table[id].runs| - 1;
    CrashForgets(env, s, now);
    HealthyAt(s, id, now);
    RecoveringEnds(env, Apply(env, s, Event(Crash, now)), RunRef(id, i), now);
    if RecoverRun(env, a, i, now).Ok? {
      RecoveredIsClosed(env, a, now, now);
    }
  }

  lemma CrashForgets(env: Environment, s: System, now: int)
    requires ValidEnvironment(env)
    ensures Apply(env, s, Event(Crash, now)) == s.(over := {}, due := map[], executing := {}, clock := now)
  {
  }

  lemma RecoveringEnds(env: Environment, t: System, run: RunRef, now: int)
    requires ValidEnvironment(env) && run.automationId in t.table
    ensures Apply(env, t, Event(RecoverInterrupted(run), now)).table ==
      t.table[run.automationId := Commit(t.table[run.automationId], RecoverRun(env, t.table[run.automationId], run.i, now))]
  {
    hide RecoverRun;
  }

  lemma RecoveredIsClosed(env: Environment, a: Automation, clock: int, now: int)
    requires Healthy(a, clock) && a.runs != [] && IsUnderWay(LastRun(a)) && RecoverRun(env, a, |a.runs| - 1, now).Ok?
    ensures !HasOpenRun(RecoverRun(env, a, |a.runs| - 1, now).value)
  {
    hide NextAfterRun, CompletionReasonOf;
    var b := RecoverRun(env, a, |a.runs| - 1, now).value;
    ReplaceLastKeeps(a, b, b.runs[|a.runs| - 1]);
    OpenRunIsLast(b);
  }

  /** A run that its executor abandons stays under way, and nobody holds it. */
  lemma AbandonedRunIsUnheld(env: Environment, s: System, run: RunRef, now: int)
    requires ValidEnvironment(env) && Inv(s) && run in s.executing
    ensures var t := Apply(env, s, Event(AbandonRun(run), now));
      t.table == s.table && run !in t.executing && IsUnderWay(t.table[run.automationId].runs[run.i])
  {
    assert Held(s, run);
  }

  lemma DeletedKeepsConversation(a: Automation)
    ensures ConversationDeleted(a).conversationId == a.conversationId
  {
    hide StopRuns;
  }

  lemma RetiredHasNoWake(a: Automation, now: int)
    requires Healthy(a, now) && Retired(a)
    ensures a.nextWakeAt.None?
  {
  }

  // ---------------------------------------------------------------- one automation's share of an event

  /** The transaction an event performs on automation id, if it touches it. */
  function ShareOf(s: System, e: Event, id: AutomationId): Option<RowEvent>
    requires id in s.table
  {
    match e.action
    case DeleteConversation(c) => if s.table[id].conversationId == c then Some(DoDeleteConversation) else None
    case Request(i, request) => if i == id && s.table[id].conversationId in s.live then Some(request) else None
    case CompleteAutomation(i, reason) => if i == id then Some(DoComplete(reason)) else None
    case ExpireNext(i) => if i == id && i in s.over then Some(DoComplete(Expired)) else None
    case ClaimNext(i) => if i == id && i in s.due then Some(DoClaim(s.due[i])) else None
    case StartRun(run, traceId) => if run.automationId == id then Some(DoPrepare(run.i, traceId)) else None
    case EndRun(run, outcome) => if run.automationId == id then Some(DoFinish(run.i, outcome)) else None
    case RequeueRun(run) => if run.automationId == id then Some(DoRequeue(run.i)) else None
    case RecoverInterrupted(run) => if run.automationId == id then Some(DoRecover(run.i)) else None
    case _ => None
  }

  /** What each event does to the rest of the system: the conversations, the lists of the tick, the executors, and who is there. */
  lemma EventOnTheRest(env: Environment, s: System, e: Event)
    requires ValidEnvironment(env) && Enabled(s, e)
    ensures var t := Apply(env, s, e);
      && t.clock == e.now
      && t.live == (
           match e.action
           case OpenConversation(c) => s.live + {c}
           case DeleteConversation(c) => s.live - {c}
           case _ => s.live)
      && t.over == (
           match e.action
           case FindOver(ids) => ids
           case ExpireNext(id) => s.over - {id}
           case DropLists => {}
           case Crash => {}
           case _ => s.over)
      && t.due.Keys == (
           match e.action
           case FindDue(ids) => ids
           case ClaimNext(id) => s.due.Keys - {id}
           case DropLists => {}
           case Crash => {}
           case _ => s.due.Keys)
      && (forall id <- t.due :: if e.action.FindDue? then id in s.table && Some(t.due[id]) == s.table[id].nextWakeAt
                                else id in s.due && t.due[id] == s.due[id])
      && t.executing == (
           match e.action
           case StartRun(run, _) =>
             if run.automationId in s.table && PrepareStarts(s.table[run.automationId], run.i, e.now) then s.executing + {run}
             else s.executing
           case EndRun(run, _) => s.executing - {run}
           case RequeueRun(run) => s.executing - {run}
           case AbandonRun(run) => s.executing - {run}
           case Crash => {}
           case _ => s.executing)
      && t.table.Keys == (
           match e.action
           case CreateAutomation(id, c, input) => if c in s.live && Create(env, c, input, e.now).Ok? then s.table.Keys + {id} else s.table.Keys
           case _ => s.table.Keys)
      && (e.action.CreateAutomation? && e.action.id in t.table ==>
            Create(env, e.action.conversationId, e.action.create, e.now) == Ok(t.table[e.action.id]))
  {
    hide Step, Create, ConversationDeleted, PrepareStarts, HasOpenRun;
  }

  lemma EventOnOneAutomation(env: Environment, s: System, e: Event, id: AutomationId)
    requires ValidEnvironment(env) && Inv(s) && Enabled(s, e) && id in s.table
    ensures id in Apply(env, s, e).table
    ensures ShareOf(s, e, id).None? ==> Apply(env, s, e).table[id] == s.table[id]
    ensures ShareOf(s, e, id).Some? ==>
      Permitted(s.table[id], ShareOf(s, e, id).value, e.now)
      && Apply(env, s, e).table[id] == Step(env, s.table[id], ShareOf(s, e, id).value, e.now)
  {
    hide Healthy, HasOpenRun, Create, ConversationDeleted, Retired, PrepareStarts, Update, Pause, Resume, Cancel, Complete,
      Claim, PrepareRun, FinishRun, MarkRunPending, RecoverRun;
    match e.action
    case ClaimNext(i) => assert DueIsClaimable(s, i);
    case EndRun(run, _) => assert Held(s, run);
    case RequeueRun(run) => assert Held(s, run);
    case _ =>
  }

  /** The rest of a run, seen from automation id: its policy limit is not changed by any event. */
  predicate LimitIsFixed(env: Environment, s: System, events: seq<Event>, id: AutomationId)
    requires ValidEnvironment(env) && id in s.table
    decreases |events|
  {
    events != [] ==>
      var t := Apply(env, s, events[0]);
      id in t.table && t.table[id].stopPolicy.maxRuns == s.table[id].stopPolicy.maxRuns && LimitIsFixed(env, t, events[1..], id)
  }

  /**
   Run budget: while the limit is not changed, the counted runs plus the one under way never exceed maxRuns, through
   blocked last runs, resumption, requeueing and recovery after a restart.
   */
  lemma {:induction false} BudgetIsKept(env: Environment, s: System, events: seq<Event>, id: AutomationId)
    requires ValidEnvironment(env) && Inv(s) && Feasible(env, s, events)
    requires id in s.table && WithinBudget(s.table[id]) && LimitIsFixed(env, s, events, id)
    ensures id in After(env, s, events).table && WithinBudget(After(env, s, events).table[id])
    decreases |events|
  {
    hide Inv, Enabled, Apply, WithinBudget, Step, ShareOf, Permitted;
    if events != [] {
      var e := events[0];
      EventKeepsInv(env, s, e);
      EventOnOneAutomation(env, s, e, id);
      var share := ShareOf(s, e, id);
      if share.Some? {
        EnabledIsLater(s, e);
        HealthyAt(s, id, e.now);
        StepKeepsBudget(env, s.table[id], share.value, e.now);
      }
      BudgetIsKept(env, Apply(env, s, e), events[1..], id);
    }
  }

  lemma HealthyAt(s: System, id: AutomationId, now: int)
    requires Inv(s) && id in s.table && s.clock <= now
    ensures Healthy(s.table[id], now)
  {
    LaterClock(s.table[id], s.clock, now);
  }

  lemma EnabledIsLater(s: System, e: Event)
    requires Enabled(s, e)
    ensures s.clock <= e.now
  {
  }

  lemma CreatedWithinBudget(env: Environment, c: ConversationId, input: CreateInput, now: int)
    requires ValidEnvironment(env) && Create(env, c, input, now).Ok?
    ensures WithinBudget(Create(env, c, input, now).value)
  {
    hide NormalizeTrigger;
  }

  /** From its creation on, an automation whose request named an integer limit never counts more runs, as long as no event changes the limit. */
  lemma CreatedBudgetIsKept(env: Environment, before: seq<Event>, id: AutomationId, c: ConversationId, input: CreateInput, now: int,
                            after: seq<Event>)
    requires ValidEnvironment(env) && Feasible(env, Start(), before)
    requires var s := After(env, Start(), before);
      Enabled(s, Event(CreateAutomation(id, c, input), now)) && c in s.live && Create(env, c, input, now).Ok?
    requires var t := Apply(env, After(env, Start(), before), Event(CreateAutomation(id, c, input), now));
      id in t.table && Feasible(env, t, after) && LimitIsFixed(env, t, after, id)
    requires LimitOf(input.stopPolicy).Some?
    ensures var t := Apply(env, After(env, Start(), before), Event(CreateAutomation(id, c, input), now));
      var u := After(env, t, after);
      id in u.table && u.table[id].runCount + UnderWayCount(u.table[id]) <= LimitOf(input.stopPolicy).value
  {
    hide Feasible, LimitIsFixed, Create, NormalizeStopPolicy, NormalizeTrigger;
    var s := After(env, Start(), before);
    var e := Event(CreateAutomation(id, c, input), now);
    var t := Apply(env, s, e);
    assert Inv(Start());
    RunsKeepInv(env, Start(), before);
    EventKeepsInv(env, s, e);
    CreatedWithinBudget(env, c, input, now);
    CreatedLimit(env, c, input, now);
    BudgetIsKept(env, t, after, id);
    LimitStaysFixed(env, t, after, id);
  }

  lemma CreatedLimit(env: Environment, c: ConversationId, input: CreateInput, now: int)
    requires ValidEnvironment(env) && Create(env, c, input, now).Ok?
    ensures Create(env, c, input, now).value.stopPolicy.maxRuns == LimitOf(input.stopPolicy)
  {
    hide NormalizeTrigger;
  }

  lemma {:induction false} LimitStaysFixed(env: Environment, s: System, events: seq<Event>, id: AutomationId)
    requires ValidEnvironment(env) && id in s.table && LimitIsFixed(env, s, events, id)
    ensures id in After(env, s, events).table && After(env, s, events).table[id].stopPolicy.maxRuns == s.table[id].stopPolicy.maxRuns
    decreases |events|
  {
    hide Apply;
    if events != [] {
      LimitStaysFixed(env, Apply(env, s, events[0]), events[1..], id);
    }
  }

  /** Over whole runs every run of an automation is counted at most once, and the count only grows. */
  lemma {:induction false} RunsCountOnce(env: Environment, s: System, events: seq<Event>, id: AutomationId)
    requires ValidEnvironment(env) && Inv(s) && Feasible(env, s, events)
    requires id in s.table && CountsEndedRuns(s.table[id])
    ensures id in After(env, s, events).table && CountsEndedRuns(After(env, s, events).table[id])
    ensures s.table[id].runCount <= After(env, s, events).table[id].runCount
    decreases |events|
  {
    hide Inv, Enabled, Apply, Step, CountsEndedRuns, ShareOf, Healthy, Permitted;
    if events != [] {
      var e := events[0];
      EventKeepsInv(env, s, e);
      EventOnOneAutomation(env, s, e, id);
      if ShareOf(s, e, id).Some? {
        EnabledIsLater(s, e);
        HealthyAt(s, id, e.now);
        StepCountsOnce(env, s.table[id], ShareOf(s, e, id).value, e.now);
      }
      RunsCountOnce(env, Apply(env, s, e), events[1..], id);
    }
  }

  /** The rest of a run sets no new anchor for automation id. */
  predicate AnchorIsKept(env: Environment, s: System, events: seq<Event>, id: AutomationId, k: nat)
    requires ValidEnvironment(env) && id in s.table
    decreases |events|
  {
    events != [] ==>
      var t := Apply(env, s, events[0]);
      var share := ShareOf(s, events[0], id);
      id in t.table && (share.Some? ==> KeepsAnchor(s.table[id], share.value, k)) && AnchorIsKept(env, t, events[1..], id, k)
  }

  /** Drift-free: between re-anchoring steps every claimed and every waiting time lies on the one grid through the anchor. */
  lemma {:induction false} ScheduleDoesNotDrift(env: Environment, s: System, events: seq<Event>, id: AutomationId, k: nat, anchor: int)
    requires ValidEnvironment(env) && Inv(s) && Feasible(env, s, events)
    requires id in s.table && OnSchedule(s.table[id], k, anchor) && AnchorIsKept(env, s, events, id, k)
    ensures id in After(env, s, events).table && OnSchedule(After(env, s, events).table[id], k, anchor)
    decreases |events|
  {
    hide Inv, Enabled, Apply, OnSchedule, Step, ShareOf, Permitted, KeepsAnchor;
    if events != [] {
      var e := events[0];
      EventKeepsInv(env, s, e);
      EventOnOneAutomation(env, s, e, id);
      var share := ShareOf(s, e, id);
      if share.Some? {
        EnabledIsLater(s, e);
        HealthyAt(s, id, e.now);
        StepStaysOnSchedule(env, s.table[id], share.value, e.now, k, anchor);
      }
      ScheduleDoesNotDrift(env, Apply(env, s, e), events[1..], id, k, anchor);
    }
  }

  /** From any reachable state: the time for which an automation waits starts a grid, on which all times stay until the next anchor. */
  lemma WaitingGridIsKept(env: Environment, before: seq<Event>, after: seq<Event>, id: AutomationId, anchor: int)
    requires ValidEnvironment(env) && Feasible(env, Start(), before)
    requires var s := After(env, Start(), before);
      && Feasible(env, s, after) && id in s.table && s.table[id].nextWakeAt == Some(anchor)
      && HasLength(s.table[id].trigger) && !UsesWallClock(s.table[id].trigger)
      && AnchorIsKept(env, s, after, id, |s.table[id].runs|)
    ensures var s := After(env, Start(), before);
      id in After(env, s, after).table && OnSchedule(After(env, s, after).table[id], |s.table[id].runs|, anchor)
  {
    hide After, Feasible, OnSchedule, AnchorIsKept;
    var s := After(env, Start(), before);
    assert Inv(Start());
    RunsKeepInv(env, Start(), before);
    AnchorsStartAGrid(s.table[id], anchor);
    ScheduleDoesNotDrift(env, s, after, id, |s.table[id].runs|, anchor);
  }

  /** Completed and cancelled automations stay so, and the scheduled times of runs are never rewritten, only appended to. */
  predicate Extends(a: Automation, b: Automation) {
    && (IsTerminal(a) ==> b.status == a.status)
    && |a.runs| <= |b.runs|
    && forall i :: 0 <= i < |a.runs| ==> b.runs[i].scheduledFor == a.runs[i].scheduledFor
  }

  lemma StepExtends(env: Environment, a: Automation, e: RowEvent, now: int)
    requires ValidEnvironment(env)
    ensures Extends(a, Step(env, a, e, now))
  {
    hide NextAfterRun, NextOnResume, CompletionReasonOf, NormalizeTrigger, NormalizeStopPolicy, StopRuns;
    TerminalIsAbsorbingIfTerminal(env, a, e, now);
    var b := Step(env, a, e, now);
    if b.runs == StopRuns(a.runs) {
      StoppedKeepsTimes(a, b);
    }
  }

  lemma TerminalIsAbsorbingIfTerminal(env: Environment, a: Automation, e: RowEvent, now: int)
    requires ValidEnvironment(env)
    ensures IsTerminal(a) ==> Step(env, a, e, now).status == a.status
  {
    if IsTerminal(a) {
      TerminalIsAbsorbing(env, a, e, now);
    }
  }

  lemma {:induction false} HistoryIsKept(env: Environment, s: System, events: seq<Event>, id: AutomationId)
    requires ValidEnvironment(env) && Inv(s) && Feasible(env, s, events) && id in s.table
    ensures id in After(env, s, events).table && Extends(s.table[id], After(env, s, events).table[id])
    decreases |events|
  {
    hide Inv, Enabled, Apply, Step, ShareOf, Permitted;
    if events != [] {
      var e := events[0];
      EventKeepsInv(env, s, e);
      EventOnOneAutomation(env, s, e, id);
      var share := ShareOf(s, e, id);
      if share.Some? {
        StepExtends(env, s.table[id], share.value, e.now);
      }
      HistoryIsKept(env, Apply(env, s, e), events[1..], id);
    }
  }

  /** A claim made later in a run is for a strictly later time than every run the automation already had. */
  lemma LaterClaimsAreLater(env: Environment, s: System, events: seq<Event>, id: AutomationId, i: nat, j: nat)
    requires ValidEnvironment(env) && Inv(s) && Feasible(env, s, events) && id in s.table
    requires i < |s.table[id].runs| <= j
    requires id in After(env, s, events).table && j < |After(env, s, events).table[id].runs|
    ensures s.table[id].runs[i].scheduledFor < After(env, s, events).table[id].runs[j].scheduledFor
  {
    HistoryIsKept(env, s, events, id);
    RunsKeepInv(env, s, events);
    HealthyAt(After(env, s, events), id, After(env, s, events).clock);
  }

  // ---------------------------------------------------------------- completing what was found to be over

  /** The end that an event gives automation id: only an accepted update gives one. */
  function EndSetBy(env: Environment, s: System, e: Event, id: AutomationId): Option<Option<int>>
    requires ValidEnvironment(env) && id in s.table
  {
    match e.action
    case Request(i, DoUpdate(input)) =>
      if i == id && s.table[id].conversationId in s.live && Update(env, s.table[id], input, e.now).Ok? then
        Some(Update(env, s.table[id], input, e.now).value.expiresAt)
      else None
    case _ => None
  }

  /** The end that the last update during a run gave automation id, if there was one. */
  function LastEndSet(env: Environment, s: System, events: seq<Event>, id: AutomationId): Option<Option<int>>
    requires ValidEnvironment(env) && id in s.table
    decreases |events|
  {
    if events == [] then None
    else
      var t := Apply(env, s, events[0]);
      var later := if id in t.table then LastEndSet(env, t, events[1..], id) else None;
      if later.Some? then later else EndSetBy(env, s, events[0], id)
  }

  lemma StepKeepsEnd(env: Environment, a: Automation, e: RowEvent, now: int)
    requires ValidEnvironment(env)
    ensures Step(env, a, e, now).expiresAt ==
      if e.DoUpdate? && Update(env, a, e.input, now).Ok? then Update(env, a, e.input, now).value.expiresAt else a.expiresAt
  {
    hide NextAfterRun, NextOnResume, CompletionReasonOf, Update, StopRuns;
  }

  lemma {:induction false} OnlyUpdatesMoveTheEnd(env: Environment, s: System, events: seq<Event>, id: AutomationId)
    requires ValidEnvironment(env) && Inv(s) && Feasible(env, s, events) && id in s.table
    ensures var last := LastEndSet(env, s, events, id);
      id in After(env, s, events).table
      && After(env, s, events).table[id].expiresAt == (if last.Some? then last.value else s.table[id].expiresAt)
    decreases |events|
  {
    hide Inv, Enabled, Step, Update, Permitted;
    if events != [] {
      var e := events[0];
      EventKeepsInv(env, s, e);
      EventOnOneAutomation(env, s, e, id);
      if ShareOf(s, e, id).Some? {
        StepKeepsEnd(env, s.table[id], ShareOf(s, e, id).value, e.now);
      }
      ShareOfUpdate(s, e, id);
      OnlyUpdatesMoveTheEnd(env, Apply(env, s, e), events[1..], id);
    }
  }

  lemma ShareOfUpdate(s: System, e: Event, id: AutomationId)
    requires id in s.table && Enabled(s, e)
    ensures ShareOf(s, e, id).Some? && ShareOf(s, e, id).value.DoUpdate? <==>
      (e.action.Request? && e.action.id == id && e.action.request.DoUpdate? && s.table[id].conversationId in s.live)
  {
  }

  /**
   expireDue looks at the end once, in its query. Whatever happens before it gets to a row, it completes the row as EXPIRED, paused
   or not; and that is the case if and only if no update gave the automation another end meanwhile, or the last one that did gave
   one that is over too.
   */
  lemma ExpiredIsTrueIff(env: Environment, s: System, ids: set<AutomationId>, found: int, events: seq<Event>, id: AutomationId, now: int)
    requires ValidEnvironment(env) && Inv(s) && id in ids && Enabled(s, Event(FindOver(ids), found))
    requires var t := Apply(env, s, Event(FindOver(ids), found)); Feasible(env, t, events)
    requires var u := After(env, Apply(env, s, Event(FindOver(ids), found)), events);
      u.clock <= now && found <= now && id in u.over && id in u.table && !IsTerminal(u.table[id])
    ensures var t := Apply(env, s, Event(FindOver(ids), found));
      var b := Apply(env, After(env, t, events), Event(ExpireNext(id), now)).table[id];
      && b.status == Completed && b.completionReason == Some(Expired)
      && (b.expiresAt.Some? && b.expiresAt.value <= now <==>
          var last := LastEndSet(env, t, events, id);
          last.Some? ==> last.value.Some? && last.value.value <= now)
  {
    hide Feasible, LastEndSet, After, Healthy;
    var t := Apply(env, s, Event(FindOver(ids), found));
    EventKeepsInv(env, s, Event(FindOver(ids), found));
    OnlyUpdatesMoveTheEnd(env, t, events, id);
  }

  /** Such an update: the end is moved a second past now, and the automation is completed as expired all the same. */
  lemma ExpiredTooEarly(env: Environment, s: System, id: AutomationId, now: int)
    requires ValidEnvironment(env) && Inv(s) && s.clock <= now && s.over == {}
    requires id in s.table && IsOver(s.table[id], now) && s.table[id].conversationId in s.live
    requires s.table[id].delivery == Always && (s.table[id].nextWakeAt.Some? ==> s.table[id].nextWakeAt.value <= now)
    ensures var extend := ByOneSecond(now);
      var t := Apply(env, s, Event(FindOver({id}), now));
      var u := Apply(env, t, Event(Request(id, extend), now));
      var v := Apply(env, u, Event(ExpireNext(id), now));
      && Enabled(s, Event(FindOver({id}), now)) && Enabled(t, Event(Request(id, extend), now)) && Enabled(u, Event(ExpireNext(id), now))
      && v.table[id].status == Completed && v.table[id].completionReason == Some(Expired) && v.table[id].expiresAt == Some(now + 1_000)
      && v.clock == now
  {
  }

  const MINUTE := 60_000

  /** Every minute until a millisecond after the first; found to be over at that moment, extended by a second, and completed. */
  function ExpiringRun(): seq<Event> {
    var bounded := StopInput(false, None, false, At(MINUTE + 1));
    [Event(OpenConversation("c"), 0)]
    + ([Event(CreateAutomation("a", "c", CreateInput(EveryMinute(Absent), bounded, "")), 0)]
    + ([Event(FindOver({"a"}), MINUTE + 1)] + ([Event(Request("a", ByOneSecond(MINUTE + 1)), MINUTE + 1)]
    + ([Event(ExpireNext("a"), MINUTE + 1)] + []))))
  }

  function ByOneSecond(now: int): RowEvent {
    DoUpdate(UpdateInput(None, Some(StopInput(false, None, false, At(now + 1_000))), None))
  }

  lemma FeasibleOn(env: Environment, s: System, e: Event, rest: seq<Event>)
    requires ValidEnvironment(env) && Enabled(s, e) && Feasible(env, Apply(env, s, e), rest)
    ensures Feasible(env, s, [e] + rest) && After(env, s, [e] + rest) == After(env, Apply(env, s, e), rest)
  {
    hide Enabled, Apply;
    assert ([e] + rest)[1..] == rest;
  }

  function Expiring(): Automation {
    Automation("c", Active, Interval(None, 1, Minute, None), StopPolicy(Some(MINUTE + 1), None, false, false), Always, Some(MINUTE),
               Some(MINUTE + 1), 0, None, [])
  }

  lemma ExpiringIsCreated(env: Environment)
    requires ValidEnvironment(env)
    ensures Create(env, "c", CreateInput(EveryMinute(Absent), StopInput(false, None, false, At(MINUTE + 1)), ""), 0) == Ok(Expiring())
  {
    assert NormalizeTrigger(EveryMinute(Absent), 0) == Ok((Interval(None, 1, Minute, None), Some(MINUTE)));
  }

  lemma ExpiringIsHealthy()
    ensures Inv(System(map["a" := Expiring()], {"c"}, {}, map[], {}, 0))
  {
  }

  lemma ExpiringOpens(env: Environment)
    requires ValidEnvironment(env)
    ensures var live := Apply(env, Start(), ExpiringRun()[0]);
      var created := Apply(env, live, ExpiringRun()[1]);
      && Enabled(Start(), ExpiringRun()[0]) && Enabled(live, ExpiringRun()[1])
      && created == System(map["a" := Expiring()], {"c"}, {}, map[], {}, 0)
  {
    ExpiringIsCreated(env);
    hide Create;
  }

  /** From the empty database: five events, after which the automation is completed as expired a second before its end. */
  lemma ExpiredTooEarlyIsReached(env: Environment)
    requires ValidEnvironment(env)
    ensures Feasible(env, Start(), ExpiringRun())
    ensures var s := After(env, Start(), ExpiringRun());
      && "a" in s.table && s.table["a"].status == Completed && s.table["a"].completionReason == Some(Expired)
      && s.table["a"].expiresAt == Some(s.clock + 1_000)
  {
    var s := System(map["a" := Expiring()], {"c"}, {}, map[], {}, 0);
    var find, extend, expire := ExpiringRun()[2], ExpiringRun()[3], ExpiringRun()[4];
    ExpiringOpens(env);
    assert Inv(s) by { ExpiringIsHealthy(); }
    ExpiredTooEarly(env, s, "a", MINUTE + 1);
    var live := Apply(env, Start(), ExpiringRun()[0]);
    var found := Apply(env, s, find);
    var extended := Apply(env, found, extend);
    hide Apply, Enabled, Inv;
    FeasibleOn(env, extended, expire, []);
    FeasibleOn(env, found, extend, [expire] + []);
    FeasibleOn(env, s, find, [extend] + ([expire] + []));
    FeasibleOn(env, live, ExpiringRun()[1], [find] + ([extend] + ([expire] + [])));
    FeasibleOn(env, Start(), ExpiringRun()[0], [ExpiringRun()[1]] + ([find] + ([extend] + ([expire] + []))));
  }

  // ---------------------------------------------------------------- a run that orphans its automation

  const ORPHAN := "a"

  function EveryMinute(runAt: WhenInput): TriggerInput {
    TriggerInput("interval", runAt, Some(1), "minute", None)
  }

  /** Created at 0, claimed at 60000, told at 60000 to run at 60000, run, claimed again. */
  function OrphaningRun(): seq<Event> {
    [Event(OpenConversation("c"), 0),
     Event(CreateAutomation(ORPHAN, "c", CreateInput(EveryMinute(Absent), StopInput(true, None, false, Absent), "")), 0),
     Event(FindDue({ORPHAN}), MINUTE),
     Event(ClaimNext(ORPHAN), MINUTE),
     Event(StartRun(RunRef(ORPHAN, 0), "t"), MINUTE),
     Event(Request(ORPHAN, DoUpdate(UpdateInput(Some(EveryMinute(At(MINUTE))), None, None))), MINUTE),
     Event(EndRun(RunRef(ORPHAN, 0), OutcomeSucceeded), MINUTE),
     Event(FindDue({ORPHAN}), MINUTE),
     Event(ClaimNext(ORPHAN), MINUTE)]
  }

  predicate OrphanIs(s: System, wake: Option<int>, runCount: nat, runs: seq<Run>) {
    && ORPHAN in s.table && "c" in s.live && s.table[ORPHAN].conversationId == "c"
    && var a := s.table[ORPHAN];
       && a.status == Active && a.nextWakeAt == wake && a.runCount == runCount && a.runs == runs && a.delivery == Always
       && a.trigger.Interval? && a.trigger.every == 1 && a.trigger.unit == Minute && a.trigger.timeZone.None?
       && a.stopPolicy == StopPolicy(None, None, false, true) && a.expiresAt.None?
  }

  /** The state after the first n events of that run. */
  function OrphaningState(env: Environment, n: nat): System
    requires ValidEnvironment(env) && n <= |OrphaningRun()|
  {
    if n == 0 then Start() else Apply(env, OrphaningState(env, n - 1), OrphaningRun()[n - 1])
  }

  lemma OrphaningCreate(env: Environment)
    requires ValidEnvironment(env)
    ensures OrphanIs(OrphaningState(env, 2), Some(MINUTE), 0, [])
    ensures OrphaningState(env, 2).due == map[] && OrphaningState(env, 2).clock == 0
    ensures forall i :: 0 <= i < 2 ==> Enabled(OrphaningState(env, i), OrphaningRun()[i])
  {
    var s := OrphaningState(env, 1);
    assert s == Apply(env, OrphaningState(env, 0), OrphaningRun()[0]);
    assert "c" in s.live && s.table == map[];
    assert OrphaningState(env, 2) == Apply(env, s, OrphaningRun()[1]);
  }

  lemma OrphaningClaim(env: Environment, s: System, runCount: nat, runs: seq<Run>)
    requires ValidEnvironment(env) && OrphanIs(s, Some(MINUTE), runCount, runs) && s.due == map[]
    requires forall i :: 0 <= i < |runs| ==> !IsOpen(runs[i])
    requires s.clock <= MINUTE
    ensures var find := Event(FindDue({ORPHAN}), MINUTE);
      var t := Apply(env, s, find);
      var claim := Event(ClaimNext(ORPHAN), MINUTE);
      var u := Apply(env, t, claim);
      && Enabled(s, find) && Enabled(t, claim) && u.due == map[] && u.clock == MINUTE
      && OrphanIs(u, None, runCount, if HasRunAt(s.table[ORPHAN], MINUTE) then runs else runs + [Run(MINUTE, Pending, None)])
  {
    var t := Apply(env, s, Event(FindDue({ORPHAN}), MINUTE));
    assert t.due == map[ORPHAN := MINUTE];
    assert t.table == s.table;
  }

  lemma OrphaningStart(env: Environment, s: System)
    requires ValidEnvironment(env) && OrphanIs(s, None, 0, [Run(MINUTE, Pending, None)]) && s.due == map[] && s.clock == MINUTE
    ensures var e := Event(StartRun(RunRef(ORPHAN, 0), "t"), MINUTE);
      var t := Apply(env, s, e);
      Enabled(s, e) && OrphanIs(t, None, 0, [Run(MINUTE, Running, Some("t"))]) && t.due == map[] && t.clock == MINUTE
      && RunRef(ORPHAN, 0) in t.executing
  {
  }

  lemma OrphaningUpdate(env: Environment, s: System)
    requires ValidEnvironment(env) && OrphanIs(s, None, 0, [Run(MINUTE, Running, Some("t"))])
    ensures var t := Apply(env, s, OrphaningRun()[5]);
      OrphanIs(t, Some(MINUTE), 0, [Run(MINUTE, Running, Some("t"))]) && t.due == s.due && t.clock == MINUTE
      && t.executing == s.executing
  {
    assert NormalizeTrigger(EveryMinute(At(MINUTE)), MINUTE) == Ok((Interval(Some(MINUTE), 1, Minute, None), Some(MINUTE)));
  }

  lemma OrphaningEnd(env: Environment, s: System)
    requires ValidEnvironment(env) && OrphanIs(s, Some(MINUTE), 0, [Run(MINUTE, Running, Some("t"))])
    ensures var t := Apply(env, s, OrphaningRun()[6]);
      OrphanIs(t, Some(MINUTE), 1, [Run(MINUTE, Succeeded, Some("t"))]) && t.due == s.due && t.clock == MINUTE
  {
  }

  /**
   Without the condition on colliding updates the run is possible, each other event being enabled, and it ends in an active
   automation that never wakes again.
   */
  lemma CollisionReachesAnOrphan(env: Environment)
    requires ValidEnvironment(env)
    ensures forall i :: 0 <= i < 9 && i != 5 ==> Enabled(OrphaningState(env, i), OrphaningRun()[i])
    ensures var s := OrphaningState(env, 9);
      ORPHAN in s.table && s.table[ORPHAN].status == Active
      && s.table[ORPHAN].nextWakeAt.None? && !HasOpenRun(s.table[ORPHAN])
  {
    hide Apply, Enabled;
    var s2, s3, s4, s5 := OrphaningState(env, 2), OrphaningState(env, 3), OrphaningState(env, 4), OrphaningState(env, 5);
    var s6, s7, s8, s9 := OrphaningState(env, 6), OrphaningState(env, 7), OrphaningState(env, 8), OrphaningState(env, 9);
    OrphaningCreate(env);
    OrphaningClaim(env, s2, 0, []);
    OrphaningStart(env, s4);
    OrphaningUpdate(env, s5);
    EndIsEnabled(s6);
    OrphaningEnd(env, s6);
    OrphaningClaim(env, s7, 1, [Run(MINUTE, Succeeded, Some("t"))]);
    assert s7.table[ORPHAN].runs[0].scheduledFor == MINUTE;
    assert HasRunAt(s7.table[ORPHAN], MINUTE);
    assert s9 == Apply(env, s8, OrphaningRun()[8]) && s8 == Apply(env, s7, OrphaningRun()[7]);
  }

  lemma EndIsEnabled(s: System)
    requires s.clock == MINUTE && RunRef(ORPHAN, 0) in s.executing
    ensures Enabled(s, OrphaningRun()[6])
  {
  }
}
