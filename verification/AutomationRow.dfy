/**
 One automation with its runs, and every transaction that can change it.
 The runs of an automation are kept in the order they were inserted; a run is named by its position.
 */
module AutomationRow {
  import opened Wrappers
  import opened AutomationLifecycle

  datatype AutomationStatus = Active | Paused | Completed | Cancelled

  datatype RunStatus = Pending | Running | Cancelling | Succeeded | Failed | Blocked | RunCancelled

  type TraceId = string
  type ConversationId = string

  datatype Run = Run(scheduledFor: int, status: RunStatus, traceId: Option<TraceId>)

  datatype Outcome = OutcomeSucceeded | OutcomeFailed | OutcomeBlocked | OutcomeCancelled

  datatype Automation = Automation(
    conversationId: ConversationId,
    status: AutomationStatus,
    trigger: Trigger,
    stopPolicy: StopPolicy,
    delivery: DeliveryMode,
    nextWakeAt: Option<int>,
    expiresAt: Option<int>,
    runCount: nat,
    completionReason: Option<CompletionReason>,
    runs: seq<Run>)

  datatype ServiceError =
    | LifecycleFailure(cause: LifecycleError) | DeliveryPolicyInvalid | DeliveryRequiresCondition
    | FirstRunAfterExpiry | NextRunAfterExpiry | ConversationNotFound | AutomationNotFound
    | AutomationTerminal | AutomationNotActive | AutomationNotPaused | RunStillStopping
    | AlreadyCompleted | AlreadyCancelled

  datatype CreateInput = CreateInput(trigger: TriggerInput, stopPolicy: StopInput, delivery: string)

  datatype UpdateInput = UpdateInput(trigger: Option<TriggerInput>, stopPolicy: Option<StopInput>, delivery: Option<string>)

  /** What the process is configured with: time zones and the default lifetime in days. */
  datatype Environment = Environment(zones: Zones, lifetimeDays: nat)

  predicate ValidEnvironment(env: Environment) {
    env.lifetimeDays >= 1
  }

  // ---------------------------------------------------------------- queries

  predicate IsOpen(run: Run) {
    run.status.Pending? || run.status.Running? || run.status.Cancelling?
  }

  predicate IsUnderWay(run: Run) {
    run.status.Running? || run.status.Cancelling?
  }

  predicate HasOpenRun(a: Automation) {
    exists i :: 0 <= i < |a.runs| && IsOpen(a.runs[i])
  }

  /** runningTraceIds is not empty. */
  predicate HasTracedOpenRun(a: Automation) {
    exists i :: 0 <= i < |a.runs| && IsOpen(a.runs[i]) && a.runs[i].traceId.Some?
  }

  predicate HasRunAt(a: Automation, scheduledFor: int) {
    exists i :: 0 <= i < |a.runs| && a.runs[i].scheduledFor == scheduledFor
  }

  /** The query of claimDue. */
  predicate IsDue(a: Automation, now: int) {
    a.status == Active && a.nextWakeAt.Some? && a.nextWakeAt.value <= now && !HasOpenRun(a)
  }

  /** The query of expireDue. */
  predicate IsOver(a: Automation, now: int) {
    a.status == Active && ShouldStopBeforeRun(a.expiresAt, now)
  }

  predicate IsTerminal(a: Automation) {
    a.status == Completed || a.status == Cancelled
  }

  // ---------------------------------------------------------------- transactions

  /** updateMany over the runs: every run of status `before` becomes `after`. */
  function UpdateRuns(runs: seq<Run>, before: RunStatus, after: RunStatus): (r: seq<Run>)
    ensures |r| == |runs|
    ensures forall i :: 0 <= i < |runs| ==> r[i] == if runs[i].status == before then runs[i].(status := after) else runs[i]
  {
    seq(|runs|, i requires 0 <= i < |runs| => if runs[i].status == before then runs[i].(status := after) else runs[i])
  }

  /** pause, cancel and conversation deletion stop the runs the same way. */
  function StopRuns(runs: seq<Run>): seq<Run> {
    UpdateRuns(UpdateRuns(runs, Pending, RunCancelled), Running, Cancelling)
  }

  function NormalizeDelivery(mode: string): (r: Result<DeliveryMode, ServiceError>)
    ensures r == Ok(OnCompletion) <==> mode == "on_completion"
    ensures r == Ok(Always) <==> mode in {"", "always"}
    ensures r.Err? ==> r.error == DeliveryPolicyInvalid
  {
    if mode == "" || mode == "always" then Ok(Always)
    else if mode == "on_completion" then Ok(OnCompletion)
    else Err(DeliveryPolicyInvalid)
  }

  function Create(env: Environment, conversationId: ConversationId, input: CreateInput, now: int)
    : Result<Automation, ServiceError>
    requires ValidEnvironment(env)
  {
    match NormalizeTrigger(input.trigger, now)
    case Err(e) => Err(LifecycleFailure(e))
    case Ok((trigger, nextWakeAt)) =>
      match NormalizeStopPolicy(input.stopPolicy, now, trigger.Interval?, env.lifetimeDays)
      case Err(e) => Err(LifecycleFailure(e))
      case Ok(policy) =>
        match NormalizeDelivery(input.delivery)
        case Err(e) => Err(e)
        case Ok(delivery) =>
          if delivery == OnCompletion && !policy.hasCondition then Err(DeliveryRequiresCondition)
          else if policy.expiresAt.Some? && nextWakeAt.Some? && nextWakeAt.value >= policy.expiresAt.value then
            Err(FirstRunAfterExpiry)
          else if nextWakeAt.None? then Err(LifecycleFailure(WakeUpIsNoDate))
          else Ok(Automation(conversationId, Active, trigger, policy, delivery, nextWakeAt, policy.expiresAt, 0, None, []))
  }

  function NewTrigger(a: Automation, input: UpdateInput, now: int): Result<(Trigger, Option<int>), LifecycleError> {
    if input.trigger.None? then Ok((a.trigger, a.nextWakeAt)) else NormalizeTrigger(input.trigger.value, now)
  }

  function NewStopPolicy(env: Environment, a: Automation, input: UpdateInput, trigger: Trigger, now: int)
    : Result<(StopPolicy, Option<int>), LifecycleError>
    requires ValidEnvironment(env)
  {
    if input.stopPolicy.Some? || (input.trigger.Some? && trigger.Interval?) then
      match NormalizeStopPolicy(if input.stopPolicy.Some? then input.stopPolicy.value else AsStopInput(a.stopPolicy),
                                now, trigger.Interval?, env.lifetimeDays)
      case Err(e) => Err(e)
      case Ok(policy) => Ok((policy, policy.expiresAt))
    else Ok((a.stopPolicy, a.expiresAt))
  }

  function Update(env: Environment, a: Automation, input: UpdateInput, now: int): Result<Automation, ServiceError>
    requires ValidEnvironment(env)
  {
    if IsTerminal(a) then Err(AutomationTerminal) else
      match NewTrigger(a, input, now)
      case Err(e) => Err(LifecycleFailure(e))
      case Ok((trigger, wake)) =>
        match NewStopPolicy(env, a, input, trigger, now)
        case Err(e) => Err(LifecycleFailure(e))
        case Ok((policy, expiresAt)) =>
          match (if input.delivery.Some? then NormalizeDelivery(input.delivery.value) else Ok(a.delivery))
          case Err(e) => Err(e)
          case Ok(delivery) =>
            if delivery == OnCompletion && !policy.hasCondition then Err(DeliveryRequiresCondition)
            else if expiresAt.Some? && wake.Some? && wake.value >= expiresAt.value then Err(NextRunAfterExpiry)
            else if input.trigger.Some? && a.status == Active && wake.None? then Err(LifecycleFailure(WakeUpIsNoDate))
            else
              var stored := if input.trigger.None? then a.nextWakeAt else if a.status == Active then wake else None;
              Ok(a.(trigger := trigger, stopPolicy := policy, expiresAt := expiresAt, delivery := delivery, nextWakeAt := stored))
  }

  function Pause(a: Automation): Result<Automation, ServiceError> {
    if a.status == Paused then Ok(a)
    else if a.status != Active then Err(AutomationNotActive)
    else Ok(a.(runs := StopRuns(a.runs), status := Paused, nextWakeAt := None))
  }

  function Complete(a: Automation, reason: CompletionReason): Result<Automation, ServiceError> {
    if a.status == Completed then Ok(a)
    else if a.status == Cancelled then Err(AlreadyCancelled)
    else Ok(a.(status := Completed, nextWakeAt := None, completionReason := Some(reason)))
  }

  function Resume(env: Environment, a: Automation, now: int): Result<Automation, ServiceError> {
    if a.status == Active then Ok(a)
    else if a.status != Paused then Err(AutomationNotPaused)
    else if HasTracedOpenRun(a) then Err(RunStillStopping)
    else if ShouldStopBeforeRun(a.expiresAt, now) then Complete(a, Expired)
    else
      match NextOnResume(env.zones, a.trigger, now)
      case Err(e) => Err(LifecycleFailure(e))
      case Ok(wake) => Ok(a.(status := Active, nextWakeAt := Some(wake)))
  }

  function Cancel(a: Automation): Result<Automation, ServiceError> {
    if a.status == Cancelled then Ok(a)
    else if a.status == Completed then Err(AlreadyCompleted)
    else Ok(a.(runs := StopRuns(a.runs), status := Cancelled, nextWakeAt := None))
  }

  /** One automation's share of cancelByConversationInTransaction. */
  function ConversationDeleted(a: Automation): Automation {
    var stopped := a.(runs := StopRuns(a.runs));
    if IsTerminal(a) then stopped else stopped.(status := Cancelled, nextWakeAt := None)
  }

  /** The transaction of claimDue on a row its query found: a guarded update, then an upsert on (automation, scheduledFor). */
  function Claim(a: Automation, scheduledFor: int): Automation {
    if a.status != Active || a.nextWakeAt != Some(scheduledFor) then a
    else a.(nextWakeAt := None,
            runs := if HasRunAt(a, scheduledFor) then a.runs else a.runs + [Run(scheduledFor, Pending, None)])
  }

  function PrepareStarts(a: Automation, i: nat, now: int): bool {
    i < |a.runs| && a.runs[i].status.Pending? && a.status == Active
    && !ShouldStopBeforeRun(a.expiresAt, now) && !ReachedMaxRuns(a)
  }

  predicate ReachedMaxRuns(a: Automation) {
    a.stopPolicy.maxRuns.Some? && a.runCount >= a.stopPolicy.maxRuns.value
  }

  function PrepareRun(a: Automation, i: nat, traceId: TraceId, now: int): Automation {
    if i >= |a.runs| || !a.runs[i].status.Pending? || a.status != Active then a
    else if ShouldStopBeforeRun(a.expiresAt, now) || ReachedMaxRuns(a) then
      a.(status := Completed, nextWakeAt := None,
         completionReason := Some(if ReachedMaxRuns(a) then MaxRunsReached else Expired),
         runs := a.runs[i := a.runs[i].(status := RunCancelled)])
    else a.(runs := a.runs[i := a.runs[i].(status := Running, traceId := Some(traceId))])
  }

  function OutcomeStatus(o: Outcome): RunStatus {
    match o
    case OutcomeSucceeded => Succeeded
    case OutcomeFailed => Failed
    case OutcomeBlocked => Blocked
    case OutcomeCancelled => RunCancelled
  }

  /** The automation after a run ended on its own terms: completed, or waiting for the next wake-up. */
  function Settle(a: Automation, runCount: nat, runs: seq<Run>, reason: Option<CompletionReason>, wake: Option<int>): Automation {
    if reason.Some? then
      a.(status := Completed, nextWakeAt := None, runCount := runCount, runs := runs, completionReason := reason)
    else if wake.None? then
      a.(status := Completed, nextWakeAt := None, runCount := runCount, runs := runs, completionReason := Some(ScheduleCompleted))
    else
      a.(status := Active, nextWakeAt := wake, runCount := runCount, runs := runs)
  }

  function FinishRun(env: Environment, a: Automation, i: nat, outcome: Outcome, now: int): Result<Automation, LifecycleError> {
    if i >= |a.runs| then Ok(a) else
      var stopping := IsTerminal(a) || a.status == Paused;
      var status := if stopping && outcome != OutcomeSucceeded then RunCancelled else OutcomeStatus(outcome);
      var runs := a.runs[i := a.runs[i].(status := status)];
      var runCount := a.runCount + (if outcome == OutcomeCancelled then 0 else 1);
      if stopping then Ok(a.(runs := runs, runCount := runCount, nextWakeAt := None))
      else if outcome == OutcomeBlocked then Ok(a.(runs := runs, runCount := runCount, status := Paused, nextWakeAt := None))
      else
        var reason := CompletionReasonOf(a.trigger, a.stopPolicy, runCount, a.expiresAt, now);
        if reason.Some? then Ok(Settle(a, runCount, runs, reason, None))
        else if a.nextWakeAt.Some? then Ok(Settle(a, runCount, runs, None, a.nextWakeAt))
        else
          match NextAfterRun(env.zones, a.trigger, a.runs[i].scheduledFor, now)
          case Err(e) => Err(e)
          case Ok(wake) => Ok(Settle(a, runCount, runs, None, wake))
  }

  function MarkRunPending(a: Automation, i: nat): Automation {
    if i >= |a.runs| || !a.runs[i].status.Running? then a
    else a.(runs := a.runs[i := a.runs[i].(status := Pending, traceId := None)])
  }

  /** The transaction of recoverInterruptedRuns on one row. */
  function RecoverRun(env: Environment, a: Automation, i: nat, now: int): Result<Automation, LifecycleError> {
    if i >= |a.runs| || !IsUnderWay(a.runs[i]) then Ok(a) else
      var cancelled := a.status == Cancelled || a.status == Paused || a.runs[i].status.Cancelling?;
      var runs := a.runs[i := a.runs[i].(status := if cancelled then RunCancelled else Failed)];
      if a.status != Active then Ok(a.(runs := runs))
      else
        var runCount := a.runCount + 1;
        var reason := CompletionReasonOf(a.trigger, a.stopPolicy, runCount, a.expiresAt, now);
        if reason.Some? then Ok(Settle(a, runCount, runs, reason, None))
        else
          match NextAfterRun(env.zones, a.trigger, a.runs[i].scheduledFor, now)
          case Err(e) => Err(e)
          case Ok(wake) => Ok(Settle(a, runCount, runs, None, wake))
  }

  // ---------------------------------------------------------------- one step of one automation

  datatype RowEvent =
    | DoUpdate(input: UpdateInput)
    | DoPause
    | DoResume
    | DoCancel
    | DoComplete(reason: CompletionReason)
    | DoClaim(scheduledFor: int)
    | DoPrepare(i: nat, traceId: TraceId)
    | DoFinish(i: nat, outcome: Outcome)
    | DoRequeue(i: nat)
    | DoRecover(i: nat)
    | DoDeleteConversation

  function Commit<E>(a: Automation, r: Result<Automation, E>): Automation {
    if r.Ok? then r.value else a
  }

  /** A transaction that fails leaves the automation as it was. */
  function Step(env: Environment, a: Automation, e: RowEvent, now: int): Automation
    requires ValidEnvironment(env)
  {
    match e
    case DoUpdate(input) => Commit(a, Update(env, a, input, now))
    case DoPause => Commit(a, Pause(a))
    case DoResume => Commit(a, Resume(env, a, now))
    case DoCancel => Commit(a, Cancel(a))
    case DoComplete(reason) => Commit(a, Complete(a, reason))
    case DoClaim(scheduledFor) => Claim(a, scheduledFor)
    case DoPrepare(i, traceId) => PrepareRun(a, i, traceId, now)
    case DoFinish(i, outcome) => Commit(a, FinishRun(env, a, i, outcome, now))
    case DoRequeue(i) => MarkRunPending(a, i)
    case DoRecover(i) => Commit(a, RecoverRun(env, a, i, now))
    case DoDeleteConversation => ConversationDeleted(a)
  }

  // ---------------------------------------------------------------- the invariant

  function LastRun(a: Automation): Run
    requires a.runs != []
  {
    a.runs[|a.runs| - 1]
  }

  predicate OnlyLastRunOpen(a: Automation) {
    forall i :: 0 <= i < |a.runs| - 1 ==> !IsOpen(a.runs[i])
  }

  /** Of the open runs, exactly the pending ones carry no trace. */
  predicate TracesMatch(a: Automation) {
    forall i :: 0 <= i < |a.runs| && IsOpen(a.runs[i]) ==> (a.runs[i].status.Pending? <==> a.runs[i].traceId.None?)
  }

  predicate ScheduleIncreases(a: Automation) {
    forall i, j :: 0 <= i < j < |a.runs| ==> a.runs[i].scheduledFor < a.runs[j].scheduledFor
  }

  predicate ScheduleIsPast(a: Automation, clock: int) {
    && (a.runs != [] ==> LastRun(a).scheduledFor <= clock)
    && (a.runs != [] && a.nextWakeAt.Some? ==> LastRun(a).scheduledFor < a.nextWakeAt.value)
  }

  predicate StatusesAgree(a: Automation) {
    && (a.nextWakeAt.Some? ==> a.status == Active)
    && (a.runs != [] ==>
          && (LastRun(a).status.Cancelling? ==> a.status != Active)
          && (LastRun(a).status.Pending? || LastRun(a).status.Running? ==> a.status == Active || a.status == Completed))
  }

  /** An active automation has a wake-up ahead of it or a run that is still open. */
  predicate NotOrphaned(a: Automation) {
    a.status == Active ==> a.nextWakeAt.Some? || HasOpenRun(a)
  }

  predicate Healthy(a: Automation, clock: int) {
    OnlyLastRunOpen(a) && TracesMatch(a) && ScheduleIncreases(a) && ScheduleIsPast(a, clock)
    && StatusesAgree(a) && NotOrphaned(a)
  }

  lemma OpenRunIsLast(a: Automation)
    requires OnlyLastRunOpen(a)
    ensures HasOpenRun(a) <==> a.runs != [] && IsOpen(LastRun(a))
  {
  }

  lemma TracedOpenRunIsUnderWay(a: Automation)
    requires OnlyLastRunOpen(a) && TracesMatch(a)
    ensures HasTracedOpenRun(a) <==> a.runs != [] && IsUnderWay(LastRun(a))
  {
  }

  /** What the surrounding protocol guarantees when a step of this kind happens; the system module proves that it does. */
  predicate Permitted(a: Automation, e: RowEvent, now: int) {
    match e
    case DoClaim(scheduledFor) => !HasOpenRun(a) && scheduledFor <= now
    case DoFinish(i, _) => i + 1 == |a.runs| && IsUnderWay(a.runs[i])
    case DoRequeue(i) => i + 1 == |a.runs| && IsUnderWay(a.runs[i])
    case DoUpdate(input) => !Collides(a, input, now)
    case _ => true
  }

  /** The one bad update: a running automation is told to run at this very millisecond, for which it already has a run. */
  predicate Collides(a: Automation, input: UpdateInput, now: int) {
    && a.status == Active && a.runs != [] && LastRun(a).scheduledFor == now
    && input.trigger.Some? && input.trigger.value.kind == "interval" && input.trigger.value.runAt == At(now)
  }

  // ---------------------------------------------------------------- every step keeps the invariant

  lemma LaterClock(a: Automation, clock: int, now: int)
    requires Healthy(a, clock) && clock <= now
    ensures Healthy(a, now)
  {
  }

  lemma UpdateKeepsHealthy(env: Environment, a: Automation, input: UpdateInput, now: int)
    requires ValidEnvironment(env) && Healthy(a, now) && Update(env, a, input, now).Ok?
    ensures Healthy(Update(env, a, input, now).value, now) <==> !Collides(a, input, now)
  {
    var b := Update(env, a, input, now).value;
    assert b.runs == a.runs && b.status == a.status;
    assert HasOpenRun(b) == HasOpenRun(a);
    if input.trigger.Some? && a.status == Active {
      var (trigger, wake) := NormalizeTrigger(input.trigger.value, now).value;
      assert b.nextWakeAt == wake && wake.Some?;
      if a.runs != [] {
        assert LastRun(b) == LastRun(a);
        assert wake == Some(now) <==> input.trigger.value.kind == "interval" && input.trigger.value.runAt == At(now);
      }
    }
  }

  lemma StopRunsKeeps(a: Automation, b: Automation)
    requires OnlyLastRunOpen(a) && TracesMatch(a) && ScheduleIncreases(a)
    requires b.runs == StopRuns(a.runs)
    ensures |b.runs| == |a.runs| && OnlyLastRunOpen(b) && TracesMatch(b) && ScheduleIncreases(b)
    ensures a.runs != [] ==> LastRun(b).scheduledFor == LastRun(a).scheduledFor
    ensures b.runs != [] ==> !LastRun(b).status.Pending? && !LastRun(b).status.Running?
    ensures a.runs != [] ==> (IsUnderWay(LastRun(b)) <==> IsUnderWay(LastRun(a)))
  {
    forall i | 0 <= i < |a.runs|
      ensures b.runs[i].scheduledFor == a.runs[i].scheduledFor && b.runs[i].traceId == a.runs[i].traceId
      ensures IsOpen(b.runs[i]) ==> IsOpen(a.runs[i])
    {
    }
  }

  lemma StoppedIsHealthy(a: Automation, b: Automation, now: int)
    requires Healthy(a, now) && b.runs == StopRuns(a.runs) && b.status != Active && b.nextWakeAt.None?
    ensures Healthy(b, now)
  {
    hide StopRuns;
    StopRunsKeeps(a, b);
  }

  lemma ResumeKeepsHealthy(env: Environment, a: Automation, now: int)
    requires Healthy(a, now) && Resume(env, a, now).Ok?
    ensures Healthy(Resume(env, a, now).value, now)
  {
    hide NextOnResume;
    var b := Resume(env, a, now).value;
    assert b.runs == a.runs;
    OpenRunIsLast(a);
    OpenRunIsLast(b);
    TracedOpenRunIsUnderWay(a);
    if a.status == Paused && b.status == Active {
      NextOnResumeIsLater(env.zones, a.trigger, now);
    }
  }

  /** Every claim of a due automation inserts a fresh pending run: the upsert never meets an old one. */
  lemma ClaimInsertsFreshRun(a: Automation, scheduledFor: int, now: int)
    requires Healthy(a, now) && Permitted(a, DoClaim(scheduledFor), now)
    requires a.status == Active && a.nextWakeAt == Some(scheduledFor)
    ensures !HasRunAt(a, scheduledFor)
    ensures Claim(a, scheduledFor) == a.(nextWakeAt := None, runs := a.runs + [Run(scheduledFor, Pending, None)])
    ensures Healthy(Claim(a, scheduledFor), now)
  {
    forall i | 0 <= i < |a.runs| ensures a.runs[i].scheduledFor < scheduledFor {
      if i < |a.runs| - 1 {
        assert a.runs[i].scheduledFor < a.runs[|a.runs| - 1].scheduledFor;
      }
    }
    var b := Claim(a, scheduledFor);
    assert !HasRunAt(a, scheduledFor);
    assert IsOpen(b.runs[|a.runs|]);
  }

  lemma ReplaceLastKeeps(a: Automation, b: Automation, run: Run)
    requires a.runs != [] && OnlyLastRunOpen(a) && TracesMatch(a) && ScheduleIncreases(a)
    requires b.runs == a.runs[|a.runs| - 1 := run] && run.scheduledFor == LastRun(a).scheduledFor
    requires IsOpen(run) ==> (run.status.Pending? <==> run.traceId.None?)
    ensures OnlyLastRunOpen(b) && TracesMatch(b) && ScheduleIncreases(b) && LastRun(b) == run
  {
  }

  lemma PrepareKeepsHealthy(a: Automation, i: nat, traceId: TraceId, now: int)
    requires Healthy(a, now)
    ensures Healthy(PrepareRun(a, i, traceId, now), now)
  {
    var b := PrepareRun(a, i, traceId, now);
    if b != a {
      assert i + 1 == |a.runs|;
      ReplaceLastKeeps(a, b, b.runs[i]);
      OpenRunIsLast(b);
    }
  }

  lemma FinishKeepsHealthy(env: Environment, a: Automation, i: nat, outcome: Outcome, now: int)
    requires Healthy(a, now) && Permitted(a, DoFinish(i, outcome), now) && FinishRun(env, a, i, outcome, now).Ok?
    ensures Healthy(FinishRun(env, a, i, outcome, now).value, now)
  {
    hide NextAfterRun, CompletionReasonOf;
    var b := FinishRun(env, a, i, outcome, now).value;
    ReplaceLastKeeps(a, b, b.runs[i]);
    if NextAfterRun(env.zones, a.trigger, a.runs[i].scheduledFor, now).Ok? {
      NextAfterRunIsLater(env.zones, a.trigger, a.runs[i].scheduledFor, now);
    }
  }

  lemma RecoverKeepsHealthy(env: Environment, a: Automation, i: nat, now: int)
    requires Healthy(a, now) && RecoverRun(env, a, i, now).Ok?
    ensures Healthy(RecoverRun(env, a, i, now).value, now)
  {
    hide NextAfterRun, CompletionReasonOf;
    var b := RecoverRun(env, a, i, now).value;
    if i < |a.runs| && IsUnderWay(a.runs[i]) {
      assert i + 1 == |a.runs|;
      ReplaceLastKeeps(a, b, b.runs[i]);
      if NextAfterRun(env.zones, a.trigger, a.runs[i].scheduledFor, now).Ok? {
        NextAfterRunIsLater(env.zones, a.trigger, a.runs[i].scheduledFor, now);
      }
    }
  }

  lemma RequeueKeepsHealthy(a: Automation, i: nat, now: int)
    requires Healthy(a, now) && Permitted(a, DoRequeue(i), now)
    ensures Healthy(MarkRunPending(a, i), now)
  {
    var b := MarkRunPending(a, i);
    if b != a {
      ReplaceLastKeeps(a, b, b.runs[i]);
      assert IsOpen(b.runs[i]);
    }
  }

  /** The central step lemma: whatever a permitted transaction does, the automation stays healthy. */
  lemma StepKeepsHealthy(env: Environment, a: Automation, e: RowEvent, clock: int, now: int)
    requires ValidEnvironment(env) && Healthy(a, clock) && clock <= now && Permitted(a, e, now)
    ensures Healthy(Step(env, a, e, now), now)
  {
    hide Update, Resume, PrepareRun, FinishRun, RecoverRun, MarkRunPending, StopRuns;
    LaterClock(a, clock, now);
    var b := Step(env, a, e, now);
    match e
    case DoUpdate(input) => if Update(env, a, input, now).Ok? { UpdateKeepsHealthy(env, a, input, now); }
    case DoPause => if Pause(a).Ok? && a.status == Active { StoppedIsHealthy(a, b, now); }
    case DoResume => if Resume(env, a, now).Ok? { ResumeKeepsHealthy(env, a, now); }
    case DoCancel => if Cancel(a).Ok? && a.status != Cancelled { StoppedIsHealthy(a, b, now); }
    case DoComplete(reason) => assert b.runs == a.runs;
    case DoClaim(t) => if b != a { ClaimInsertsFreshRun(a, t, now); }
    case DoPrepare(i, traceId) => PrepareKeepsHealthy(a, i, traceId, now);
    case DoFinish(i, outcome) => if FinishRun(env, a, i, outcome, now).Ok? { FinishKeepsHealthy(env, a, i, outcome, now); }
    case DoRequeue(i) => RequeueKeepsHealthy(a, i, now);
    case DoRecover(i) => if RecoverRun(env, a, i, now).Ok? { RecoverKeepsHealthy(env, a, i, now); }
    case DoDeleteConversation => StoppedIsHealthy(a, b, now);
  }

  /** COMPLETED and CANCELLED are absorbing, under every transaction and without any condition. */
  lemma TerminalIsAbsorbing(env: Environment, a: Automation, e: RowEvent, now: int)
    requires ValidEnvironment(env) && IsTerminal(a)
    ensures Step(env, a, e, now).status == a.status
  {
    hide NextAfterRun, NextOnResume, CompletionReasonOf;
  }
}
