/**
 What every transaction does to each part of an automation: its status, its runs, its count of runs, its next wake-up, and the rest.
 Every chart covers all transactions, and everything they do and do not change.
 */
module AutomationCharts {
  import opened Wrappers
  import opened CivilCalendar
  import opened AutomationLifecycle
  import opened AutomationRow

  predicate HasExpired(a: Automation, now: int) {
    a.expiresAt.Some? && a.expiresAt.value <= now
  }

  predicate HasCounted(a: Automation, count: int) {
    a.stopPolicy.maxRuns.Some? && a.stopPolicy.maxRuns.value <= count
  }

  /** There is nothing more to do after `count` runs. */
  predicate IsUsedUp(a: Automation, count: int, now: int) {
    a.trigger.Once? || HasCounted(a, count) || HasExpired(a, now)
  }

  predicate IsPendingAt(a: Automation, i: nat) {
    i < |a.runs| && a.runs[i].status == Pending
  }

  predicate IsUnderWayAt(a: Automation, i: nat) {
    i < |a.runs| && (a.runs[i].status == Running || a.runs[i].status == Cancelling)
  }

  /** The end of run i makes an active automation look for its next time. */
  predicate SeeksNextTime(a: Automation, e: RowEvent, now: int) {
    && a.status == Active
    && ((e.DoFinish? && e.i < |a.runs| && e.outcome != OutcomeBlocked && a.nextWakeAt.None?
         && !IsUsedUp(a, a.runCount + Counts(e.outcome), now))
        || (e.DoRecover? && IsUnderWayAt(a, e.i) && !IsUsedUp(a, a.runCount + 1, now)))
  }

  function Counts(outcome: Outcome): nat {
    if outcome == OutcomeCancelled then 0 else 1
  }

  /** The transaction is rolled back, because there is no next time. */
  predicate FindsNoTime(env: Environment, a: Automation, e: RowEvent, now: int) {
    SeeksNextTime(a, e, now) && NextAfterRun(env.zones, a.trigger, a.runs[e.i].scheduledFor, now).Err?
  }

  lemma EndFailsIff(env: Environment, a: Automation, e: RowEvent, now: int)
    ensures e.DoFinish? ==> (FinishRun(env, a, e.i, e.outcome, now).Err? <==> FindsNoTime(env, a, e, now))
    ensures e.DoRecover? ==> (RecoverRun(env, a, e.i, now).Err? <==> FindsNoTime(env, a, e, now))
  {
    hide NextGridPoint, NextWallClock, IntervalMs;
  }

  lemma StatusChart(env: Environment, a: Automation, e: RowEvent, now: int)
    requires ValidEnvironment(env)
    ensures Step(env, a, e, now).status == (
      match e
      case DoPause => if a.status == Active then Paused else a.status
      case DoResume =>
        if a.status != Paused || HasTracedOpenRun(a) then a.status
        else if HasExpired(a, now) then Completed
        else if NextOnResume(env.zones, a.trigger, now).Ok? then Active
        else Paused
      case DoCancel => if a.status == Completed then Completed else Cancelled
      case DoDeleteConversation => if a.status == Completed then Completed else Cancelled
      case DoComplete(_) => if a.status == Cancelled then Cancelled else Completed
      case DoPrepare(i, _) =>
        if a.status == Active && IsPendingAt(a, i) && (HasExpired(a, now) || HasCounted(a, a.runCount)) then Completed else a.status
      case DoFinish(i, outcome) =>
        if a.status != Active || i >= |a.runs| then a.status
        else if outcome == OutcomeBlocked then Paused
        else if IsUsedUp(a, a.runCount + Counts(outcome), now) then Completed
        else Active
      case DoRecover(i) => if a.status == Active && IsUnderWayAt(a, i) && IsUsedUp(a, a.runCount + 1, now) then Completed else a.status
      case _ => a.status)
  {
    hide NextGridPoint, NextWallClock, NextOnResume, NormalizeTrigger, NormalizeStopPolicy, StopRuns, IntervalMs;
  }

  /** The requests that stop every open run of the automation. */
  predicate StopsRuns(a: Automation, e: RowEvent) {
    || (e.DoPause? && a.status == Active)
    || (e.DoCancel? && (a.status == Active || a.status == Paused))
    || e.DoDeleteConversation?
  }

  function StoppedStatus(status: RunStatus): RunStatus {
    match status
    case Pending => RunCancelled
    case Running => Cancelling
    case _ => status
  }

  /** The recorded status is the outcome, unless the automation was stopping and the run did not succeed. */
  function RecordedStatus(a: Automation, outcome: Outcome): RunStatus {
    match outcome
    case OutcomeSucceeded => Succeeded
    case OutcomeFailed => if a.status == Active then Failed else RunCancelled
    case OutcomeBlocked => if a.status == Active then Blocked else RunCancelled
    case OutcomeCancelled => RunCancelled
  }

  lemma RunChart(env: Environment, a: Automation, e: RowEvent, now: int, j: nat)
    requires ValidEnvironment(env) && j < |a.runs|
    ensures var b, run := Step(env, a, e, now), a.runs[j];
      j < |b.runs| && b.runs[j] == (
        match e
        case DoPause => if StopsRuns(a, e) then run.(status := StoppedStatus(run.status)) else run
        case DoCancel => if StopsRuns(a, e) then run.(status := StoppedStatus(run.status)) else run
        case DoDeleteConversation => run.(status := StoppedStatus(run.status))
        case DoPrepare(i, traceId) =>
          if i != j || a.status != Active || run.status != Pending then run
          else if HasExpired(a, now) || HasCounted(a, a.runCount) then run.(status := RunCancelled)
          else Run(run.scheduledFor, Running, Some(traceId))
        case DoFinish(i, outcome) =>
          if i != j || FindsNoTime(env, a, e, now) then run else run.(status := RecordedStatus(a, outcome))
        case DoRequeue(i) => if i == j && run.status == Running then Run(run.scheduledFor, Pending, None) else run
        case DoRecover(i) =>
          if i != j || !IsUnderWayAt(a, j) || FindsNoTime(env, a, e, now) then run
          else run.(status := if run.status == Cancelling || a.status == Cancelled || a.status == Paused then RunCancelled else Failed)
        case _ => run)
  {
    hide NextGridPoint, NextWallClock, NextOnResume, NormalizeTrigger, NormalizeStopPolicy, IntervalMs, FindsNoTime;
    EndFailsIff(env, a, e, now);
  }

  /** Only a claim adds a run, and that is a fresh one at the end. */
  lemma NewRunChart(env: Environment, a: Automation, e: RowEvent, now: int)
    requires ValidEnvironment(env)
    ensures var b := Step(env, a, e, now);
      var claims := e.DoClaim? && a.status == Active && a.nextWakeAt == Some(e.scheduledFor)
                    && forall i :: 0 <= i < |a.runs| ==> a.runs[i].scheduledFor != e.scheduledFor;
      && |b.runs| == |a.runs| + (if claims then 1 else 0)
      && (claims ==> b.runs[|a.runs|] == Run(e.scheduledFor, Pending, None))
  {
    hide NextGridPoint, NextWallClock, NextOnResume, NormalizeTrigger, NormalizeStopPolicy, IntervalMs, CompletionReasonOf;
  }

  /** An executor is told to start exactly when the run becomes running. */
  lemma StartIff(env: Environment, a: Automation, i: nat, traceId: TraceId, now: int)
    requires ValidEnvironment(env)
    ensures PrepareStarts(a, i, now) <==> IsPendingAt(a, i) && IsUnderWayAt(Step(env, a, DoPrepare(i, traceId), now), i)
  {
  }

  /** A run counts when it ends, unless it was cancelled, and when it is recovered from an active automation; never otherwise. */
  lemma CountChart(env: Environment, a: Automation, e: RowEvent, now: int)
    requires ValidEnvironment(env)
    ensures Step(env, a, e, now).runCount == a.runCount + (
      match e
      case DoFinish(i, outcome) => if i < |a.runs| && outcome != OutcomeCancelled && !FindsNoTime(env, a, e, now) then 1 else 0
      case DoRecover(i) => if a.status == Active && IsUnderWayAt(a, i) && !FindsNoTime(env, a, e, now) then 1 else 0
      case _ => 0)
  {
    hide NextGridPoint, NextWallClock, NextOnResume, NormalizeTrigger, NormalizeStopPolicy, StopRuns, IntervalMs, FindsNoTime;
    EndFailsIff(env, a, e, now);
  }

  function NextTime(env: Environment, a: Automation, i: nat, now: int): Option<int>
    requires i < |a.runs| && NextAfterRun(env.zones, a.trigger, a.runs[i].scheduledFor, now).Ok?
  {
    NextAfterRun(env.zones, a.trigger, a.runs[i].scheduledFor, now).value
  }

  /** Where an automation waits: what is waiting is kept as long as the automation stays active, except where a new time is due. */
  lemma WakeChart(env: Environment, a: Automation, e: RowEvent, now: int)
    requires ValidEnvironment(env) && (a.nextWakeAt.Some? ==> a.status == Active)
    ensures var b := Step(env, a, e, now);
      && (b.status != Active ==> b.nextWakeAt.None?)
      && (b.status == Active ==>
           match e
           case DoUpdate(_) => true
           case DoClaim(t) => b.nextWakeAt == if a.nextWakeAt == Some(t) then None else a.nextWakeAt
           case DoResume => a.status == Active ==> b.nextWakeAt == a.nextWakeAt
           case DoFinish(i, _) =>
             b.nextWakeAt == if SeeksNextTime(a, e, now) && !FindsNoTime(env, a, e, now) then NextTime(env, a, i, now) else a.nextWakeAt
           case DoRecover(i) =>
             b.nextWakeAt == if SeeksNextTime(a, e, now) && !FindsNoTime(env, a, e, now) then NextTime(env, a, i, now) else a.nextWakeAt
           case _ => b.nextWakeAt == a.nextWakeAt)
  {
    hide NextGridPoint, NextWallClock, NextOnResume, NormalizeTrigger, NormalizeStopPolicy, StopRuns, IntervalMs;
  }

  /** An automation says why it completed when it completes; what else there is only an update changes. */
  lemma RestChart(env: Environment, a: Automation, e: RowEvent, now: int)
    requires ValidEnvironment(env)
    ensures var b := Step(env, a, e, now);
      && b.conversationId == a.conversationId
      && (!e.DoUpdate? ==> b.trigger == a.trigger && b.stopPolicy == a.stopPolicy && b.delivery == a.delivery && b.expiresAt == a.expiresAt)
      && (b.status != Completed || a.status == Completed ==> b.completionReason == a.completionReason)
      && (b.status == Completed && a.status != Completed ==>
           match e
           case DoComplete(reason) => b.completionReason == Some(reason)
           case DoResume => b.completionReason == Some(Expired)
           case DoPrepare(_, _) => b.completionReason == if HasCounted(a, a.runCount) then Some(MaxRunsReached) else Some(Expired)
           case _ =>
             b.completionReason ==
               if a.trigger.Once? then Some(OnceCompleted) else if HasCounted(a, b.runCount) then Some(MaxRunsReached) else Some(Expired))
  {
    hide NextGridPoint, NextWallClock, NextOnResume, NormalizeTrigger, NormalizeStopPolicy, StopRuns, IntervalMs;
  }

  /** Which requests are refused, and why; a refused one changes nothing. */
  lemma RefusalChart(env: Environment, a: Automation, reason: CompletionReason, now: int)
    requires ValidEnvironment(env)
    ensures Pause(a).Err? <==> a.status == Completed || a.status == Cancelled
    ensures Pause(a).Err? ==> Pause(a).error == AutomationNotActive
    ensures Cancel(a).Err? <==> a.status == Completed
    ensures Cancel(a).Err? ==> Cancel(a).error == AlreadyCompleted
    ensures Complete(a, reason).Err? <==> a.status == Cancelled
    ensures Complete(a, reason).Err? ==> Complete(a, reason).error == AlreadyCancelled
    ensures Resume(env, a, now) == Err(AutomationNotPaused) <==> a.status == Completed || a.status == Cancelled
    ensures Resume(env, a, now) == Err(RunStillStopping) <==>
      a.status == Paused && exists i :: 0 <= i < |a.runs| && IsOpen(a.runs[i]) && a.runs[i].traceId.Some?
    ensures Resume(env, a, now).Err? && Resume(env, a, now).error.LifecycleFailure? ==>
      a.status == Paused && !HasExpired(a, now) && NextOnResume(env.zones, a.trigger, now).Err?
    ensures Resume(env, a, now).Err? ==>
      Resume(env, a, now).error in {AutomationNotPaused, RunStillStopping} || Resume(env, a, now).error.LifecycleFailure?
  {
    hide NextOnResume, StopRuns;
  }

  /**
   A resumed automation, when it has not expired. It waits for what is still ahead, makes up for a missed single run in a second, goes on
   at the local time of its first run if it is daily or weekly in a named zone, and starts its interval anew otherwise.
   */
  lemma ResumedAutomationWaits(env: Environment, a: Automation, now: int)
    requires ValidEnvironment(env) && a.status == Paused && Step(env, a, DoResume, now).status == Active
    ensures var b, t := Step(env, a, DoResume, now), a.trigger;
      && b.nextWakeAt.Some? && b.nextWakeAt.value > now
      && b == a.(status := Active, nextWakeAt := b.nextWakeAt)
      && (t.Once? ==> b.nextWakeAt == Some(if t.runAt > now then t.runAt else now + 1_000))
      && (t.Interval? && t.firstRunAt.Some? && t.firstRunAt.value > now ==> b.nextWakeAt == t.firstRunAt)
      && (t.Interval? && t.firstRunAt.Some? && t.firstRunAt.value <= now && t.timeZone.Some? && (t.unit == Day || t.unit == Week) ==>
            var zone := env.zones(t.timeZone.value);
            var first := zone.format(t.firstRunAt.value);
            var days := if t.unit == Week then 7 * t.every else t.every;
            ValidDate(first.date) && first.date.year >= 100 && -MAX_DAY <= DayNumber(first.date) <= MAX_DAY ==>
              LeastOccurrence(Ok(b.nextWakeAt.value), zone, DatesAfter(first.date, days), first.second, 0, now))
      && (t.Interval? && !t.unit.Inherited? && (t.firstRunAt.Some? ==> t.firstRunAt.value <= now)
          && (t.firstRunAt.None? || t.timeZone.None? || t.unit == Minute || t.unit == Hour) ==>
            b.nextWakeAt == Some(now + t.every * UnitMs(t.unit)))
  {
    ResumedTime(env.zones, a.trigger, now);
    if NextOnResume(env.zones, a.trigger, now).Ok? {
      NextOnResumeIsLater(env.zones, a.trigger, now);
    }
    hide NextOnResume, LeastOccurrence, DatesAfter, ValidDate, DayNumber;
  }

  /** What an accepted request creates, part by part. */
  lemma CreatedChart(env: Environment, c: ConversationId, input: CreateInput, now: int)
    requires ValidEnvironment(env)
    ensures var r, trigger := Create(env, c, input, now), NormalizeTrigger(input.trigger, now);
      && (r.Ok? ==>
            && trigger.Ok? && r.value.trigger == trigger.value.0 && r.value.nextWakeAt == trigger.value.1 && r.value.nextWakeAt.Some?
            && var policy := NormalizeStopPolicy(input.stopPolicy, now, trigger.value.0.Interval?, env.lifetimeDays);
               && policy == Ok(r.value.stopPolicy)
               && r.value.expiresAt == policy.value.expiresAt
               && NormalizeDelivery(input.delivery) == Ok(r.value.delivery)
               && r.value == Automation(c, Active, r.value.trigger, r.value.stopPolicy, r.value.delivery, r.value.nextWakeAt,
                                        r.value.expiresAt, 0, None, []))
      && (r == Err(DeliveryPolicyInvalid) ==> input.delivery !in {"", "always", "on_completion"})
      && (r == Err(DeliveryRequiresCondition) ==> input.delivery == "on_completion" && !input.stopPolicy.hasCondition)
      && (r == Err(FirstRunAfterExpiry) ==>
            && trigger.Ok? && trigger.value.1.Some?
            && var policy := NormalizeStopPolicy(input.stopPolicy, now, trigger.value.0.Interval?, env.lifetimeDays);
               policy.Ok? && policy.value.expiresAt.Some? && trigger.value.1.value >= policy.value.expiresAt.value)
      && (r.Err? ==>
            || r.error in {DeliveryPolicyInvalid, DeliveryRequiresCondition, FirstRunAfterExpiry}
            || trigger.Err? || trigger.value.1.None?
            || NormalizeStopPolicy(input.stopPolicy, now, trigger.value.0.Interval?, env.lifetimeDays).Err?)
  {
    hide NormalizeTrigger;
  }

  /** What an accepted update stores, part by part. */
  lemma UpdatedChart(env: Environment, a: Automation, input: UpdateInput, now: int)
    requires ValidEnvironment(env)
    ensures var r := Update(env, a, input, now);
      && (r == Err(AutomationTerminal) <==> a.status == Completed || a.status == Cancelled)
      && (r.Ok? && input.trigger.Some? ==>
            var trigger := NormalizeTrigger(input.trigger.value, now);
            && trigger.Ok? && r.value.trigger == trigger.value.0
            && r.value.nextWakeAt == if a.status == Active then trigger.value.1 else None)
      && (r.Ok? && (input.stopPolicy.Some? || (input.trigger.Some? && r.value.trigger.Interval?)) ==>
            var named := if input.stopPolicy.Some? then input.stopPolicy.value else AsStopInput(a.stopPolicy);
            && NormalizeStopPolicy(named, now, r.value.trigger.Interval?, env.lifetimeDays) == Ok(r.value.stopPolicy)
            && r.value.expiresAt == r.value.stopPolicy.expiresAt)
      && (r.Ok? && input.delivery.Some? ==> NormalizeDelivery(input.delivery.value) == Ok(r.value.delivery))
      && (r == Err(NextRunAfterExpiry) ==> input.trigger.Some? || (a.nextWakeAt.Some? && (input.stopPolicy.Some? || a.expiresAt.Some?)))
  {
    hide NormalizeTrigger, NormalizeStopPolicy;
  }

  /**
   When an update is accepted: the automation has not ended, what the request names is valid, delivery on completion has a condition, the
   next wake-up lies before the end, and an active automation has one.
   */
  lemma UpdateAcceptedIff(env: Environment, a: Automation, input: UpdateInput, now: int)
    requires ValidEnvironment(env)
    ensures var trigger := if input.trigger.Some? then NormalizeTrigger(input.trigger.value, now) else Ok((a.trigger, a.nextWakeAt));
      var renewed := input.stopPolicy.Some? || (input.trigger.Some? && trigger.Ok? && trigger.value.0.Interval?);
      var named := if input.stopPolicy.Some? then input.stopPolicy.value else AsStopInput(a.stopPolicy);
      var policy :=
        if renewed && trigger.Ok? then NormalizeStopPolicy(named, now, trigger.value.0.Interval?, env.lifetimeDays) else Ok(a.stopPolicy);
      var end := if renewed && policy.Ok? then policy.value.expiresAt else a.expiresAt;
      var delivery := if input.delivery.Some? then NormalizeDelivery(input.delivery.value) else Ok(a.delivery);
      Update(env, a, input, now).Ok? <==>
        && (a.status == Active || a.status == Paused)
        && trigger.Ok? && policy.Ok? && delivery.Ok?
        && (delivery.value == OnCompletion ==> policy.value.hasCondition)
        && (end.Some? && trigger.value.1.Some? ==> trigger.value.1.value < end.value)
        && (input.trigger.Some? && a.status == Active ==> trigger.value.1.Some?)
  {
    hide NormalizeTrigger, NormalizeStopPolicy, AsStopInput;
  }
}
