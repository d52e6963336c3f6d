/**
 What single transactions promise beyond the invariant: the run budget, the drift-free grid, and the two
 places where the code falls short of them, each with the exact condition.
 */
module AutomationPromises {
  import opened Wrappers
  import opened AutomationLifecycle
  import opened AutomationRow

  // ---------------------------------------------------------------- stopping, completing, resuming

  /** Requests that stop an automation can be repeated without effect. */
  lemma StoppingTwiceIsStoppingOnce(env: Environment, a: Automation, e: RowEvent, now: int)
    requires ValidEnvironment(env) && (e.DoPause? || e.DoCancel? || e.DoComplete? || e.DoDeleteConversation?)
    ensures Step(env, Step(env, a, e, now), e, now) == Step(env, a, e, now)
  {
    StoppedRunsStayStopped(a.runs);
    hide StopRuns;
  }

  lemma StoppedRunsStayStopped(runs: seq<Run>)
    ensures StopRuns(StopRuns(runs)) == StopRuns(runs)
  {
  }

  /** What an automation that completed by itself gives as its reason is the case; SCHEDULE_COMPLETED is never given. */
  lemma ReasonIsTrue(env: Environment, a: Automation, e: RowEvent, now: int)
    requires ValidEnvironment(env) && !e.DoComplete?
    requires Step(env, a, e, now).status == Completed && a.status != Completed
    ensures var b := Step(env, a, e, now);
      match b.completionReason
      case Some(OnceCompleted) => b.trigger.Once?
      case Some(MaxRunsReached) => b.stopPolicy.maxRuns.Some? && b.runCount >= b.stopPolicy.maxRuns.value
      case Some(Expired) => b.expiresAt.Some? && b.expiresAt.value <= now
      case _ => false
  {
    hide NextGridPoint, NextWallClock, NextOnResume, NormalizeTrigger, NormalizeStopPolicy, StopRuns, IntervalMs;
  }

  /** The run that uses an automation up completes it: after an unblocked end it stays active exactly when it may run again. */
  lemma UsedUpMeansCompleted(env: Environment, a: Automation, i: nat, outcome: Outcome, now: int)
    requires i < |a.runs| && a.status == Active && outcome != OutcomeBlocked && FinishRun(env, a, i, outcome, now).Ok?
    ensures var b := FinishRun(env, a, i, outcome, now).value;
      b.status == (if a.trigger.Once?
                      || (a.stopPolicy.maxRuns.Some? && a.stopPolicy.maxRuns.value <= b.runCount)
                      || (a.expiresAt.Some? && a.expiresAt.value <= now) then Completed else Active)
  {
    hide NextGridPoint, NextWallClock, IntervalMs;
  }

  /** A pause with nothing under way can be taken back: only a pending run and the wake-up are lost, and the new wake-up is later. */
  lemma PauseThenResume(env: Environment, a: Automation, now: int)
    requires ValidEnvironment(env) && Healthy(a, now) && a.status == Active && (a.runs != [] ==> !IsUnderWay(LastRun(a)))
    requires !ShouldStopBeforeRun(a.expiresAt, now) && NextOnResume(env.zones, a.trigger, now).Ok?
    ensures var r := Resume(env, Pause(a).value, now);
      && r.Ok? && r.value.nextWakeAt.Some? && r.value.nextWakeAt.value > now
      && r.value == a.(runs := StopRuns(a.runs), nextWakeAt := r.value.nextWakeAt)
  {
    var p := Pause(a).value;
    StopRunsKeeps(a, p);
    TracedOpenRunIsUnderWay(p);
    NextOnResumeIsLater(env.zones, a.trigger, now);
  }

  // ---------------------------------------------------------------- creation and update

  /** A new automation has nothing behind it and runs at least once before it ends. */
  lemma CreatedRunsBeforeItsEnd(env: Environment, c: ConversationId, input: CreateInput, now: int)
    requires ValidEnvironment(env) && Create(env, c, input, now).Ok?
    ensures var a := Create(env, c, input, now).value;
      && a.status == Active && a.conversationId == c && a.runs == [] && a.runCount == 0 && a.completionReason.None?
      && a.nextWakeAt.Some? && now <= a.nextWakeAt.value && a.expiresAt == a.stopPolicy.expiresAt
      && (a.expiresAt.Some? ==> a.nextWakeAt.value < a.expiresAt.value)
      && (a.delivery == OnCompletion ==> a.stopPolicy.hasCondition)
  {
  }

  /** An update changes only what it names, and leaves the next wake-up before the end. */
  lemma UpdateTouchesWhatItNames(env: Environment, a: Automation, input: UpdateInput, now: int)
    requires ValidEnvironment(env) && Update(env, a, input, now).Ok?
    ensures var b := Update(env, a, input, now).value;
      && !IsTerminal(a)
      && b == a.(trigger := b.trigger, stopPolicy := b.stopPolicy, expiresAt := b.expiresAt, delivery := b.delivery,
                 nextWakeAt := b.nextWakeAt)
      && (input.trigger.None? ==> b.trigger == a.trigger && b.nextWakeAt == a.nextWakeAt)
      && (input.trigger.Some? ==> (b.nextWakeAt.Some? <==> a.status == Active))
      && (input.stopPolicy.None? && (input.trigger.None? || b.trigger.Once?) ==> b.stopPolicy == a.stopPolicy && b.expiresAt == a.expiresAt)
      && (input.delivery.None? ==> b.delivery == a.delivery)
      && (b.expiresAt.Some? && b.nextWakeAt.Some? ==> b.nextWakeAt.value < b.expiresAt.value)
      && (b.delivery == OnCompletion ==> b.stopPolicy.hasCondition)
  {
    hide NormalizeStopPolicy, AsStopInput;
  }

  // ---------------------------------------------------------------- run budget

  function UnderWayCount(a: Automation): nat {
    if a.runs != [] && IsUnderWay(LastRun(a)) then 1 else 0
  }

  /** The run that is under way is already paid for. */
  predicate WithinBudget(a: Automation) {
    a.stopPolicy.maxRuns.Some? ==> a.runCount + UnderWayCount(a) <= a.stopPolicy.maxRuns.value
  }

  lemma StepKeepsBudget(env: Environment, a: Automation, e: RowEvent, now: int)
    requires ValidEnvironment(env) && Healthy(a, now) && WithinBudget(a) && Permitted(a, e, now)
    requires e.DoUpdate? ==> Step(env, a, e, now).stopPolicy.maxRuns == a.stopPolicy.maxRuns
    ensures WithinBudget(Step(env, a, e, now))
  {
    hide NextAfterRun, NextOnResume, CompletionReasonOf, NormalizeTrigger, NormalizeStopPolicy, StopRuns;
    var b := Step(env, a, e, now);
    if (e.DoPause? || e.DoCancel? || e.DoDeleteConversation?) && b.runs == StopRuns(a.runs) {
      StopRunsKeeps(a, b);
    }
  }

  /** An update keeps the budget exactly when the limit it sets covers the runs already counted or under way. */
  lemma UpdateKeepsBudget(env: Environment, a: Automation, input: UpdateInput, now: int)
    requires ValidEnvironment(env) && WithinBudget(a) && Update(env, a, input, now).Ok?
    ensures WithinBudget(Update(env, a, input, now).value) <==>
      (input.stopPolicy.Some? && input.stopPolicy.value.maxRuns.Some? && input.stopPolicy.value.maxRuns.value.Some? ==>
        a.runCount + UnderWayCount(a) <= input.stopPolicy.value.maxRuns.value.value)
  {
    hide NormalizeTrigger;
    var b := Update(env, a, input, now).value;
    assert b.runs == a.runs && b.runCount == a.runCount;
  }

  /** Every run is counted at most once, and not before it ended. */
  predicate CountsEndedRuns(a: Automation) {
    a.runCount + (if a.runs != [] && IsOpen(LastRun(a)) then 1 else 0) <= |a.runs|
  }

  lemma EndCountsOnce(env: Environment, a: Automation, e: RowEvent, now: int)
    requires ValidEnvironment(env) && Healthy(a, now) && Permitted(a, e, now) && CountsEndedRuns(a) && (e.DoFinish? || e.DoRecover?)
    ensures CountsEndedRuns(Step(env, a, e, now))
    ensures a.runCount <= Step(env, a, e, now).runCount <= a.runCount + 1
  {
    hide NextAfterRun, CompletionReasonOf;
    OpenRunIsLast(a);
  }

  /** However a run ends, whether it is requeued, recovered or cut off by a stop, it does not count twice. */
  lemma StepCountsOnce(env: Environment, a: Automation, e: RowEvent, now: int)
    requires ValidEnvironment(env) && Healthy(a, now) && Permitted(a, e, now) && CountsEndedRuns(a)
    ensures CountsEndedRuns(Step(env, a, e, now))
    ensures a.runCount <= Step(env, a, e, now).runCount <= a.runCount + 1
  {
    hide FinishRun, RecoverRun, NextAfterRun, NextOnResume, CompletionReasonOf, NormalizeTrigger, NormalizeStopPolicy, StopRuns;
    if e.DoFinish? || e.DoRecover? {
      EndCountsOnce(env, a, e, now);
      return;
    }
    var b := Step(env, a, e, now);
    OpenRunIsLast(a);
    if (e.DoPause? || e.DoCancel? || e.DoDeleteConversation?) && b.runs == StopRuns(a.runs) {
      StopRunsKeeps(a, b);
    }
  }

  // ---------------------------------------------------------------- drift-free schedule

  /**
   Since an anchor was set, when there were k runs, every scheduled time lies on the grid through the anchor.
   A run from before the anchor may still be open, but then the anchor itself is waiting as the next wake-up.
   */
  ghost predicate OnSchedule(a: Automation, k: nat, anchor: int) {
    && HasLength(a.trigger) && !UsesWallClock(a.trigger) && k <= |a.runs|
    && (forall i :: k <= i < |a.runs| ==> OnGrid(a.runs[i].scheduledFor, anchor, IntervalMs(a.trigger)))
    && (a.nextWakeAt.Some? ==> OnGrid(a.nextWakeAt.value, anchor, IntervalMs(a.trigger)))
    && (|a.runs| == k && HasOpenRun(a) && a.status == Active ==> a.nextWakeAt.Some?)
  }

  /** The steps that do not set a new anchor. */
  predicate KeepsAnchor(a: Automation, e: RowEvent, k: nat) {
    match e
    case DoUpdate(input) => input.trigger.None?
    case DoResume => a.status != Paused
    case DoRecover(i) => k <= i
    case _ => true
  }

  lemma AnchorIsOnGrid(anchor: int, interval: int)
    ensures OnGrid(anchor, anchor, interval)
  {
    assert anchor == GridPoint(anchor, interval, 0);
  }

  lemma NextAfterRunStaysOnGrid(env: Environment, t: Trigger, scheduledFor: int, anchor: int, now: int)
    requires HasLength(t) && !UsesWallClock(t) && OnGrid(scheduledFor, anchor, IntervalMs(t))
    ensures NextAfterRun(env.zones, t, scheduledFor, now).Ok?
    ensures NextAfterRun(env.zones, t, scheduledFor, now).value.Some?
    ensures OnGrid(NextAfterRun(env.zones, t, scheduledFor, now).value.value, anchor, IntervalMs(t))
  {
    hide IntervalMs;
    NextGridPointIsLeast(scheduledFor, IntervalMs(t), now);
    GridIsTransitive(NextGridPoint(scheduledFor, IntervalMs(t), now), scheduledFor, anchor, IntervalMs(t));
  }

  lemma FinishStaysOnSchedule(env: Environment, a: Automation, i: nat, outcome: Outcome, now: int, k: nat, anchor: int)
    requires Healthy(a, now) && OnSchedule(a, k, anchor) && Permitted(a, DoFinish(i, outcome), now)
    requires FinishRun(env, a, i, outcome, now).Ok?
    ensures OnSchedule(FinishRun(env, a, i, outcome, now).value, k, anchor)
  {
    hide NextAfterRun, CompletionReasonOf, IntervalMs, OnGrid;
    var b := FinishRun(env, a, i, outcome, now).value;
    ReplaceLastKeeps(a, b, b.runs[i]);
    assert IsOpen(a.runs[i]);
    assert !HasOpenRun(b) by { OpenRunIsLast(b); }
    if a.status == Active && a.nextWakeAt.None? {
      assert k <= i;
      NextAfterRunStaysOnGrid(env, a.trigger, a.runs[i].scheduledFor, anchor, now);
    }
  }

  lemma RecoverStaysOnSchedule(env: Environment, a: Automation, i: nat, now: int, k: nat, anchor: int)
    requires Healthy(a, now) && OnSchedule(a, k, anchor) && k <= i
    requires RecoverRun(env, a, i, now).Ok?
    ensures OnSchedule(RecoverRun(env, a, i, now).value, k, anchor)
  {
    hide NextAfterRun, CompletionReasonOf, IntervalMs, OnGrid;
    var b := RecoverRun(env, a, i, now).value;
    if i < |a.runs| && IsUnderWay(a.runs[i]) {
      ReplaceLastKeeps(a, b, b.runs[i]);
      assert !HasOpenRun(b) by { OpenRunIsLast(b); }
      NextAfterRunStaysOnGrid(env, a.trigger, a.runs[i].scheduledFor, anchor, now);
    }
  }

  lemma StepStaysOnSchedule(env: Environment, a: Automation, e: RowEvent, now: int, k: nat, anchor: int)
    requires ValidEnvironment(env) && Healthy(a, now) && Permitted(a, e, now)
    requires OnSchedule(a, k, anchor) && KeepsAnchor(a, e, k)
    ensures OnSchedule(Step(env, a, e, now), k, anchor)
  {
    hide FinishRun, RecoverRun, NextOnResume, IntervalMs, OnGrid, NormalizeStopPolicy, StopRuns;
    var b := Step(env, a, e, now);
    match e
    case DoClaim(t) => if b != a { ClaimInsertsFreshRun(a, t, now); }
    case DoFinish(i, outcome) =>
      if FinishRun(env, a, i, outcome, now).Ok? { FinishStaysOnSchedule(env, a, i, outcome, now, k, anchor); }
    case DoRecover(i) =>
      if RecoverRun(env, a, i, now).Ok? { RecoverStaysOnSchedule(env, a, i, now, k, anchor); }
    case DoPrepare(i, traceId) =>
      if b != a {
        assert IsOpen(a.runs[i]);
        assert forall j :: 0 <= j < |a.runs| ==> b.runs[j].scheduledFor == a.runs[j].scheduledFor;
      }
    case DoRequeue(i) =>
      if b != a {
        assert IsOpen(a.runs[i]);
        assert forall j :: 0 <= j < |a.runs| ==> b.runs[j].scheduledFor == a.runs[j].scheduledFor;
      }
    case DoUpdate(_) => assert b.runs == a.runs;
    case DoPause => if b.runs == StopRuns(a.runs) { StoppedKeepsTimes(a, b); }
    case DoCancel => if b.runs == StopRuns(a.runs) { StoppedKeepsTimes(a, b); }
    case DoDeleteConversation => StoppedKeepsTimes(a, b);
    case _ => assert b.runs == a.runs;
  }

  lemma StoppedKeepsTimes(a: Automation, b: Automation)
    requires b.runs == StopRuns(a.runs)
    ensures |b.runs| == |a.runs| && forall i :: 0 <= i < |a.runs| ==> b.runs[i].scheduledFor == a.runs[i].scheduledFor
  {
  }

  /** Creation, a trigger update while active, and resuming each start a fresh grid at the wake-up they set. */
  lemma AnchorsStartAGrid(a: Automation, anchor: int)
    requires HasLength(a.trigger) && !UsesWallClock(a.trigger) && a.nextWakeAt == Some(anchor)
    ensures OnSchedule(a, |a.runs|, anchor)
  {
    AnchorIsOnGrid(anchor, IntervalMs(a.trigger));
  }

  /**
   Where recovery drifts: a run from before the anchor is recovered, and the wake-up is computed from that run.
   The new wake-up is on the anchored grid exactly when the old run already was.
   */
  lemma RecoveryOfOlderRun(env: Environment, a: Automation, i: nat, now: int, anchor: int)
    requires Healthy(a, now) && a.status == Active && HasLength(a.trigger) && !UsesWallClock(a.trigger)
    requires i < |a.runs| && IsUnderWay(a.runs[i]) && RecoverRun(env, a, i, now).Ok?
    requires RecoverRun(env, a, i, now).value.status == Active
    ensures var b := RecoverRun(env, a, i, now).value;
      b.nextWakeAt.Some?
      && (OnGrid(b.nextWakeAt.value, anchor, IntervalMs(a.trigger)) <==>
          OnGrid(a.runs[i].scheduledFor, anchor, IntervalMs(a.trigger)))
  {
    hide IntervalMs, CompletionReasonOf;
    var interval, from := IntervalMs(a.trigger), a.runs[i].scheduledFor;
    var wake := NextGridPoint(from, interval, now);
    NextGridPointIsLeast(from, interval, now);
    GridIsSymmetric(wake, from, interval);
    if OnGrid(from, anchor, interval) {
      GridIsTransitive(wake, from, anchor, interval);
    }
    if OnGrid(wake, anchor, interval) {
      GridIsTransitive(from, wake, anchor, interval);
    }
  }

  lemma GridIsSymmetric(x: int, y: int, interval: int)
    requires OnGrid(x, y, interval)
    ensures OnGrid(y, x, interval)
  {
    var k: int :| x == GridPoint(y, interval, k);
    assert y == GridPoint(x, interval, -k) by {
      assert (-k) * interval == -(k * interval);
    }
  }

  /**
   An update made while a run is under way asks for its first run at 14:30 on an hourly trigger; the process restarts, and
   recovery schedules 15:00, on the grid of the interrupted run. (Times in minutes after midnight.)
   */
  lemma RecoveryLosesAnchor(env: Environment)
    ensures
      var minute := 60_000;
      var hourly := Interval(Some(870 * minute), 1, Hour, None);
      var policy := StopPolicy(None, None, false, true);
      var a := Automation("c", Active, hourly, policy, Always, Some(870 * minute), None, 0, None,
                          [Run(840 * minute, Running, Some("t"))]);
      Healthy(a, 845 * minute) && OnSchedule(a, 1, 870 * minute)
      && RecoverRun(env, a, 0, 850 * minute).Ok?
      && RecoverRun(env, a, 0, 850 * minute).value.nextWakeAt == Some(900 * minute)
      && !OnSchedule(RecoverRun(env, a, 0, 850 * minute).value, 1, 870 * minute)
  {
    var minute := 60_000;
    var hourly := Interval(Some(870 * minute), 1, Hour, None);
    var a := Automation("c", Active, hourly, StopPolicy(None, None, false, true), Always, Some(870 * minute), None, 0, None,
                        [Run(840 * minute, Running, Some("t"))]);
    AnchorsStartAGrid(a, 870 * minute);
    assert IsOpen(a.runs[0]);
    var b := RecoverRun(env, a, 0, 850 * minute).value;
    assert b.nextWakeAt == Some(900 * minute);
    HalfHourIsOffGrid();
  }

  lemma HalfHourIsOffGrid()
    ensures !OnGrid(900 * 60_000, 870 * 60_000, 3_600_000)
  {
    forall k: int ensures 900 * 60_000 != GridPoint(870 * 60_000, 3_600_000, k) {
    }
  }

  // ---------------------------------------------------------------- the orphan

  /**
   What the excluded update leads to while the run scheduled for `now` is open: started if it was pending, the run ends and leaves the
   automation active. The next claim finds the old row under the same unique key, inserts nothing, and the automation is active with
   no wake-up and no open run.
   */
  lemma CollisionOrphans(env: Environment, a: Automation, input: UpdateInput, now: int, traceId: TraceId, start: int,
                         outcome: Outcome, later: int)
    requires ValidEnvironment(env) && Healthy(a, now) && Collides(a, input, now) && HasOpenRun(a)
    requires Update(env, a, input, now).Ok? && now <= later
    requires var last := |a.runs| - 1;
      var b := PrepareRun(Update(env, a, input, now).value, last, traceId, start);
      && IsUnderWay(b.runs[last])
      && FinishRun(env, b, last, outcome, later).Ok? && FinishRun(env, b, last, outcome, later).value.status == Active
    ensures var last := |a.runs| - 1;
      var b := PrepareRun(Update(env, a, input, now).value, last, traceId, start);
      var c := FinishRun(env, b, last, outcome, later).value;
      IsDue(c, later) && c.nextWakeAt == Some(now) && !NotOrphaned(Claim(c, now))
  {
    hide CompletionReasonOf, NextAfterRun, NormalizeStopPolicy;
    OpenRunIsLast(a);
    var u, last := Update(env, a, input, now).value, |a.runs| - 1;
    assert u.runs == a.runs && u.nextWakeAt == Some(now);
    var b := PrepareRun(u, last, traceId, start);
    var c := FinishRun(env, b, last, outcome, later).value;
    assert c.nextWakeAt == Some(now) && c.runs[last].scheduledFor == now;
    assert !HasOpenRun(c);
    assert HasRunAt(c, now);
  }

  /** The same once that run has ended: the wake-up that the update sets is lost at the very next claim. */
  lemma CollisionOrphansAtOnce(env: Environment, a: Automation, input: UpdateInput, now: int, later: int)
    requires ValidEnvironment(env) && Healthy(a, now) && Collides(a, input, now) && !HasOpenRun(a)
    requires Update(env, a, input, now).Ok? && now <= later
    ensures var b := Update(env, a, input, now).value;
      IsDue(b, later) && b.nextWakeAt == Some(now) && !NotOrphaned(Claim(b, now))
  {
    hide NormalizeStopPolicy;
    var b := Update(env, a, input, now).value;
    assert b.runs == a.runs && b.nextWakeAt == Some(now) && HasRunAt(b, now);
  }
}
