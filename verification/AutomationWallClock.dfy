/**
 Daily and weekly triggers in a named zone keep the local time of day over whole runs, on dates that are whole numbers of steps
 apart, provided the zone shows every local time that it reads.
 */
module AutomationWallClock {
  import opened Wrappers
  import opened CivilCalendar
  import opened AutomationLifecycle
  import opened AutomationRow
  import opened AutomationPromises
  import opened AutomationSystem
  import opened AutomationRuns

  /** An instant that the zone reads from a local time shows that local time. */
  ghost predicate ShowsWhatItReads(zone: Zone) {
    forall l: LocalTime, t: int :: zone.parse(l) == Some(t) ==> zone.format(t) == l
  }

  /** The start of a series: a date that the loop of the source can shift without overflow or two-digit years. */
  predicate IsStart(c: CivilDate) {
    ValidDate(c) && 100 <= c.year && -MAX_DAY <= DayNumber(c)
  }

  predicate ShowsAt(zone: Zone, t: int, start: LocalTime, step: nat, j: nat) {
    DateAfter(start.date, j * step).Some? && zone.format(t) == LocalTime(DateAfter(start.date, j * step).value, start.second)
  }

  /** The zone shows t at the local time of the start, a whole number of steps later. */
  ghost predicate InSeries(zone: Zone, t: int, start: LocalTime, step: nat) {
    exists j: nat :: ShowsAt(zone, t, start, step, j)
  }

  function ZoneOf(env: Environment, t: Trigger): Zone
    requires UsesWallClock(t)
  {
    env.zones(t.timeZone.value)
  }

  lemma DatesStayInRange(c: CivilDate, days: nat)
    requires IsStart(c) && DateAfter(c, days).Some?
    ensures IsStart(DateAfter(c, days).value)
    ensures DayNumber(DateAfter(c, days).value) == DayNumber(c) + days <= MAX_DAY
  {
    hide DayNumber, CivilFromDay, ValidDate;
    CivilRoundTrip(c);
    YearsFollowDays(DayNumber(c), DayNumber(c) + days);
  }

  lemma DatesAddUp(c: CivilDate, days: nat, more: nat)
    requires IsStart(c) && DateAfter(c, days).Some?
    ensures DateAfter(DateAfter(c, days).value, more) == DateAfter(c, days + more)
  {
    hide DayNumber, CivilFromDay, ValidDate;
    assert DayNumber(CivilFromDay(DayNumber(c) + days)) == DayNumber(c) + days;
  }

  /** One search keeps the series. */
  lemma SearchStaysInSeries(env: Environment, t: Trigger, from: int, now: int, start: LocalTime)
    requires UsesWallClock(t) && ShowsWhatItReads(ZoneOf(env, t)) && IsStart(start.date)
    requires InSeries(ZoneOf(env, t), from, start, DayStep(t)) && NextWallClock(env.zones, t, from, now).Ok?
    ensures InSeries(ZoneOf(env, t), NextWallClock(env.zones, t, from, now).value, start, DayStep(t))
  {
    hide NextWallClock, DateAfter, IsStart;
    var zone, step := ZoneOf(env, t), DayStep(t);
    var j: nat :| ShowsAt(zone, from, start, step, j);
    var here := DateAfter(start.date, j * step).value;
    DatesStayInRange(start.date, j * step);
    StartParts(here);
    WallClockRecurrence(env.zones, t, from, now);
    var next := NextWallClock(env.zones, t, from, now).value;
    var k: nat :|
      && 0 < k <= WALL_CLOCK_GUARD && OccursAfter(zone, DatesAfter(here, step), start.second, k, now)
      && zone.parse(LocalTime(DatesAfter(here, step)(k).value, start.second)) == Some(next);
    assert DatesAfter(here, step)(k) == DateAfter(here, k * step);
    DatesAddUp(start.date, j * step, k * step);
    assert j * step + k * step == (j + k) * step;
    assert zone.parse(LocalTime(DateAfter(start.date, (j + k) * step).value, start.second)) == Some(next);
    assert ShowsAt(zone, next, start, step, j + k);
  }

  lemma StartParts(c: CivilDate)
    requires IsStart(c)
    ensures ValidDate(c) && 100 <= c.year && -MAX_DAY <= DayNumber(c)
  {
  }

  // ---------------------------------------------------------------- one automation

  /** Since an anchor was set, when there were k runs, every scheduled time is in the series of the anchor's local time. */
  ghost predicate OnClock(env: Environment, a: Automation, k: nat, start: LocalTime) {
    && UsesWallClock(a.trigger) && k <= |a.runs|
    && (forall i :: k <= i < |a.runs| ==> InSeries(ZoneOf(env, a.trigger), a.runs[i].scheduledFor, start, DayStep(a.trigger)))
    && (a.nextWakeAt.Some? ==> InSeries(ZoneOf(env, a.trigger), a.nextWakeAt.value, start, DayStep(a.trigger)))
    && (|a.runs| == k && HasOpenRun(a) && a.status == Active ==> a.nextWakeAt.Some?)
  }

  /** Whatever sets a wake-up starts a series at the local time it shows. */
  lemma AnchorsStartASeries(env: Environment, a: Automation, anchor: int)
    requires UsesWallClock(a.trigger) && a.nextWakeAt == Some(anchor) && IsStart(ZoneOf(env, a.trigger).format(anchor).date)
    requires DayNumber(ZoneOf(env, a.trigger).format(anchor).date) <= MAX_DAY
    ensures OnClock(env, a, |a.runs|, ZoneOf(env, a.trigger).format(anchor))
  {
    var zone := ZoneOf(env, a.trigger);
    var start := zone.format(anchor);
    CivilRoundTrip(start.date);
    assert ShowsAt(zone, anchor, start, DayStep(a.trigger), 0);
  }

  lemma NextAfterRunStaysInSeries(env: Environment, t: Trigger, scheduledFor: int, now: int, start: LocalTime)
    requires UsesWallClock(t) && ShowsWhatItReads(ZoneOf(env, t)) && IsStart(start.date)
    requires InSeries(ZoneOf(env, t), scheduledFor, start, DayStep(t)) && NextAfterRun(env.zones, t, scheduledFor, now).Ok?
    ensures NextAfterRun(env.zones, t, scheduledFor, now).value.Some?
    ensures InSeries(ZoneOf(env, t), NextAfterRun(env.zones, t, scheduledFor, now).value.value, start, DayStep(t))
  {
    hide InSeries, IsStart, NextWallClock, DayStep;
    SearchStaysInSeries(env, t, scheduledFor, now, start);
  }

  lemma FinishStaysOnClock(env: Environment, a: Automation, i: nat, outcome: Outcome, now: int, k: nat, start: LocalTime)
    requires Healthy(a, now) && OnClock(env, a, k, start) && Permitted(a, DoFinish(i, outcome), now)
    requires ShowsWhatItReads(ZoneOf(env, a.trigger)) && IsStart(start.date)
    requires FinishRun(env, a, i, outcome, now).Ok?
    ensures OnClock(env, FinishRun(env, a, i, outcome, now).value, k, start)
  {
    hide NextAfterRun, CompletionReasonOf, InSeries, IsStart, DayStep, ShowsWhatItReads;
    var b := FinishRun(env, a, i, outcome, now).value;
    ReplaceLastKeeps(a, b, b.runs[i]);
    assert IsOpen(a.runs[i]);
    assert !HasOpenRun(b) by { OpenRunIsLast(b); }
    if a.status == Active && a.nextWakeAt.None? && NextAfterRun(env.zones, a.trigger, a.runs[i].scheduledFor, now).Ok? {
      assert k <= i;
      NextAfterRunStaysInSeries(env, a.trigger, a.runs[i].scheduledFor, now, start);
    }
  }

  lemma RecoverStaysOnClock(env: Environment, a: Automation, i: nat, now: int, k: nat, start: LocalTime)
    requires Healthy(a, now) && OnClock(env, a, k, start) && k <= i && RecoverRun(env, a, i, now).Ok?
    requires ShowsWhatItReads(ZoneOf(env, a.trigger)) && IsStart(start.date)
    ensures OnClock(env, RecoverRun(env, a, i, now).value, k, start)
  {
    hide NextAfterRun, CompletionReasonOf, InSeries, IsStart, DayStep, ShowsWhatItReads;
    var b := RecoverRun(env, a, i, now).value;
    if i < |a.runs| && IsUnderWay(a.runs[i]) {
      ReplaceLastKeeps(a, b, b.runs[i]);
      assert !HasOpenRun(b) by { OpenRunIsLast(b); }
      if NextAfterRun(env.zones, a.trigger, a.runs[i].scheduledFor, now).Ok? {
        NextAfterRunStaysInSeries(env, a.trigger, a.runs[i].scheduledFor, now, start);
      }
    }
  }

  lemma StepStaysOnClock(env: Environment, a: Automation, e: RowEvent, now: int, k: nat, start: LocalTime)
    requires ValidEnvironment(env) && Healthy(a, now) && Permitted(a, e, now)
    requires OnClock(env, a, k, start) && KeepsAnchor(a, e, k) && ShowsWhatItReads(ZoneOf(env, a.trigger)) && IsStart(start.date)
    ensures OnClock(env, Step(env, a, e, now), k, start) && Step(env, a, e, now).trigger == a.trigger
  {
    hide FinishRun, RecoverRun, NextOnResume, InSeries, IsStart, DayStep, ShowsWhatItReads, NormalizeStopPolicy, StopRuns;
    var b := Step(env, a, e, now);
    match e
    case DoClaim(t) => if b != a { ClaimInsertsFreshRun(a, t, now); }
    case DoFinish(i, outcome) =>
      FinishKeepsTrigger(env, a, i, outcome, now);
      if FinishRun(env, a, i, outcome, now).Ok? { FinishStaysOnClock(env, a, i, outcome, now, k, start); }
    case DoRecover(i) =>
      FinishKeepsTrigger(env, a, i, OutcomeSucceeded, now);
      if RecoverRun(env, a, i, now).Ok? { RecoverStaysOnClock(env, a, i, now, k, start); }
    case DoPrepare(i, traceId) =>
      if b != a {
        assert IsOpen(a.runs[i]);
        assert forall j :: 0 <= j < |a.runs| ==> b.runs[j].scheduledFor == a.runs[j].scheduledFor;
      }
    case DoRequeue(i) =>
      if b != a {
        assert IsOpen(a.runs[i]);
        assert forall j :: 0 <= j < |a.runs| ==> b.runs[j].scheduledFor == a.runs[j].scheduledFor;
      }
    case DoUpdate(_) => assert b.runs == a.runs;
    case DoPause => if b.runs == StopRuns(a.runs) { StoppedKeepsTimes(a, b); }
    case DoCancel => if b.runs == StopRuns(a.runs) { StoppedKeepsTimes(a, b); }
    case DoDeleteConversation => StoppedKeepsTimes(a, b);
    case _ => assert b.runs == a.runs;
  }

  lemma FinishKeepsTrigger(env: Environment, a: Automation, i: nat, outcome: Outcome, now: int)
    ensures FinishRun(env, a, i, outcome, now).Ok? ==> FinishRun(env, a, i, outcome, now).value.trigger == a.trigger
    ensures RecoverRun(env, a, i, now).Ok? ==> RecoverRun(env, a, i, now).value.trigger == a.trigger
  {
    hide NextAfterRun, CompletionReasonOf;
  }

  // ---------------------------------------------------------------- whole runs

  /**
   Between re-anchoring steps, over any run of the system, every claimed and every waiting time of a daily or weekly automation shows
   the local time of the anchor, on a date that is a whole number of steps after the anchor's.
   */
  lemma {:induction false} LocalTimeIsKept(env: Environment, s: System, events: seq<Event>, id: AutomationId, k: nat, start: LocalTime)
    requires ValidEnvironment(env) && Inv(s) && Feasible(env, s, events) && IsStart(start.date)
    requires id in s.table && OnClock(env, s.table[id], k, start) && AnchorIsKept(env, s, events, id, k)
    requires ShowsWhatItReads(ZoneOf(env, s.table[id].trigger))
    ensures id in After(env, s, events).table && OnClock(env, After(env, s, events).table[id], k, start)
    ensures After(env, s, events).table[id].trigger == s.table[id].trigger
    decreases |events|
  {
    hide Inv, Enabled, Apply, InSeries, Step, ShareOf, Permitted, KeepsAnchor, IsStart, ShowsWhatItReads, HasOpenRun;
    if events != [] {
      var e := events[0];
      EventKeepsInv(env, s, e);
      EventOnOneAutomation(env, s, e, id);
      var share := ShareOf(s, e, id);
      if share.Some? {
        EnabledIsLater(s, e);
        HealthyAt(s, id, e.now);
        StepStaysOnClock(env, s.table[id], share.value, e.now, k, start);
      }
      LocalTimeIsKept(env, Apply(env, s, e), events[1..], id, k, start);
    }
  }

  /** A point of a series shows the time of day of its start, a whole number of steps in days later. */
  lemma SeriesKeepsTimeOfDay(zone: Zone, t: int, start: LocalTime, step: nat)
    requires InSeries(zone, t, start, step) && IsStart(start.date) && step > 0
    ensures zone.format(t).second == start.second
    ensures OnGrid(DayNumber(zone.format(t).date), DayNumber(start.date), step)
  {
    hide IsStart, DateAfter, DayNumber;
    var j: nat :| ShowsAt(zone, t, start, step, j);
    DatesStayInRange(start.date, j * step);
    assert DayNumber(zone.format(t).date) == GridPoint(DayNumber(start.date), step, j);
  }

  /**
   From any reachable state: the local time at which a daily or weekly automation waits to wake is the local time of every run it gets
   until the next anchor, on days that are whole numbers of steps apart.
   */
  lemma WaitingLocalTimeIsKept(env: Environment, before: seq<Event>, after: seq<Event>, id: AutomationId, anchor: int)
    requires ValidEnvironment(env) && Feasible(env, Start(), before)
    requires var s := After(env, Start(), before);
      && Feasible(env, s, after) && id in s.table && s.table[id].nextWakeAt == Some(anchor)
      && UsesWallClock(s.table[id].trigger) && AnchorIsKept(env, s, after, id, |s.table[id].runs|)
      && ShowsWhatItReads(ZoneOf(env, s.table[id].trigger))
      && IsStart(ZoneOf(env, s.table[id].trigger).format(anchor).date)
      && DayNumber(ZoneOf(env, s.table[id].trigger).format(anchor).date) <= MAX_DAY
    ensures var a := After(env, Start(), before).table[id];
      var zone, step := ZoneOf(env, a.trigger), DayStep(a.trigger);
      var t := After(env, After(env, Start(), before), after);
      && id in t.table && t.table[id].trigger == a.trigger && step > 0
      && forall i :: |a.runs| <= i < |t.table[id].runs| ==>
        var shown := zone.format(t.table[id].runs[i].scheduledFor);
        shown.second == zone.format(anchor).second && OnGrid(DayNumber(shown.date), DayNumber(zone.format(anchor).date), step)
  {
    hide After, Feasible, AnchorIsKept, InSeries, IsStart, ShowsWhatItReads, DayNumber;
    var s := After(env, Start(), before);
    var a := s.table[id];
    var start := ZoneOf(env, a.trigger).format(anchor);
    assert Inv(Start());
    RunsKeepInv(env, Start(), before);
    AnchorsStartASeries(env, a, anchor);
    LocalTimeIsKept(env, s, after, id, |a.runs|, start);
    var b := After(env, s, after).table[id];
    forall i | |a.runs| <= i < |b.runs|
      ensures ZoneOf(env, a.trigger).format(b.runs[i].scheduledFor).second == start.second
      ensures OnGrid(DayNumber(ZoneOf(env, a.trigger).format(b.runs[i].scheduledFor).date), DayNumber(start.date), DayStep(a.trigger))
    {
      SeriesKeepsTimeOfDay(ZoneOf(env, a.trigger), b.runs[i].scheduledFor, start, DayStep(a.trigger));
    }
  }
}
