/**
 When an automation runs next, and when it ends.
 Times are milliseconds since the epoch. A time zone is a pair of functions, one in each direction,
 about which nothing is assumed: local times may be missing, repeated or unreadable.
 */
module AutomationLifecycle {
  import opened Wrappers
  import opened CivilCalendar

  /**
   The unit of an interval. The table of units is an object literal that is asked with any text, so the names every object inherits
   pass for units as well; their length is no number.
   */
  datatype RepeatUnit = Minute | Hour | Day | Week | Inherited(name: string)

  function UnitMs(unit: RepeatUnit): (ms: int)
    requires !unit.Inherited?
    ensures ms > 0
  {
    match unit
    case Minute => 60_000
    case Hour => 3_600_000
    case Day => 86_400_000
    case Week => 604_800_000
  }

  /** The properties of Object.prototype, sections 20.1.3 and B.2.2 of ECMA-262. */
  const INHERITED_NAMES := {
    "constructor", "hasOwnProperty", "isPrototypeOf", "propertyIsEnumerable", "toLocaleString", "toString", "valueOf",
    "__proto__", "__defineGetter__", "__defineSetter__", "__lookupGetter__", "__lookupSetter__"}

  type Every = n: int | 1 <= n <= 10_000 witness 1
  type MaxRuns = n: int | 1 <= n <= 1_000_000 witness 1

  datatype Trigger =
    | Once(runAt: int, timeZone: Option<string>)
    | Interval(firstRunAt: Option<int>, every: Every, unit: RepeatUnit, timeZone: Option<string>)

  datatype StopPolicy = StopPolicy(expiresAt: Option<int>, maxRuns: Option<MaxRuns>, hasCondition: bool, indefinite: bool)

  datatype DeliveryMode = Always | OnCompletion

  datatype CompletionReason = OnceCompleted | MaxRunsReached | Expired | ScheduleCompleted | Stated(text: string)

  datatype LifecycleError =
    | RunAtInvalid | IntervalInvalid | TriggerInvalid | MaxRunsInvalid | ExpiresAtInvalid | IndefiniteStopConflict
    | WakeUpIsNoDate

  /** A civil date and the second of the day shown by the wall clock. */
  datatype LocalTime = LocalTime(date: CivilDate, second: int)

  /** formatLocalDateTime and parseDateTimeInZone of one zone; parse gives None where the source gives null. */
  datatype Zone = Zone(format: int -> LocalTime, parse: LocalTime -> Option<int>)

  type Zones = string -> Zone

  const WALL_CLOCK_GUARD: int := 10_000

  /** What the JSON of a request says about a point in time: nothing, something unreadable, or a time. */
  datatype WhenInput = Absent | Unreadable | At(time: int)

  datatype TriggerInput = TriggerInput(kind: string, runAt: WhenInput, every: Option<int>, unit: string, timeZone: Option<string>)

  datatype StopInput = StopInput(indefinite: bool, maxRuns: Option<Option<int>>, hasCondition: bool, expiresAt: WhenInput)

  // ---------------------------------------------------------------- normalising requests

  function ReadUnit(text: string): Option<RepeatUnit> {
    if text == "minute" then Some(Minute) else if text == "hour" then Some(Hour)
    else if text == "day" then Some(Day) else if text == "week" then Some(Week)
    else if text in INHERITED_NAMES then Some(Inherited(text)) else None
  }

  function FutureDate(when: WhenInput, error: LifecycleError, now: int, allowNow: bool): Result<int, LifecycleError> {
    if !when.At? || (if allowNow then when.time < now else when.time <= now) then Err(error) else Ok(when.time)
  }

  /** The wake-up is None where the source computes a date that is no date. */
  function NormalizeTrigger(input: TriggerInput, now: int): (r: Result<(Trigger, Option<int>), LifecycleError>)
    ensures r.Ok? && r.value.1.Some? ==> now <= r.value.1.value
    ensures r.Ok? && r.value.1 == Some(now) ==> r.value.0.Interval? && r.value.0.firstRunAt == Some(now)
    ensures r.Ok? ==> (r.value.1.None? <==> r.value.0.Interval? && r.value.0.unit.Inherited? && r.value.0.firstRunAt.None?)
  {
    if input.kind == "once" then
      match FutureDate(input.runAt, RunAtInvalid, now, false)
      case Err(e) => Err(e)
      case Ok(runAt) => Ok((Once(runAt, input.timeZone), Some(runAt)))
    else if input.kind == "interval" then
      var unit := ReadUnit(input.unit);
      if input.every.None? || !(1 <= input.every.value <= 10_000) || unit.None? then
        Err(IntervalInvalid)
      else if input.runAt.Absent? then
        Ok((Interval(None, input.every.value, unit.value, input.timeZone),
            if unit.value.Inherited? then None else Some(now + input.every.value * UnitMs(unit.value))))
      else
        match FutureDate(input.runAt, RunAtInvalid, now, true)
        case Err(e) => Err(e)
        case Ok(runAt) => Ok((Interval(Some(runAt), input.every.value, unit.value, input.timeZone), Some(runAt)))
    else
      Err(TriggerInvalid)
  }

  /** The limit a request sets: a number that is no integer reads as none. */
  function LimitOf(input: StopInput): Option<int> {
    if input.maxRuns.Some? then input.maxRuns.value else None
  }

  /** maxRuns is None when the field is missing, Some(None) when it is present but no integer, which the source reads alike. */
  function NormalizeStopPolicy(input: StopInput, now: int, applyDefaultLifetime: bool, lifetimeDays: nat)
    : (r: Result<StopPolicy, LifecycleError>)
    requires 1 <= lifetimeDays
    ensures r.Ok? && r.value.expiresAt.Some? ==> now < r.value.expiresAt.value
    ensures r.Ok? && r.value.indefinite ==> r.value.expiresAt.None? && r.value.maxRuns.None? && !r.value.hasCondition
    ensures r.Ok? && input.expiresAt.Absent? ==>
      (r.value.expiresAt.Some? <==> applyDefaultLifetime && r.value.maxRuns.None? && !r.value.hasCondition && !r.value.indefinite)
  {
    var limit := LimitOf(input);
    if limit.Some? && !(1 <= limit.value <= 1_000_000) then
      Err(MaxRunsInvalid)
    else
      var maxRuns: Option<MaxRuns> := if limit.Some? then Some(limit.value) else None;
      if !input.expiresAt.Absent? && FutureDate(input.expiresAt, ExpiresAtInvalid, now, false).Err? then
        Err(ExpiresAtInvalid)
      else
        var expiresAt := if input.expiresAt.Absent? then None else Some(input.expiresAt.time);
        if input.indefinite && (expiresAt.Some? || maxRuns.Some? || input.hasCondition) then
          Err(IndefiniteStopConflict)
        else
          var unbounded := expiresAt.None? && maxRuns.None? && !input.hasCondition && !input.indefinite;
          var lasting := if applyDefaultLifetime && unbounded then Some(now + lifetimeDays * 86_400_000) else expiresAt;
          Ok(StopPolicy(lasting, maxRuns, input.hasCondition, input.indefinite))
  }

  // ---------------------------------------------------------------- the next wake-up

  predicate HasLength(t: Trigger) {
    t.Interval? && !t.unit.Inherited?
  }

  function IntervalMs(t: Trigger): (ms: int)
    requires HasLength(t)
    ensures ms > 0
  {
    t.every * UnitMs(t.unit)
  }

  predicate UsesWallClock(t: Trigger) {
    t.Interval? && (t.unit == Day || t.unit == Week) && t.timeZone.Some?
  }

  function DayStep(t: Trigger): (d: int)
    requires t.Interval?
    ensures d >= 1
  {
    t.every * (if t.unit == Week then 7 else 1)
  }

  /** The first point of the grid through `from` that lies after both `from` and `now`. */
  function NextGridPoint(from: int, interval: int, now: int): int
    requires interval > 0
  {
    var elapsed := (now - from) / interval + 1;
    from + interval * (if elapsed > 1 then elapsed else 1)
  }

  /** The loop of nextWallClockOccurrence from its guard-th round on; None is a date that is not a date. */
  function WallClockFrom(zone: Zone, local: Option<CivilDate>, second: int, step: int, guard: nat, now: int)
    : Result<int, LifecycleError>
    decreases WALL_CLOCK_GUARD - guard
  {
    if guard >= WALL_CLOCK_GUARD then Err(IntervalInvalid) else
      var shifted := ShiftLocal(local, step);
      var next := ReadLocal(zone, shifted, second);
      if next.Some? && next.value > now then Ok(next.value)
      else WallClockFrom(zone, shifted, second, step, guard + 1, now)
  }

  function ShiftLocal(local: Option<CivilDate>, step: int): Option<CivilDate> {
    if local.None? then None else ShiftDate(local.value, step)
  }

  function ReadLocal(zone: Zone, local: Option<CivilDate>, second: int): Option<int> {
    if local.None? then None else zone.parse(LocalTime(local.value, second))
  }

  function NextWallClock(zones: Zones, t: Trigger, from: int, now: int): (r: Result<int, LifecycleError>)
    requires UsesWallClock(t)
  {
    var zone := zones(t.timeZone.value);
    var local := zone.format(from);
    WallClockFrom(zone, Some(local.date), local.second, DayStep(t), 0, now)
  }

  function NextAfterRun(zones: Zones, t: Trigger, scheduledFor: int, now: int): Result<Option<int>, LifecycleError> {
    if t.Once? then Ok(None)
    else if UsesWallClock(t) then
      match NextWallClock(zones, t, scheduledFor, now)
      case Ok(next) => Ok(Some(next))
      case Err(e) => Err(e)
    else if t.unit.Inherited? then Err(WakeUpIsNoDate)
    else Ok(Some(NextGridPoint(scheduledFor, IntervalMs(t), now)))
  }

  function NextOnResume(zones: Zones, t: Trigger, now: int): Result<int, LifecycleError> {
    if t.Once? then
      Ok(if t.runAt > now then t.runAt else now + 1_000)
    else if t.firstRunAt.Some? && t.firstRunAt.value > now then
      Ok(t.firstRunAt.value)
    else if UsesWallClock(t) && t.firstRunAt.Some? then
      NextWallClock(zones, t, t.firstRunAt.value, now)
    else if t.unit.Inherited? then
      Err(WakeUpIsNoDate)
    else
      Ok(now + IntervalMs(t))
  }

  function ShouldStopBeforeRun(expiresAt: Option<int>, now: int): bool {
    expiresAt.Some? && expiresAt.value <= now
  }

  function CompletionReasonOf(t: Trigger, policy: StopPolicy, runCount: int, expiresAt: Option<int>, now: int)
    : Option<CompletionReason>
  {
    if t.Once? then Some(OnceCompleted)
    else if policy.maxRuns.Some? && runCount >= policy.maxRuns.value then Some(MaxRunsReached)
    else if ShouldStopBeforeRun(expiresAt, now) then Some(Expired)
    else None
  }

  // ---------------------------------------------------------------- the loops of the source

  /** nextAfterRun of the source: a loop that adds one interval at a time. */
  method ComputeNextAfterRun(zones: Zones, t: Trigger, scheduledFor: int, now: int)
    returns (r: Result<Option<int>, LifecycleError>)
    ensures r == NextAfterRun(zones, t, scheduledFor, now)
  {
    if t.Once? {
      return Ok(None);
    }
    if UsesWallClock(t) {
      var wall := ComputeNextWallClock(zones, t, scheduledFor, now);
      return if wall.Ok? then Ok(Some(wall.value)) else Err(wall.error);
    }
    if t.unit.Inherited? {
      return Err(WakeUpIsNoDate);
    }
    var interval := IntervalMs(t);
    var next := scheduledFor + interval;
    ghost var rounds := 1;
    while next <= now
      invariant next == scheduledFor + rounds * interval && rounds >= 1
      invariant rounds > 1 ==> next - interval <= now
      decreases now - next
    {
      next := next + interval;
      rounds := rounds + 1;
    }
    GridPointUnique(scheduledFor, interval, now, rounds);
    return Ok(Some(next));
  }

  /** nextWallClockOccurrence of the source: at most ten thousand shifts of the local date. */
  method ComputeNextWallClock(zones: Zones, t: Trigger, from: int, now: int) returns (r: Result<int, LifecycleError>)
    requires UsesWallClock(t)
    ensures r == NextWallClock(zones, t, from, now)
  {
    hide ShiftLocal;
    var zone := zones(t.timeZone.value);
    var step := DayStep(t);
    var start := zone.format(from);
    var local := Some(start.date);
    for guard := 0 to WALL_CLOCK_GUARD
      invariant NextWallClock(zones, t, from, now) == WallClockFrom(zone, local, start.second, step, guard, now)
    {
      local := ShiftLocal(local, step);
      var next := ReadLocal(zone, local, start.second);
      if next.Some? && next.value > now {
        return Ok(next.value);
      }
    }
    return Err(IntervalInvalid);
  }

  // ---------------------------------------------------------------- what the next wake-up means

  lemma GridPointUnique(from: int, interval: int, now: int, k: int)
    requires interval > 0 && k >= 1
    requires from + k * interval > now
    requires k > 1 ==> from + k * interval - interval <= now
    ensures NextGridPoint(from, interval, now) == from + k * interval
  {
    var q := (now - from) / interval;
    DivisionBounds(now - from, interval);
    assert k * interval > now - from >= q * interval;
    ProductOrder(q, k, interval);
    if k > 1 {
      assert (k - 1) * interval <= now - from < (q + 1) * interval;
      ProductOrder(k - 1, q + 1, interval);
    }
  }

  lemma DivisionBounds(x: int, d: int)
    requires d > 0
    ensures (x / d) * d <= x < (x / d + 1) * d
  {
  }

  lemma ProductOrder(a: int, b: int, d: int)
    requires d > 0 && a * d < b * d
    ensures a < b
  {
    if b < a {
      ProductMonotone(b, a, d);
    }
  }

  lemma ProductMonotone(a: int, b: int, d: int)
    requires d > 0 && a <= b
    ensures a * d <= b * d
  {
    assert (b - a) * d >= 0;
  }

  function GridPoint(anchor: int, interval: int, k: int): int {
    anchor + k * interval
  }

  /** x lies a whole number of intervals before or after the anchor. */
  ghost predicate OnGrid(x: int, anchor: int, interval: int) {
    exists k: int :: x == GridPoint(anchor, interval, k)
  }

  /** Drift-free: the next wake-up is on the grid of the run that just ended, after now, and no grid point lies between. */
  lemma NextGridPointIsLeast(from: int, interval: int, now: int)
    requires interval > 0
    ensures var next := NextGridPoint(from, interval, now);
      && next > now && next > from && OnGrid(next, from, interval)
      && forall k: int :: k >= 1 && GridPoint(from, interval, k) > now ==> next <= GridPoint(from, interval, k)
  {
    var next := NextGridPoint(from, interval, now);
    var q := (now - from) / interval;
    var m := if q + 1 > 1 then q + 1 else 1;
    DivisionBounds(now - from, interval);
    assert next == GridPoint(from, interval, m);
    if q + 1 <= 1 {
      ProductMonotone(q + 1, 1, interval);
    }
    forall k: int | k >= 1 && GridPoint(from, interval, k) > now
      ensures next <= GridPoint(from, interval, k)
    {
      ProductOrder(q, k, interval);
      ProductMonotone(m, k, interval);
    }
  }

  lemma GridIsTransitive(x: int, y: int, anchor: int, interval: int)
    requires OnGrid(x, y, interval) && OnGrid(y, anchor, interval)
    ensures OnGrid(x, anchor, interval)
  {
    var j: int :| x == GridPoint(y, interval, j);
    var k: int :| y == GridPoint(anchor, interval, k);
    assert x == GridPoint(anchor, interval, j + k) by {
      assert (j + k) * interval == j * interval + k * interval;
    }
  }

  /** Whatever the zone does, a next wake-up that is returned lies after now: a finished run never wakes in the past. */
  lemma {:induction false} WallClockIsLater(zone: Zone, local: Option<CivilDate>, second: int, step: int, guard: nat, now: int)
    requires WallClockFrom(zone, local, second, step, guard, now).Ok?
    ensures WallClockFrom(zone, local, second, step, guard, now).value > now
    decreases WALL_CLOCK_GUARD - guard
  {
    hide ShiftLocal;
    var shifted := ShiftLocal(local, step);
    var next := ReadLocal(zone, shifted, second);
    if !(next.Some? && next.value > now) {
      WallClockIsLater(zone, shifted, second, step, guard + 1, now);
    }
  }

  lemma NextAfterRunIsLater(zones: Zones, t: Trigger, scheduledFor: int, now: int)
    requires NextAfterRun(zones, t, scheduledFor, now).Ok?
    ensures NextAfterRun(zones, t, scheduledFor, now).value.Some? ==> NextAfterRun(zones, t, scheduledFor, now).value.value > now
  {
    if UsesWallClock(t) {
      var zone := zones(t.timeZone.value);
      var local := zone.format(scheduledFor);
      WallClockIsLater(zone, Some(local.date), local.second, DayStep(t), 0, now);
    } else if HasLength(t) {
      NextGridPointIsLeast(scheduledFor, IntervalMs(t), now);
    }
  }

  /** A resumed automation wakes later than now: at its first time if that is still ahead, a missed single run in a second. */
  lemma NextOnResumeIsLater(zones: Zones, t: Trigger, now: int)
    requires NextOnResume(zones, t, now).Ok?
    ensures NextOnResume(zones, t, now).value > now
    ensures t.Once? ==> NextOnResume(zones, t, now).value in {t.runAt, now + 1_000}
    ensures t.Interval? && t.firstRunAt.Some? && t.firstRunAt.value > now ==> NextOnResume(zones, t, now).value == t.firstRunAt.value
  {
    if UsesWallClock(t) && t.firstRunAt.Some? && t.firstRunAt.value <= now {
      var zone := zones(t.timeZone.value);
      var local := zone.format(t.firstRunAt.value);
      WallClockIsLater(zone, Some(local.date), local.second, DayStep(t), 0, now);
    }
  }

  // ---------------------------------------------------------------- what a request says and what is stored

  function UnitName(unit: RepeatUnit): string {
    match unit case Minute => "minute" case Hour => "hour" case Day => "day" case Week => "week" case Inherited(name) => name
  }

  /** Four units are named, each in one way, and are multiples of each other; besides, twelve inherited names pass for units. */
  lemma UnitsAreNamedAndNested(text: string, unit: RepeatUnit)
    ensures ReadUnit(text) == Some(unit) <==> text == UnitName(unit) && (unit.Inherited? ==> unit.name in INHERITED_NAMES)
    ensures UnitMs(Week) == 7 * UnitMs(Day) && UnitMs(Day) == 24 * UnitMs(Hour)
    ensures UnitMs(Hour) == 60 * UnitMs(Minute) && UnitMs(Minute) == 60_000
  {
  }

  /** Only days and weeks in a named zone follow the wall clock; there, the step in days is the interval. */
  lemma WallClockIsForDaysAndWeeks(zones: Zones, t: Trigger, scheduledFor: int, now: int)
    requires HasLength(t)
    ensures t.timeZone.None? || t.unit == Minute || t.unit == Hour ==>
      NextAfterRun(zones, t, scheduledFor, now) == Ok(Some(NextGridPoint(scheduledFor, IntervalMs(t), now)))
    ensures t.timeZone.Some? && (t.unit == Day || t.unit == Week) ==>
      UsesWallClock(t) && DayStep(t) * 86_400_000 == IntervalMs(t)
  {
    hide NextGridPoint, NextWallClock;
  }

  /** Away from the wall clock an interval can be followed, after a run and on resuming, exactly when its unit is no inherited name. */
  lemma OnlyInheritedUnitsHaveNoNext(zones: Zones, t: Trigger, scheduledFor: int, now: int)
    requires t.Interval? && !UsesWallClock(t)
    ensures NextAfterRun(zones, t, scheduledFor, now).Err? <==> t.unit.Inherited?
    ensures NextOnResume(zones, t, now).Err? <==> t.unit.Inherited? && !(t.firstRunAt.Some? && t.firstRunAt.value > now)
  {
    hide NextGridPoint;
  }

  /** A request for an interval of one "constructor" is accepted when it names its first run. */
  lemma InheritedUnitIsAccepted(now: int)
    ensures NormalizeTrigger(TriggerInput("interval", At(now + 1), Some(1), "constructor", None), now)
         == Ok((Interval(Some(now + 1), 1, Inherited("constructor"), None), Some(now + 1)))
  {
  }

  /** Which triggers are accepted, and what is stored: everything as named, and when it wakes first. */
  lemma TriggersAreKept(input: TriggerInput, now: int)
    ensures var r := NormalizeTrigger(input, now);
      && (input.kind == "once" ==>
            && (r.Ok? <==> input.runAt.At? && input.runAt.time > now)
            && (r.Ok? ==> r.value == (Once(input.runAt.time, input.timeZone), Some(input.runAt.time)))
            && (r.Err? ==> r.error == RunAtInvalid))
      && (input.kind == "interval" ==>
            && (r == Err(IntervalInvalid) <==>
                  input.every.None? || input.every.value < 1 || input.every.value > 10_000
                  || input.unit !in {"minute", "hour", "day", "week"} + INHERITED_NAMES)
            && (r.Err? && r.error != IntervalInvalid ==> r.error == RunAtInvalid)
            && (r == Err(RunAtInvalid) ==> input.runAt == Unreadable || (input.runAt.At? && input.runAt.time < now))
            && (r.Ok? ==>
                  && input.runAt != Unreadable && (input.runAt.At? ==> input.runAt.time >= now)
                  && r.value.0.Interval? && r.value.0.every == input.every.value && r.value.0.timeZone == input.timeZone
                  && UnitName(r.value.0.unit) == input.unit
                  && (input.runAt.At? ==> r.value.0.firstRunAt == Some(input.runAt.time) && r.value.1 == Some(input.runAt.time))
                  && (input.runAt.Absent? ==>
                        r.value.0.firstRunAt.None?
                        && (r.value.0.unit.Inherited? || r.value.1 == Some(now + input.every.value * UnitMs(r.value.0.unit))))))
      && (input.kind != "once" && input.kind != "interval" ==> r == Err(TriggerInvalid))
  {
  }

  /** A stored policy, read again as a request. */
  function AsStopInput(policy: StopPolicy): StopInput {
    StopInput(policy.indefinite,
              if policy.maxRuns.Some? then Some(Some(policy.maxRuns.value)) else None,
              policy.hasCondition,
              if policy.expiresAt.Some? then At(policy.expiresAt.value) else Absent)
  }

  predicate IsUnbounded(policy: StopPolicy) {
    policy.expiresAt.None? && policy.maxRuns.None? && !policy.hasCondition && !policy.indefinite
  }

  /**
   Reading an accepted policy again, as an update does, gives it back unchanged until it has expired; only a policy without any
   bound gets the default lifetime when a repeating trigger asks for one.
   */
  lemma StoredPolicyIsStable(input: StopInput, now: int, lasting: bool, days: nat, later: int, lastingThen: bool)
    requires 1 <= days && NormalizeStopPolicy(input, now, lasting, days).Ok?
    ensures var p := NormalizeStopPolicy(input, now, lasting, days).value;
      NormalizeStopPolicy(AsStopInput(p), later, lastingThen, days) ==
        if p.expiresAt.Some? && p.expiresAt.value <= later then Err(ExpiresAtInvalid)
        else if lastingThen && IsUnbounded(p) then Ok(p.(expiresAt := Some(later + days * UnitMs(Day))))
        else Ok(p)
  {
  }

  /** Which policies are accepted, and what becomes of what they name: a limit that is no integer is neither refused nor kept. */
  lemma LimitsAreKept(input: StopInput, now: int, lasting: bool, days: nat)
    requires 1 <= days
    ensures var r, limit := NormalizeStopPolicy(input, now, lasting, days), LimitOf(input);
      && (r.Ok? <==>
            (&& (limit.Some? ==> 0 < limit.value < 1_000_001)
             && (input.expiresAt.Absent? || (input.expiresAt.At? && now < input.expiresAt.time))
             && (input.indefinite ==> input.expiresAt.Absent? && limit.None? && !input.hasCondition)))
      && (r.Ok? ==>
            && r.value.indefinite == input.indefinite && r.value.hasCondition == input.hasCondition
            && (r.value.maxRuns.Some? <==> limit.Some?)
            && (limit.Some? ==> r.value.maxRuns == limit)
            && (input.expiresAt.At? ==> r.value.expiresAt == Some(input.expiresAt.time))
            && (r.value.expiresAt.Some? && input.expiresAt.Absent? ==> r.value.expiresAt == Some(now + days * 86_400_000)))
      && (r == Err(MaxRunsInvalid) <==> limit.Some? && (limit.value < 1 || limit.value > 1_000_000))
      && (r == Err(ExpiresAtInvalid) <==>
            && (limit.Some? ==> 1 <= limit.value <= 1_000_000)
            && (input.expiresAt == Unreadable || (input.expiresAt.At? && input.expiresAt.time <= now)))
      && (r.Err? ==> r.error in {MaxRunsInvalid, ExpiresAtInvalid, IndefiniteStopConflict})
  {
  }

  /** An accepted request gets the limit it names if and only if what it names is an integer. */
  lemma NamedLimitIsEnforcedIff(input: StopInput, now: int, lasting: bool, days: nat)
    requires 1 <= days && input.maxRuns.Some? && NormalizeStopPolicy(input, now, lasting, days).Ok?
    ensures NormalizeStopPolicy(input, now, lasting, days).value.maxRuns.Some? <==> input.maxRuns.value.Some?
  {
  }

  /** "Ten" runs are accepted, and the automation runs without a limit until the default lifetime ends. */
  lemma UnreadableLimitIsDropped(now: int, days: nat)
    requires 1 <= days
    ensures NormalizeStopPolicy(StopInput(false, Some(None), false, Absent), now, true, days)
         == Ok(StopPolicy(Some(now + days * UnitMs(Day)), None, false, false))
  {
  }

  // ---------------------------------------------------------------- wall-clock recurrence

  /** The civil date a number of days after c, when a `Date` can hold it. */
  function DateAfter(c: CivilDate, days: int): Option<CivilDate> {
    if -MAX_DAY <= DayNumber(c) + days <= MAX_DAY then Some(CivilFromDay(DayNumber(c) + days)) else None
  }

  /** dates(k) is the date string after k rounds of the loop. */
  ghost predicate RoundsOf(dates: nat -> Option<CivilDate>, step: int) {
    forall k: nat :: dates(k + 1) == ShiftLocal(dates(k), step)
  }

  ghost predicate OccursAfter(zone: Zone, dates: nat -> Option<CivilDate>, second: int, k: nat, now: int) {
    && dates(k).Some?
    && var t := zone.parse(LocalTime(dates(k).value, second)); t.Some? && t.value > now
  }

  /** r is the instant of the least k above `above` and within the guard that occurs after now, or an error if none does. */
  ghost predicate LeastOccurrence(r: Result<int, LifecycleError>, zone: Zone, dates: nat -> Option<CivilDate>, second: int,
                                  above: nat, now: int)
  {
    match r
    case Ok(t) => (exists k: nat ::
      && above < k <= WALL_CLOCK_GUARD && OccursAfter(zone, dates, second, k, now)
      && zone.parse(LocalTime(dates(k).value, second)) == Some(t)
      && forall j: nat :: above < j < k ==> !OccursAfter(zone, dates, second, j, now))
    case Err(_) => forall j: nat :: above < j <= WALL_CLOCK_GUARD ==> !OccursAfter(zone, dates, second, j, now)
  }

  lemma {:induction false} LoopFindsLeast(zone: Zone, dates: nat -> Option<CivilDate>, second: int, step: int, guard: nat, now: int)
    requires RoundsOf(dates, step)
    requires guard <= WALL_CLOCK_GUARD
    ensures LeastOccurrence(WallClockFrom(zone, dates(guard), second, step, guard, now), zone, dates, second, guard, now)
    decreases WALL_CLOCK_GUARD - guard
  {
    hide ShiftLocal;
    if guard < WALL_CLOCK_GUARD {
      assert dates(guard + 1) == ShiftLocal(dates(guard), step);
      if !OccursAfter(zone, dates, second, guard + 1, now) {
        LoopFindsLeast(zone, dates, second, step, guard + 1, now);
      }
    }
  }

  /** Shifting the date string once more is one addition of a step to the civil day number. */
  lemma ShiftAgain(c: CivilDate, days: nat, step: nat)
    requires ValidDate(c) && c.year >= 100 && DayNumber(c) >= -MAX_DAY
    ensures ShiftLocal(DateAfter(c, days), step) == DateAfter(c, days + step)
  {
    hide DayNumber, CivilFromDay, ShiftDate;
    var before := DateAfter(c, days);
    if before.Some? {
      YearsFollowDays(DayNumber(c), DayNumber(c) + days);
      CivilRoundTrip(c);
      ShiftAddsDays(before.value, step);
    }
  }

  /** The dates k * step days after c. */
  function DatesAfter(c: CivilDate, step: nat): nat -> Option<CivilDate> {
    (k: nat) => DateAfter(c, k * step)
  }

  lemma DatesAreRounds(c: CivilDate, step: nat)
    requires ValidDate(c) && c.year >= 100 && DayNumber(c) >= -MAX_DAY
    ensures RoundsOf(DatesAfter(c, step), step)
  {
    hide DateAfter, ShiftLocal;
    var dates := DatesAfter(c, step);
    forall k: nat ensures dates(k + 1) == ShiftLocal(dates(k), step) {
      var days := k * step;
      assert (k + 1) * step == days + step;
      ShiftAgain(c, days, step);
    }
  }

  lemma DatesStartAt(c: CivilDate, step: nat)
    requires ValidDate(c) && -MAX_DAY <= DayNumber(c) <= MAX_DAY
    ensures DatesAfter(c, step)(0) == Some(c)
  {
    hide DayNumber, CivilFromDay;
    CivilRoundTrip(c);
  }

  /**
   The recurrence keeps the local time of day: it returns the least k >= 1 for which the wall clock shows
   that time on the date k steps of days after the last run, after now; it fails exactly when there is none
   within the guard.
   */
  lemma WallClockRecurrence(zones: Zones, t: Trigger, from: int, now: int)
    requires UsesWallClock(t)
    requires var date := zones(t.timeZone.value).format(from).date;
      ValidDate(date) && date.year >= 100 && -MAX_DAY <= DayNumber(date) <= MAX_DAY
    ensures var zone := zones(t.timeZone.value);
      var start := zone.format(from);
      LeastOccurrence(NextWallClock(zones, t, from, now), zone, DatesAfter(start.date, DayStep(t)), start.second, 0, now)
  {
    var zone := zones(t.timeZone.value);
    var start := zone.format(from);
    var dates := DatesAfter(start.date, DayStep(t));
    hide LeastOccurrence, RoundsOf, DateAfter, DayNumber, ValidDate, WallClockFrom, DatesAfter;
    DatesStartAt(start.date, DayStep(t));
    DatesAreRounds(start.date, DayStep(t));
    LoopFindsLeast(zone, dates, start.second, DayStep(t), 0, now);
  }

  /**
   After a run. A single run has no next time; a daily or weekly trigger in a named zone goes on at the local time of the run, on the first
   date of its series that lies ahead; every other interval goes on at the first point of the run's grid after both the run and now.
   */
  lemma TimeAfterRun(zones: Zones, t: Trigger, scheduledFor: int, now: int)
    ensures t.Once? ==> NextAfterRun(zones, t, scheduledFor, now) == Ok(None)
    ensures t.Interval? && t.timeZone.Some? && (t.unit == Day || t.unit == Week) ==> (
      var zone := zones(t.timeZone.value);
      var last := zone.format(scheduledFor);
      var days := if t.unit == Week then 7 * t.every else t.every;
      var next := NextAfterRun(zones, t, scheduledFor, now);
      && (next.Ok? ==> next.value.Some?)
      && (ValidDate(last.date) && last.date.year >= 100 && -MAX_DAY <= DayNumber(last.date) <= MAX_DAY ==>
            LeastOccurrence(if next.Ok? then Ok(next.value.value) else Err(next.error), zone, DatesAfter(last.date, days), last.second, 0, now)))
    ensures (t.Interval? && !t.unit.Inherited? && (t.timeZone.None? || t.unit == Minute || t.unit == Hour)) ==> (
      var interval, next := t.every * UnitMs(t.unit), NextAfterRun(zones, t, scheduledFor, now);
      && next.Ok? && next.value.Some?
      && next.value.value > now && next.value.value > scheduledFor && OnGrid(next.value.value, scheduledFor, interval)
      && forall k: int :: k >= 1 && GridPoint(scheduledFor, interval, k) > now ==> next.value.value <= GridPoint(scheduledFor, interval, k))
  {
    hide NextWallClock, NextGridPoint, LeastOccurrence, DatesAfter, ValidDate, DayNumber, OnGrid, GridPoint;
    if UsesWallClock(t) {
      var date := zones(t.timeZone.value).format(scheduledFor).date;
      if ValidDate(date) && date.year >= 100 && -MAX_DAY <= DayNumber(date) <= MAX_DAY {
        WallClockRecurrence(zones, t, scheduledFor, now);
      }
    } else if HasLength(t) {
      NextGridPointIsLeast(scheduledFor, IntervalMs(t), now);
    }
  }

  /**
   Resuming. What is still ahead stays; a missed single run is made up for in a second; a daily or weekly trigger in a named zone goes on
   at the local time of its first run, on the first date of its series that lies ahead; every other interval starts anew from now.
   */
  lemma ResumedTime(zones: Zones, t: Trigger, now: int)
    ensures t.Once? && t.runAt > now ==> NextOnResume(zones, t, now) == Ok(t.runAt)
    ensures t.Once? && t.runAt <= now ==> NextOnResume(zones, t, now) == Ok(now + 1_000)
    ensures t.Interval? && t.firstRunAt.Some? && t.firstRunAt.value > now ==> NextOnResume(zones, t, now) == Ok(t.firstRunAt.value)
    ensures t.Interval? && t.firstRunAt.Some? && t.firstRunAt.value <= now && t.timeZone.Some? && (t.unit == Day || t.unit == Week) ==> (
      var zone := zones(t.timeZone.value);
      var first := zone.format(t.firstRunAt.value);
      var days := if t.unit == Week then 7 * t.every else t.every;
      ValidDate(first.date) && first.date.year >= 100 && -MAX_DAY <= DayNumber(first.date) <= MAX_DAY ==>
        LeastOccurrence(NextOnResume(zones, t, now), zone, DatesAfter(first.date, days), first.second, 0, now))
    ensures (t.Interval? && !t.unit.Inherited? && (t.firstRunAt.Some? ==> t.firstRunAt.value <= now)
             && (t.firstRunAt.None? || t.timeZone.None? || t.unit == Minute || t.unit == Hour)) ==>
      NextOnResume(zones, t, now) == Ok(now + t.every * UnitMs(t.unit))
  {
    hide NextWallClock, LeastOccurrence, DatesAfter, ValidDate, DayNumber;
    if UsesWallClock(t) && t.firstRunAt.Some? {
      var date := zones(t.timeZone.value).format(t.firstRunAt.value).date;
      if ValidDate(date) && date.year >= 100 && -MAX_DAY <= DayNumber(date) <= MAX_DAY {
        WallClockRecurrence(zones, t, t.firstRunAt.value, now);
      }
    }
  }

  function Weekday(day: int): int {
    (day + 4) % 7
  }

  /** A weekly trigger keeps its day of the week. */
  lemma WeeklyKeepsWeekday(t: Trigger, c: CivilDate, k: nat)
    requires t.Interval? && t.unit == Week
    requires DatesAfter(c, DayStep(t))(k).Some?
    ensures Weekday(DayNumber(DatesAfter(c, DayStep(t))(k).value)) == Weekday(DayNumber(c))
  {
    hide DateAfter, DayNumber;
    var days, weeks := k * DayStep(t), k * t.every;
    assert days == 7 * weeks by {
      assert k * (t.every * 7) == (k * t.every) * 7;
    }
    WeekLater(c, days, weeks);
  }

  lemma WeekLater(c: CivilDate, days: int, weeks: int)
    requires days == 7 * weeks && DateAfter(c, days).Some?
    ensures Weekday(DayNumber(DateAfter(c, days).value)) == Weekday(DayNumber(c))
  {
    WholeWeeks(DayNumber(c), weeks);
  }

  lemma WholeWeeks(day: int, weeks: int)
    ensures Weekday(day + 7 * weeks) == Weekday(day)
  {
  }
}
