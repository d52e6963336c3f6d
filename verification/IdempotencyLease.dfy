/**
 The idempotency protocol of one key: a call marks the key with SET NX PX, runs, and either replaces the marker by
 its result or deletes the key, without checking that the marker is still its own. Redis drops a key once the clock is past its
 expiry. Redis calls and everything between two timers take no time; timers fire on time.
 */
module IdempotencyLease {
  import opened Wrappers

  type CallId = nat
  type ToolResult = string
  type Key = string

  datatype Value = Processing(owner: CallId) | Stored(result: ToolResult)

  datatype Entry = Entry(value: Value, expiresAt: int)

  /** resolveTimeout: the first timeout that is given, but at least 100 milliseconds. */
  function ResolveTimeout(perCall: Option<int>, perTool: Option<int>, registered: Option<int>, default: int): (t: int)
    ensures t >= 100
    ensures t > 100 ==> perCall == Some(t) || perTool == Some(t) || registered == Some(t) || default == t
    ensures perCall.Some? && perCall.value >= 100 ==> t == perCall.value
    ensures perCall.None? && perTool.Some? && perTool.value >= 100 ==> t == perTool.value
    ensures perCall.None? && perTool.None? && registered.Some? && registered.value >= 100 ==> t == registered.value
    ensures perCall.None? && perTool.None? && registered.None? && default >= 100 ==> t == default
    ensures perCall.Some? && perCall.value < 100 ==> t == 100
  {
    Max(100, if perCall.Some? then perCall.value else if perTool.Some? then perTool.value
             else if registered.Some? then registered.value else default)
  }

  /** The lifetime of a marker or result when the call does not choose one. */
  function DefaultTtl(timeoutMs: int): int {
    Max(timeoutMs * 2, 60_000)
  }

  function Alive(e: Option<Entry>, now: int): Option<Entry> {
    if e.Some? && now <= e.value.expiresAt then e else None
  }

  // ---------------------------------------------------------------- all calls with one key

  datatype Phase =
    | Probing
    | Waiting(lockedAt: int)
    | Executing(lockedAt: int, startedAt: int)
    | Answered(result: ToolResult)
    | Refused
    | Succeeded(result: ToolResult)
    | Failed

  datatype Call = Call(timeoutMs: int, ttlMs: int, phase: Phase)

  datatype Lease = Lease(clock: int, entry: Option<Entry>, calls: map<CallId, Call>)

  datatype LeaseEvent =
    | Lock(id: CallId, timeoutMs: int, ttlMs: int)
    | Probe(id: CallId)
    | Begin(id: CallId)
    | Succeed(id: CallId, result: ToolResult)
    | Fail(id: CallId)
    | Tick(to: int)

  predicate InFlight(s: Lease, id: CallId) {
    id in s.calls && (s.calls[id].phase.Waiting? || s.calls[id].phase.Executing?)
  }

  /** When the timer of a call that is in flight fires. */
  function Deadline(queueTimeoutMs: int, c: Call): int
    requires c.phase.Waiting? || c.phase.Executing?
  {
    if c.phase.Waiting? then c.phase.lockedAt + queueTimeoutMs else c.phase.startedAt + c.timeoutMs
  }

  function Enter(s: Lease, id: CallId, phase: Phase): map<CallId, Call>
    requires id in s.calls
  {
    s.calls[id := s.calls[id].(phase := phase)]
  }

  function LeaseStep(s: Lease, e: LeaseEvent): Lease {
    match e
    case Lock(id, timeoutMs, ttlMs) =>
      if Alive(s.entry, s.clock).None? then
        s.(entry := Some(Entry(Processing(id), s.clock + ttlMs)), calls := s.calls[id := Call(timeoutMs, ttlMs, Waiting(s.clock))])
      else
        s.(calls := s.calls[id := Call(timeoutMs, ttlMs, Probing)])
    case Probe(id) =>
      if id !in s.calls then s else
        (match Alive(s.entry, s.clock)
         case Some(Entry(Stored(result), _)) => s.(calls := Enter(s, id, Answered(result)))
         case _ => s.(calls := Enter(s, id, Refused)))
    case Begin(id) =>
      if id in s.calls && s.calls[id].phase.Waiting? then
        s.(calls := Enter(s, id, Executing(s.calls[id].phase.lockedAt, s.clock)))
      else s
    case Succeed(id, result) =>
      if id !in s.calls then s else
        s.(entry := Some(Entry(Stored(result), s.clock + s.calls[id].ttlMs)), calls := Enter(s, id, Succeeded(result)))
    case Fail(id) =>
      if id !in s.calls then s else s.(entry := None, calls := Enter(s, id, Failed))
    case Tick(to) => s.(clock := to)
  }

  /** Who gets the key: the call that finds no entry, or one whose lifetime is over; it leaves its own marker. Any other has to look. */
  lemma LockIff(s: Lease, id: CallId, timeoutMs: int, ttlMs: int)
    ensures var v, free := LeaseStep(s, Lock(id, timeoutMs, ttlMs)), s.entry.None? || s.entry.value.expiresAt < s.clock;
      && v.clock == s.clock
      && v.entry == (if free then Some(Entry(Processing(id), s.clock + ttlMs)) else s.entry)
      && v.calls == s.calls[id := Call(timeoutMs, ttlMs, if free then Waiting(s.clock) else Probing)]
  {
  }

  /** What a call is told that looks: the stored result while it lives, and otherwise that the key is taken. */
  lemma ProbeIff(s: Lease, id: CallId, result: ToolResult)
    requires id in s.calls
    ensures var v := LeaseStep(s, Probe(id));
      && v.clock == s.clock && v.entry == s.entry && v.calls.Keys == s.calls.Keys
      && (forall other <- s.calls :: other != id ==> v.calls[other] == s.calls[other])
      && (v.calls[id].phase == Answered(result) <==>
            s.entry.Some? && s.entry.value.value == Stored(result) && s.clock <= s.entry.value.expiresAt)
      && (v.calls[id].phase.Answered? || v.calls[id].phase == Refused)
  {
  }

  // ---------------------------------------------------------------- the store, in place

  datatype AcquireResult = Acquired | Cached(result: ToolResult) | InProgress

  /** The store and the calls of one key at one time. */
  ghost predicate Shows(entries: map<Key, Entry>, key: Key, now: int, s: Lease) {
    s.clock == now && s.entry == (if key in entries then Some(entries[key]) else None)
  }

  /** Nothing but the entry of one key differs. */
  ghost predicate Elsewhere(before: map<Key, Entry>, after: map<Key, Entry>, key: Key) {
    before - {key} == after - {key}
  }

  /** Each method is the step of the lease of its key, whatever the calls are, and leaves the other keys alone. */
  class Store {
    var entries: map<Key, Entry>

    constructor ()
      ensures entries == map[]
    {
      entries := map[];
    }

    /** SET NX at `now`; when it is refused, GET at `later`. */
    method Acquire(key: Key, owner: CallId, timeoutMs: int, ttlMs: int, now: int, later: int, ghost s: Lease) returns (r: AcquireResult)
      requires now <= later && Shows(entries, key, now, s)
      modifies this
      ensures Elsewhere(old(entries), entries, key)
      ensures var locked := LeaseStep(s, Lock(owner, timeoutMs, ttlMs));
        && Shows(entries, key, now, locked)
        && (r == Acquired <==> InFlight(locked, owner))
        && (r != Acquired ==>
              LeaseStep(LeaseStep(locked, Tick(later)), Probe(owner)).calls[owner].phase
                == (match r case Cached(result) => Answered(result) case _ => Refused))
    {
      if key !in entries || entries[key].expiresAt < now {
        entries := entries[key := Entry(Processing(owner), now + ttlMs)];
        return Acquired;
      }
      var existing := entries[key];
      if existing.expiresAt < later || existing.value.Processing? {
        return InProgress;
      }
      return Cached(existing.value.result);
    }

    method Complete(key: Key, owner: CallId, result: ToolResult, now: int, ttlMs: int, ghost s: Lease)
      requires Shows(entries, key, now, s) && owner in s.calls && s.calls[owner].ttlMs == ttlMs
      modifies this
      ensures Elsewhere(old(entries), entries, key) && Shows(entries, key, now, LeaseStep(s, Succeed(owner, result)))
    {
      entries := entries[key := Entry(Stored(result), now + ttlMs)];
    }

    /** DEL, whoever owns the marker. */
    method Release(key: Key, ghost owner: CallId, ghost now: int, ghost s: Lease)
      requires Shows(entries, key, now, s) && owner in s.calls
      modifies this
      ensures Elsewhere(old(entries), entries, key) && Shows(entries, key, now, LeaseStep(s, Fail(owner)))
    {
      entries := entries - {key};
    }
  }

  /** The order in which a call goes through its phases, and timers that do not let the clock pass a deadline. */
  predicate LeaseEnabled(queueTimeoutMs: int, s: Lease, e: LeaseEvent) {
    match e
    case Lock(id, timeoutMs, ttlMs) => id !in s.calls
    case Probe(id) => id in s.calls && s.calls[id].phase.Probing?
    case Begin(id) => id in s.calls && s.calls[id].phase.Waiting?
    case Succeed(id, _) => id in s.calls && s.calls[id].phase.Executing?
    case Fail(id) => InFlight(s, id)
    case Tick(to) => s.clock <= to && forall id <- s.calls :: InFlight(s, id) ==> to <= Deadline(queueTimeoutMs, s.calls[id])
  }

  /** Longest wait plus longest execution fit into the lifetime of the marker. */
  predicate Covers(queueTimeoutMs: int, timeoutMs: int, ttlMs: int) {
    queueTimeoutMs + timeoutMs <= ttlMs
  }

  predicate LockCovered(queueTimeoutMs: int, e: LeaseEvent) {
    e.Lock? ==> e.timeoutMs >= 0 && Covers(queueTimeoutMs, e.timeoutMs, e.ttlMs)
  }

  /** The default lifetime covers every timeout exactly when nobody waits for more than half a minute. */
  lemma DefaultTtlCoversIff(queueTimeoutMs: int)
    ensures (forall t: int :: t >= 100 ==> Covers(queueTimeoutMs, t, DefaultTtl(t))) <==> queueTimeoutMs <= 30_000
  {
    if queueTimeoutMs > 30_000 {
      assert !Covers(queueTimeoutMs, 30_000, DefaultTtl(30_000));
    }
  }

  // ---------------------------------------------------------------- safety

  /** A call in flight owns the marker in the store, and its deadline lies within the marker's lifetime. */
  predicate Owns(queueTimeoutMs: int, s: Lease, id: CallId)
    requires InFlight(s, id)
  {
    var c := s.calls[id];
    && s.entry == Some(Entry(Processing(id), c.phase.lockedAt + c.ttlMs))
    && s.clock <= Deadline(queueTimeoutMs, c)
    && c.timeoutMs >= 0 && Covers(queueTimeoutMs, c.timeoutMs, c.ttlMs)
    && (c.phase.Executing? ==> c.phase.startedAt <= c.phase.lockedAt + queueTimeoutMs)
  }

  ghost predicate Produced(s: Lease, result: ToolResult) {
    exists id :: id in s.calls && s.calls[id].phase == Succeeded(result)
  }

  ghost predicate LeaseInv(queueTimeoutMs: int, s: Lease) {
    && (forall id :: InFlight(s, id) ==> Owns(queueTimeoutMs, s, id))
    && (s.entry.Some? && s.entry.value.value.Stored? ==> Produced(s, s.entry.value.value.result))
    && (forall id :: id in s.calls && s.calls[id].phase.Answered? ==> Produced(s, s.calls[id].phase.result))
  }

  lemma ProducedStays(s: Lease, t: Lease, result: ToolResult)
    requires Produced(s, result)
    requires forall id :: id in s.calls && s.calls[id].phase.Succeeded? ==> id in t.calls && t.calls[id].phase == s.calls[id].phase
    ensures Produced(t, result)
  {
    var id :| id in s.calls && s.calls[id].phase == Succeeded(result);
    assert t.calls[id].phase == Succeeded(result);
  }

  lemma LeaseStepKeepsInv(queueTimeoutMs: int, s: Lease, e: LeaseEvent)
    requires queueTimeoutMs >= 0 && LeaseInv(queueTimeoutMs, s) && LeaseEnabled(queueTimeoutMs, s, e) && LockCovered(queueTimeoutMs, e)
    ensures LeaseInv(queueTimeoutMs, LeaseStep(s, e))
  {
    hide Produced;
    var t := LeaseStep(s, e);
    if e.Succeed? || e.Fail? {
      assert Owns(queueTimeoutMs, s, e.id);
    }
    forall id | InFlight(t, id) ensures Owns(queueTimeoutMs, t, id) {
      assert InFlight(s, id) ==> Owns(queueTimeoutMs, s, id);
    }
    forall r | Produced(s, r) ensures Produced(t, r) {
      ProducedStays(s, t, r);
    }
    if e.Succeed? {
      SucceededIsProduced(t, e.id);
    }
  }

  lemma SucceededIsProduced(t: Lease, id: CallId)
    requires id in t.calls && t.calls[id].phase.Succeeded?
    ensures Produced(t, t.calls[id].phase.result)
  {
  }

  function LeaseAfter(s: Lease, events: seq<LeaseEvent>): Lease
    decreases |events|
  {
    if events == [] then s else LeaseAfter(LeaseStep(s, events[0]), events[1..])
  }

  predicate LeaseFeasible(queueTimeoutMs: int, s: Lease, events: seq<LeaseEvent>)
    decreases |events|
  {
    events != [] ==>
      LeaseEnabled(queueTimeoutMs, s, events[0]) && LeaseFeasible(queueTimeoutMs, LeaseStep(s, events[0]), events[1..])
  }

  predicate AllCovered(queueTimeoutMs: int, events: seq<LeaseEvent>) {
    forall e <- events :: LockCovered(queueTimeoutMs, e)
  }

  function Unused(): Lease {
    Lease(0, None, map[])
  }

  lemma {:induction false} LeaseRunsKeepInv(queueTimeoutMs: int, s: Lease, events: seq<LeaseEvent>)
    requires queueTimeoutMs >= 0 && LeaseInv(queueTimeoutMs, s)
    requires LeaseFeasible(queueTimeoutMs, s, events) && AllCovered(queueTimeoutMs, events)
    ensures LeaseInv(queueTimeoutMs, LeaseAfter(s, events))
    decreases |events|
  {
    hide LeaseInv, LeaseStep, LeaseEnabled, LockCovered;
    if events != [] {
      LeaseStepKeepsInv(queueTimeoutMs, s, events[0]);
      LeaseRunsKeepInv(queueTimeoutMs, LeaseStep(s, events[0]), events[1..]);
    }
  }

  predicate AtMostOneInFlight(s: Lease) {
    forall a, b :: a in s.calls && b in s.calls && InFlight(s, a) && InFlight(s, b) ==> a == b
  }

  /**
   Lease safety: with covered lifetimes, in every reachable state at most one call is in flight, whatever it deletes when it fails is its own
   marker, and a cached answer is a result that a call with this key really produced.
   */
  lemma LeaseIsSafe(queueTimeoutMs: int, events: seq<LeaseEvent>)
    requires queueTimeoutMs >= 0 && LeaseFeasible(queueTimeoutMs, Unused(), events) && AllCovered(queueTimeoutMs, events)
    ensures var s := LeaseAfter(Unused(), events);
      && AtMostOneInFlight(s)
      && (forall id :: InFlight(s, id) ==>
            s.entry.Some? && s.entry.value.value == Processing(id) && Alive(s.entry, s.clock) == s.entry)
      && (forall id :: id in s.calls && s.calls[id].phase.Answered? ==> Produced(s, s.calls[id].phase.result))
  {
    hide Produced;
    LeaseRunsKeepInv(queueTimeoutMs, Unused(), events);
    var s := LeaseAfter(Unused(), events);
    forall id | InFlight(s, id)
      ensures s.entry.Some? && s.entry.value.value == Processing(id) && Alive(s.entry, s.clock) == s.entry
    {
      assert Owns(queueTimeoutMs, s, id);
    }
  }

  /** The same statement fails for every lifetime that is too short: the marker expires while its owner is still in flight. */
  lemma TooShortALeaseIsUnsafe(queueTimeoutMs: int, timeoutMs: int, ttlMs: int)
    requires queueTimeoutMs >= 0 && timeoutMs >= 0 && ttlMs >= 0
    ensures !Covers(queueTimeoutMs, timeoutMs, ttlMs) ==>
      LeaseFeasible(queueTimeoutMs, Unused(), OverlappingRun(queueTimeoutMs, timeoutMs, ttlMs))
      && !AtMostOneInFlight(LeaseAfter(Unused(), OverlappingRun(queueTimeoutMs, timeoutMs, ttlMs)))
  {
    if !Covers(queueTimeoutMs, timeoutMs, ttlMs) {
      var run := OverlappingRun(queueTimeoutMs, timeoutMs, ttlMs);
      var s1 := LeaseStep(Unused(), run[0]);
      var s2 := LeaseStep(s1, run[1]);
      var s3 := LeaseStep(s2, run[2]);
      var s4 := LeaseStep(s3, run[3]);
      var s5 := LeaseStep(s4, run[4]);
      assert LeaseEnabled(queueTimeoutMs, s1, run[1]) && LeaseEnabled(queueTimeoutMs, s2, run[2]);
      assert LeaseEnabled(queueTimeoutMs, s3, run[3]) && LeaseEnabled(queueTimeoutMs, s4, run[4]);
      assert InFlight(s5, 0) && InFlight(s5, 1);
      FiveSteps(queueTimeoutMs, run, s1, s2, s3, s4, s5);
    }
  }

  /** Call 0 waits as long as it may, starts, and is still running when its marker is gone; call 1 then gets the key. */
  function OverlappingRun(queueTimeoutMs: int, timeoutMs: int, ttlMs: int): seq<LeaseEvent> {
    var wait := if queueTimeoutMs < ttlMs + 1 then queueTimeoutMs else ttlMs + 1;
    [Lock(0, timeoutMs, ttlMs), Tick(wait), Begin(0), Tick(ttlMs + 1), Lock(1, timeoutMs, ttlMs)]
  }

  lemma FiveSteps(queueTimeoutMs: int, run: seq<LeaseEvent>, s1: Lease, s2: Lease, s3: Lease, s4: Lease, s5: Lease)
    requires |run| == 5
    requires s1 == LeaseStep(Unused(), run[0]) && s2 == LeaseStep(s1, run[1]) && s3 == LeaseStep(s2, run[2])
    requires s4 == LeaseStep(s3, run[3]) && s5 == LeaseStep(s4, run[4])
    requires LeaseEnabled(queueTimeoutMs, Unused(), run[0]) && LeaseEnabled(queueTimeoutMs, s1, run[1])
    requires LeaseEnabled(queueTimeoutMs, s2, run[2]) && LeaseEnabled(queueTimeoutMs, s3, run[3])
    requires LeaseEnabled(queueTimeoutMs, s4, run[4])
    ensures LeaseFeasible(queueTimeoutMs, Unused(), run) && LeaseAfter(Unused(), run) == s5
  {
    hide LeaseStep, LeaseEnabled;
    assert LeaseFeasible(queueTimeoutMs, s4, run[4..]) && LeaseAfter(s4, run[4..]) == s5;
    assert LeaseFeasible(queueTimeoutMs, s3, run[3..]) && LeaseAfter(s3, run[3..]) == s5;
    assert LeaseFeasible(queueTimeoutMs, s2, run[2..]) && LeaseAfter(s2, run[2..]) == s5;
    assert LeaseFeasible(queueTimeoutMs, s1, run[1..]) && LeaseAfter(s1, run[1..]) == s5;
  }

  // ---------------------------------------------------------------- a stored result

  predicate Holds(s: Lease, result: ToolResult, until: int) {
    s.entry == Some(Entry(Stored(result), until))
  }

  /** Since `before`, every call that asked has been answered with the result or is about to read it. */
  predicate ServedSince(before: Lease, s: Lease, result: ToolResult) {
    forall id :: id in s.calls && id !in before.calls ==> s.calls[id].phase == Probing || s.calls[id].phase == Answered(result)
  }

  lemma StoredResultStep(queueTimeoutMs: int, before: Lease, s: Lease, e: LeaseEvent, result: ToolResult, until: int)
    requires queueTimeoutMs >= 0 && LeaseInv(queueTimeoutMs, s) && LeaseEnabled(queueTimeoutMs, s, e)
    requires Holds(s, result, until) && s.clock <= until && ServedSince(before, s, result)
    ensures Holds(LeaseStep(s, e), result, until) && ServedSince(before, LeaseStep(s, e), result)
  {
    forall id ensures !InFlight(s, id) {
      assert InFlight(s, id) ==> Owns(queueTimeoutMs, s, id);
    }
    assert e.Begin? || e.Succeed? || e.Fail? ==> InFlight(s, e.id);
  }

  lemma {:induction false} ClockOnlyAdvances(queueTimeoutMs: int, s: Lease, events: seq<LeaseEvent>)
    requires LeaseFeasible(queueTimeoutMs, s, events)
    ensures s.clock <= LeaseAfter(s, events).clock
    decreases |events|
  {
    if events != [] {
      ClockOnlyAdvances(queueTimeoutMs, LeaseStep(s, events[0]), events[1..]);
    }
  }

  /** Once a result is stored, nothing removes or replaces it before its lifetime ends, and every call that asks gets exactly it. */
  lemma {:induction false} StoredResultIsServed(queueTimeoutMs: int, before: Lease, s: Lease, events: seq<LeaseEvent>, result: ToolResult,
                                                until: int)
    requires queueTimeoutMs >= 0 && LeaseInv(queueTimeoutMs, s)
    requires LeaseFeasible(queueTimeoutMs, s, events) && AllCovered(queueTimeoutMs, events)
    requires Holds(s, result, until) && ServedSince(before, s, result)
    requires LeaseAfter(s, events).clock <= until
    ensures Holds(LeaseAfter(s, events), result, until) && ServedSince(before, LeaseAfter(s, events), result)
    decreases |events|
  {
    hide LeaseInv, LeaseStep, LeaseEnabled, LockCovered, Holds, ServedSince;
    if events != [] {
      ClockOnlyAdvances(queueTimeoutMs, s, events);
      LeaseStepKeepsInv(queueTimeoutMs, s, events[0]);
      StoredResultStep(queueTimeoutMs, before, s, events[0], result, until);
      StoredResultIsServed(queueTimeoutMs, before, LeaseStep(s, events[0]), events[1..], result, until);
    }
  }

  /**
   From the moment a call succeeds until its own lifetime has passed, in every run, the key holds its result, and every call that asks
   since then is answered with it or about to be.
   */
  lemma SuccessIsServed(queueTimeoutMs: int, s: Lease, id: CallId, result: ToolResult, events: seq<LeaseEvent>)
    requires queueTimeoutMs >= 0 && LeaseInv(queueTimeoutMs, s) && LeaseEnabled(queueTimeoutMs, s, Succeed(id, result))
    requires var t := LeaseStep(s, Succeed(id, result));
      && LeaseFeasible(queueTimeoutMs, t, events) && AllCovered(queueTimeoutMs, events)
      && id in s.calls && LeaseAfter(t, events).clock <= s.clock + s.calls[id].ttlMs
    ensures var t := LeaseStep(s, Succeed(id, result));
      var u := LeaseAfter(t, events);
      && u.entry == Some(Entry(Stored(result), s.clock + s.calls[id].ttlMs))
      && forall other <- u.calls :: other !in t.calls ==> u.calls[other].phase == Probing || u.calls[other].phase == Answered(result)
  {
    hide LeaseInv, LeaseFeasible, AllCovered, LeaseAfter;
    var t := LeaseStep(s, Succeed(id, result));
    LeaseStepKeepsInv(queueTimeoutMs, s, Succeed(id, result));
    StoredResultIsServed(queueTimeoutMs, t, t, events, result, s.clock + s.calls[id].ttlMs);
  }

  /** A call that fails frees the key at once: the next call gets it. */
  lemma FailureFreesTheKey(queueTimeoutMs: int, s: Lease, id: CallId, next: CallId, timeoutMs: int, ttlMs: int)
    requires LeaseInv(queueTimeoutMs, s) && InFlight(s, id) && next !in s.calls
    ensures var t := LeaseStep(s, Fail(id));
      !InFlight(t, id) && InFlight(LeaseStep(t, Lock(next, timeoutMs, ttlMs)), next)
  {
  }
}
