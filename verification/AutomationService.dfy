/**
 The automation service, as it changes its tables in place.
 Each method is one call of the service; its contract ties the new table to the transactions of AutomationRow,
 about which the invariants are proved.
 */
module AutomationService {
  import opened Wrappers
  import opened AutomationLifecycle
  import opened AutomationRow
  import opened AutomationSystem

  const MAX_BATCH := 50
  const RECOVERY_BATCH := 200

  function BatchOf(limit: int): (n: nat)
    ensures 1 <= n <= 50
    ensures 1 <= limit <= 50 ==> n == limit
    ensures limit < 1 ==> n == 1
    ensures limit > 50 ==> n == 50
  {
    if limit < 1 then 1 else if limit > MAX_BATCH then MAX_BATCH else limit
  }

  function WakeOf(table: map<AutomationId, Automation>, id: AutomationId): int {
    if id in table && table[id].nextWakeAt.Some? then table[id].nextWakeAt.value else 0
  }

  predicate WakesBefore(table: map<AutomationId, Automation>, a: AutomationId, b: AutomationId) {
    WakeOf(table, a) <= WakeOf(table, b)
  }

  /** A non-empty set of waiting automations has one that wakes first. */
  lemma {:induction false} SomeoneWakesFirst(table: map<AutomationId, Automation>, ids: set<AutomationId>) returns (first: AutomationId)
    requires ids != {}
    ensures first in ids && forall id <- ids :: WakesBefore(table, first, id)
    decreases |ids|
  {
    var x :| x in ids;
    if ids == {x} {
      first := x;
    } else {
      var rest := ids - {x};
      assert ids == rest + {x};
      var y := SomeoneWakesFirst(table, rest);
      first := if WakesBefore(table, x, y) then x else y;
      forall id <- ids ensures WakesBefore(table, first, id) {
        assert id == x || id in rest;
      }
    }
  }

  /** recoverInterruptedRuns, row after row: a row whose transaction fails is left as it was. */
  function RecoverRows(env: Environment, table: map<AutomationId, Automation>, rows: seq<RunRef>, now: int): map<AutomationId, Automation>
    requires ValidEnvironment(env)
    decreases |rows|
  {
    if rows == [] then table
    else RecoverRow(env, RecoverRows(env, table, rows[..|rows| - 1], now), rows[|rows| - 1], now)
  }

  function RecoverRow(env: Environment, table: map<AutomationId, Automation>, row: RunRef, now: int): map<AutomationId, Automation>
    requires ValidEnvironment(env)
  {
    if row.automationId in table then
      table[row.automationId := Step(env, table[row.automationId], DoRecover(row.i), now)]
    else table
  }

  /** The automation's last run, waiting to be started. */
  predicate IsFreshlyPending(table: map<AutomationId, Automation>, row: RunRef) {
    && row.automationId in table && row.i + 1 == |table[row.automationId].runs|
    && table[row.automationId].runs[row.i].status.Pending?
  }

  /** At most one run of a healthy automation is interrupted. */
  lemma InterruptedOnce(table: map<AutomationId, Automation>, clock: int, r: RunRef, u: RunRef)
    requires IsInterrupted(table, r) && IsInterrupted(table, u) && r.automationId == u.automationId
    requires Healthy(table[r.automationId], clock)
    ensures r == u
  {
    assert IsOpen(table[r.automationId].runs[r.i]) && IsOpen(table[u.automationId].runs[u.i]);
  }

  lemma {:induction false} RecoveredElsewhere(env: Environment, table: map<AutomationId, Automation>, rows: seq<RunRef>, now: int, id: AutomationId)
    requires ValidEnvironment(env) && id in table && forall i :: 0 <= i < |rows| ==> rows[i].automationId != id
    ensures var after := RecoverRows(env, table, rows, now); after.Keys == table.Keys && after[id] == table[id]
    decreases |rows|
  {
    hide Step;
    if rows != [] {
      RecoveredElsewhere(env, table, rows[..|rows| - 1], now, id);
    }
  }

  lemma {:induction false} RecoveredAt(env: Environment, table: map<AutomationId, Automation>, rows: seq<RunRef>, now: int, k: nat)
    requires ValidEnvironment(env) && k < |rows| && rows[k].automationId in table
    requires forall i, j :: 0 <= i < j < |rows| ==> rows[i].automationId != rows[j].automationId
    ensures var id, after := rows[k].automationId, RecoverRows(env, table, rows, now);
      after.Keys == table.Keys && after[id] == Step(env, table[id], DoRecover(rows[k].i), now)
    decreases |rows|
  {
    hide Step;
    var front := rows[..|rows| - 1];
    if k == |front| {
      RecoveredElsewhere(env, table, front, now, rows[k].automationId);
    } else {
      RecoveredAt(env, table, front, now, k);
    }
  }

  /** Rows of different automations are recovered each as if alone, and no other automation changes. */
  lemma RecoveredTogether(env: Environment, table: map<AutomationId, Automation>, rows: seq<RunRef>, now: int)
    requires ValidEnvironment(env) && forall row <- rows :: row.automationId in table
    requires forall i, j :: 0 <= i < j < |rows| ==> rows[i].automationId != rows[j].automationId
    ensures var after := RecoverRows(env, table, rows, now);
      && (forall row <- rows :: row.automationId in after && after[row.automationId] == Step(env, table[row.automationId], DoRecover(row.i), now))
      && (forall id <- table :: (forall row <- rows :: row.automationId != id) ==> id in after && after[id] == table[id])
  {
    hide Step, RecoverRows;
    var after := RecoverRows(env, table, rows, now);
    forall row | row in rows
      ensures row.automationId in after && after[row.automationId] == Step(env, table[row.automationId], DoRecover(row.i), now)
    {
      var k :| 0 <= k < |rows| && rows[k] == row;
      RecoveredAt(env, table, rows, now, k);
    }
    forall id | id in table && forall row <- rows :: row.automationId != id ensures id in after && after[id] == table[id] {
      RecoveredElsewhere(env, table, rows, now, id);
    }
  }

  predicate IsInterrupted(table: map<AutomationId, Automation>, row: RunRef) {
    row.automationId in table && row.i < |table[row.automationId].runs| && IsUnderWay(table[row.automationId].runs[row.i])
  }

  class Service {
    const env: Environment
    var table: map<AutomationId, Automation>
    var live: set<ConversationId>

    constructor (env: Environment)
      requires ValidEnvironment(env)
      ensures this.env == env && table == map[] && live == {}
    {
      this.env := env;
      table, live := map[], {};
    }

    predicate Visible(id: AutomationId)
      reads this
    {
      id in table && table[id].conversationId in live
    }

    ghost function TableAfter(id: AutomationId, e: RowEvent, now: int): map<AutomationId, Automation>
      requires ValidEnvironment(env)
      reads this
    {
      if id in table then table[id := Step(env, table[id], e, now)] else table
    }

    method CreateAutomation(id: AutomationId, conversationId: ConversationId, input: CreateInput, now: int)
      returns (r: Result<Automation, ServiceError>)
      requires ValidEnvironment(env) && id !in table
      modifies this`table
      ensures var created := Create(env, conversationId, input, now);
        r == (if conversationId !in live && (created.Ok? || created.error == LifecycleFailure(WakeUpIsNoDate)) then Err(ConversationNotFound)
              else created)
      ensures table == if r.Ok? then old(table)[id := r.value] else old(table)
    {
      var normalized := NormalizeTrigger(input.trigger, now);
      if normalized.Err? {
        return Err(LifecycleFailure(normalized.error));
      }
      var (trigger, nextWakeAt) := normalized.value;
      var policy := NormalizeStopPolicy(input.stopPolicy, now, !trigger.Once?, env.lifetimeDays);
      if policy.Err? {
        return Err(LifecycleFailure(policy.error));
      }
      var delivery := NormalizeDelivery(input.delivery);
      if delivery.Err? {
        return Err(delivery.error);
      }
      if delivery.value == OnCompletion && !policy.value.hasCondition {
        return Err(DeliveryRequiresCondition);
      }
      var expiresAt := policy.value.expiresAt;
      if expiresAt.Some? && nextWakeAt.Some? && nextWakeAt.value >= expiresAt.value {
        return Err(FirstRunAfterExpiry);
      }
      if conversationId !in live {
        return Err(ConversationNotFound);
      }
      if nextWakeAt.None? {
        return Err(LifecycleFailure(WakeUpIsNoDate));
      }
      var automation :=
        Automation(conversationId, Active, trigger, policy.value, delivery.value, nextWakeAt, expiresAt, 0, None, []);
      table := table[id := automation];
      return Ok(automation);
    }

    method UpdateAutomation(id: AutomationId, input: UpdateInput, now: int) returns (r: Result<Automation, ServiceError>)
      requires ValidEnvironment(env)
      modifies this`table
      ensures !old(Visible(id)) ==> r == Err(AutomationNotFound) && table == old(table)
      ensures old(Visible(id)) ==> r == Update(env, old(table)[id], input, now) && table == old(TableAfter(id, DoUpdate(input), now))
    {
      hide NormalizeTrigger, NormalizeStopPolicy, NormalizeDelivery, AsStopInput;
      if !Visible(id) {
        return Err(AutomationNotFound);
      }
      var current := table[id];
      assert TableAfter(id, DoUpdate(input), now) == table[id := Commit(current, Update(env, current, input, now))];
      hide Step;
      assert table == table[id := current];
      if current.status == Cancelled || current.status == Completed {
        return Err(AutomationTerminal);
      }
      var updated, nextWakeAt := current, current.nextWakeAt;
      if input.trigger.Some? {
        var normalized := NormalizeTrigger(input.trigger.value, now);
        if normalized.Err? {
          return Err(LifecycleFailure(normalized.error));
        }
        nextWakeAt := normalized.value.1;
        updated := updated.(trigger := normalized.value.0, nextWakeAt := if current.status == Active then nextWakeAt else None);
      }
      if input.stopPolicy.Some? || (input.trigger.Some? && !updated.trigger.Once?) {
        var stopInput := if input.stopPolicy.Some? then input.stopPolicy.value else AsStopInput(current.stopPolicy);
        var policy := NormalizeStopPolicy(stopInput, now, !updated.trigger.Once?, env.lifetimeDays);
        if policy.Err? {
          return Err(LifecycleFailure(policy.error));
        }
        updated := updated.(stopPolicy := policy.value, expiresAt := policy.value.expiresAt);
      }
      if input.delivery.Some? {
        var delivery := NormalizeDelivery(input.delivery.value);
        if delivery.Err? {
          return Err(delivery.error);
        }
        updated := updated.(delivery := delivery.value);
      }
      if updated.delivery == OnCompletion && !updated.stopPolicy.hasCondition {
        return Err(DeliveryRequiresCondition);
      }
      if updated.expiresAt.Some? && nextWakeAt.Some? && nextWakeAt.value >= updated.expiresAt.value {
        return Err(NextRunAfterExpiry);
      }
      if input.trigger.Some? && current.status == Active && nextWakeAt.None? {
        return Err(LifecycleFailure(WakeUpIsNoDate));
      }
      table := table[id := updated];
      return Ok(updated);
    }

    method PauseAutomation(id: AutomationId) returns (r: Result<Automation, ServiceError>, cancelled: set<TraceId>)
      requires ValidEnvironment(env)
      modifies this`table
      ensures !old(Visible(id)) ==> r == Err(AutomationNotFound) && table == old(table)
      ensures old(Visible(id)) ==> r == Pause(old(table)[id]) && table == old(TableAfter(id, DoPause, 0))
      ensures old(Visible(id)) && old(table)[id].status == Active ==> cancelled == TracesOfOpenRuns(old(table)[id])
      ensures !old(Visible(id)) || old(table)[id].status != Active ==> cancelled == {}
    {
      cancelled := {};
      if !Visible(id) {
        return Err(AutomationNotFound), cancelled;
      }
      var current := table[id];
      if current.status == Paused {
        assert table == table[id := current];
        return Ok(current), cancelled;
      }
      if current.status != Active {
        assert table == table[id := current];
        return Err(AutomationNotActive), cancelled;
      }
      cancelled := TracesOfOpenRuns(current);
      var runs := UpdateRuns(current.runs, Pending, RunCancelled);
      runs := UpdateRuns(runs, Running, Cancelling);
      var updated := current.(runs := runs, status := Paused, nextWakeAt := None);
      table := table[id := updated];
      r := Ok(updated);
    }

    method ResumeAutomation(id: AutomationId, now: int) returns (r: Result<Automation, ServiceError>)
      requires ValidEnvironment(env)
      modifies this`table
      ensures !old(Visible(id)) ==> r == Err(AutomationNotFound) && table == old(table)
      ensures old(Visible(id)) ==> r == Resume(env, old(table)[id], now) && table == old(TableAfter(id, DoResume, now))
    {
      if !Visible(id) {
        return Err(AutomationNotFound);
      }
      var current := table[id];
      assert table == table[id := current];
      if current.status == Active {
        return Ok(current);
      }
      if current.status != Paused {
        return Err(AutomationNotPaused);
      }
      if TracesOfOpenRuns(current) != {} {
        TracesExist(current);
        return Err(RunStillStopping);
      }
      TracesExist(current);
      if ShouldStopBeforeRun(current.expiresAt, now) {
        r := CompleteInternal(id, Expired);
        return;
      }
      var next := NextOnResume(env.zones, current.trigger, now);
      if next.Err? {
        return Err(LifecycleFailure(next.error));
      }
      var updated := current.(status := Active, nextWakeAt := Some(next.value));
      table := table[id := updated];
      return Ok(updated);
    }

    /** completeInternal, called by resume and by a run that finds its condition met. */
    method CompleteInternal(id: AutomationId, reason: CompletionReason) returns (r: Result<Automation, ServiceError>)
      requires ValidEnvironment(env)
      modifies this`table
      ensures id !in old(table) ==> r == Err(AutomationNotFound)
      ensures id in old(table) ==> r == Complete(old(table)[id], reason)
      ensures table == old(TableAfter(id, DoComplete(reason), 0))
    {
      if id !in table {
        return Err(AutomationNotFound);
      }
      var current := table[id];
      assert table == table[id := current];
      if current.status == Completed {
        return Ok(current);
      }
      if current.status == Cancelled {
        return Err(AlreadyCancelled);
      }
      var updated := current.(status := Completed, nextWakeAt := None, completionReason := Some(reason));
      table := table[id := updated];
      return Ok(updated);
    }

    /** The cancel transaction, and the traces of the runs that are then asked to stop. */
    method CancelAutomation(id: AutomationId) returns (r: Result<Automation, ServiceError>, cancelled: set<TraceId>)
      requires ValidEnvironment(env)
      modifies this`table
      ensures !old(Visible(id)) ==> r == Err(AutomationNotFound) && table == old(table) && cancelled == {}
      ensures old(Visible(id)) ==> r == Cancel(old(table)[id]) && table == old(TableAfter(id, DoCancel, 0))
      ensures old(Visible(id)) ==> cancelled == if IsTerminal(old(table)[id]) then {} else TracesOfOpenRuns(old(table)[id])
    {
      cancelled := {};
      if !Visible(id) {
        return Err(AutomationNotFound), cancelled;
      }
      var current := table[id];
      assert table == table[id := current];
      if current.status == Cancelled {
        return Ok(current), cancelled;
      }
      if current.status == Completed {
        return Err(AlreadyCompleted), cancelled;
      }
      cancelled := TracesOfOpenRuns(current);
      var runs := UpdateRuns(current.runs, Pending, RunCancelled);
      runs := UpdateRuns(runs, Running, Cancelling);
      var updated := current.(runs := runs, status := Cancelled, nextWakeAt := None);
      table := table[id := updated];
      r := Ok(updated);
    }

    /**
     The transaction of conversation deletion: the automations' part, then the conversation itself. It stops every run of the
     conversation, but cleans up after, and asks to stop, only those of automations that were active or paused.
     */
    method DeleteConversation(c: ConversationId) returns (stopped: set<RunRef>, cancelled: set<TraceId>)
      modifies this
      ensures live == old(live) - {c}
      ensures forall ref :: ref in stopped <==> IsStoppedBy(old(table), c, ref)
      ensures forall trace :: trace in cancelled <==> exists ref :: ref in stopped && TraceOf(old(table), ref) == Some(trace)
      ensures table == map id | id in old(table) ::
        if old(table)[id].conversationId == c then ConversationDeleted(old(table)[id]) else old(table)[id]
    {
      var found := table;
      stopped := set id, i | id in found && 0 <= i < |found[id].runs| && IsStoppedBy(found, c, RunRef(id, i)) :: RunRef(id, i);
      cancelled := set ref | ref in stopped && TraceOf(found, ref).Some? :: TraceOf(found, ref).value;
      var unclaimed := map id | id in found ::
        if found[id].conversationId == c then found[id].(runs := UpdateRuns(found[id].runs, Pending, RunCancelled)) else found[id];
      var stopping := map id | id in unclaimed ::
        if unclaimed[id].conversationId == c then unclaimed[id].(runs := UpdateRuns(unclaimed[id].runs, Running, Cancelling))
        else unclaimed[id];
      table := map id | id in stopping ::
        if stopping[id].conversationId == c && (stopping[id].status == Active || stopping[id].status == Paused) then
          stopping[id].(status := Cancelled, nextWakeAt := None)
        else stopping[id];
      DeletionIsRowByRow(found, c, unclaimed, stopping, table);
      live := live - {c};
    }

    /** The query of claimDue: the earliest due automations, at most a batch of them. */
    method FindDue(limit: int, now: int) returns (due: seq<AutomationId>)
      ensures forall i, j :: 0 <= i < j < |due| ==> due[i] != due[j]
      ensures forall id <- due :: id in table && IsDue(table[id], now)
      ensures forall id <- due ::
        && table[id].status == Active && table[id].nextWakeAt.Some? && table[id].nextWakeAt.value <= now
        && forall run <- table[id].runs :: run.status != Pending && run.status != Running && run.status != Cancelling
      ensures |due| <= BatchOf(limit)
      ensures forall i, j :: 0 <= i < j < |due| ==> table[due[i]].nextWakeAt.value <= table[due[j]].nextWakeAt.value
      ensures forall i, j :: 0 <= i < j < |due| ==> WakesBefore(table, due[i], due[j])
      ensures forall id :: id in table && IsDue(table[id], now) && id !in due ==>
        |due| == BatchOf(limit) && forall d <- due :: table[d].nextWakeAt.value <= table[id].nextWakeAt.value
    {
      due := [];
      var rest := set id | id in table && IsDue(table[id], now);
      while rest != {} && |due| < BatchOf(limit)
        invariant |due| <= BatchOf(limit)
        invariant forall id :: id in table && IsDue(table[id], now) <==> id in rest || id in due
        invariant forall d <- due :: d !in rest
        invariant forall i, j :: 0 <= i < j < |due| ==> due[i] != due[j] && WakesBefore(table, due[i], due[j])
        invariant forall d, id :: d in due && id in rest ==> WakesBefore(table, d, id)
        decreases rest
      {
        ghost var earliest := SomeoneWakesFirst(table, rest);
        assert earliest in rest && forall id <- rest :: WakesBefore(table, earliest, id);
        var first :| first in rest && forall id <- rest :: WakesBefore(table, first, id);
        due := due + [first];
        rest := rest - {first};
      }
    }

    /** claimDue with nobody interfering: every automation found is claimed at the wake-up it was found with. */
    method ClaimDue(limit: int, now: int) returns (due: seq<AutomationId>, claimed: seq<RunRef>)
      requires forall id :: id in table ==> Healthy(table[id], now)
      modifies this`table
      ensures forall id <- due :: id in old(table) && IsDue(old(table)[id], now)
      ensures table.Keys == old(table).Keys
      ensures forall id <- due ::
        && old(table)[id].nextWakeAt.Some?
        && table[id] == old(table)[id].(nextWakeAt := None, runs := old(table)[id].runs + [Run(old(table)[id].nextWakeAt.value, Pending, None)])
      ensures forall id <- old(table) :: id !in due ==> table[id] == old(table)[id]
      ensures |claimed| == |due|
      ensures forall k :: 0 <= k < |due| ==> claimed[k] == RunRef(due[k], |old(table)[due[k]].runs|)
      ensures forall ref <- claimed :: IsFreshlyPending(table, ref)
    {
      hide Healthy, HasOpenRun, HasRunAt, Claim;
      due := FindDue(limit, now);
      claimed := [];
      for k := 0 to |due|
        invariant table.Keys == old(table).Keys
        invariant forall id <- due[..k] ::
          && old(table)[id].nextWakeAt.Some?
          && table[id] == old(table)[id].(nextWakeAt := None, runs := old(table)[id].runs + [Run(old(table)[id].nextWakeAt.value, Pending, None)])
        invariant forall id <- old(table) :: id !in due[..k] ==> table[id] == old(table)[id]
        invariant |claimed| == k
        invariant forall j :: 0 <= j < k ==> claimed[j] == RunRef(due[j], |old(table)[due[j]].runs|)
      {
        var id := due[k];
        var a := table[id];
        assert id !in due[..k] && a == old(table)[id];
        var scheduledFor := a.nextWakeAt.value;
        ClaimInsertsFreshRun(a, scheduledFor, now);
        if a.status == Active && a.nextWakeAt == Some(scheduledFor) {
          var runs := a.runs;
          if !HasRunAt(a, scheduledFor) {
            runs := runs + [Run(scheduledFor, Pending, None)];
          }
          table := table[id := a.(nextWakeAt := None, runs := runs)];
          claimed := claimed + [RunRef(id, |runs| - 1)];
        }
        assert due[..k + 1] == due[..k] + [id];
      }
      assert due[..|due|] == due;
      forall k | 0 <= k < |due|
        ensures IsFreshlyPending(table, claimed[k])
      {
        var a := old(table)[due[k]];
        ClaimInsertsFreshRun(a, a.nextWakeAt.value, now);
      }
    }

    /** The query of expireDue: at most a batch of what is over. */
    method FindOver(limit: int, now: int) returns (found: seq<AutomationId>)
      ensures forall i, j :: 0 <= i < j < |found| ==> found[i] != found[j]
      ensures forall id <- found :: id in table && IsOver(table[id], now)
      ensures forall id <- found :: table[id].status == Active && table[id].expiresAt.Some? && table[id].expiresAt.value <= now
      ensures |found| <= BatchOf(limit)
      ensures |found| < BatchOf(limit) ==> forall id :: id in table && IsOver(table[id], now) ==> id in found
    {
      found := [];
      var rest := set id | id in table && IsOver(table[id], now);
      while rest != {} && |found| < BatchOf(limit)
        invariant |found| <= BatchOf(limit)
        invariant forall id :: id in table && IsOver(table[id], now) <==> id in rest || id in found
        invariant forall id <- found :: id !in rest
        invariant forall i, j :: 0 <= i < j < |found| ==> found[i] != found[j]
        decreases rest
      {
        var id :| id in rest;
        found := found + [id];
        rest := rest - {id};
      }
    }

    /** The loop of expireDue over what its query found, whatever happened to the rows since; it reads no end again. */
    method ExpireFound(found: seq<AutomationId>)
      requires ValidEnvironment(env)
      modifies this`table
      ensures table.Keys == old(table).Keys
      ensures forall id <- old(table) ::
        table[id] == (if id in found then Commit(old(table)[id], Complete(old(table)[id], Expired)) else old(table)[id])
    {
      for k := 0 to |found|
        invariant table.Keys == old(table).Keys
        invariant forall id <- old(table) ::
          table[id] == (if id in found[..k] then Commit(old(table)[id], Complete(old(table)[id], Expired)) else old(table)[id])
      {
        assert found[..k + 1] == found[..k] + [found[k]];
        var _ := CompleteInternal(found[k], Expired);
      }
      assert found[..|found|] == found;
    }

    method PrepareRun(id: AutomationId, i: nat, traceId: TraceId, now: int) returns (started: bool)
      requires ValidEnvironment(env)
      modifies this`table
      ensures table == old(TableAfter(id, DoPrepare(i, traceId), now))
      ensures started <==> id in old(table) && PrepareStarts(old(table)[id], i, now)
    {
      if id !in table {
        return false;
      }
      var a := table[id];
      if i >= |a.runs| || !a.runs[i].status.Pending? || a.status != Active {
        assert table == table[id := a];
        return false;
      }
      var reachedMaxRuns := a.stopPolicy.maxRuns.Some? && a.runCount >= a.stopPolicy.maxRuns.value;
      if ShouldStopBeforeRun(a.expiresAt, now) || reachedMaxRuns {
        var reason := if reachedMaxRuns then MaxRunsReached else Expired;
        a := a.(status := Completed, nextWakeAt := None, completionReason := Some(reason));
        a := a.(runs := a.runs[i := a.runs[i].(status := RunCancelled)]);
        table := table[id := a];
        return false;
      }
      table := table[id := a.(runs := a.runs[i := a.runs[i].(status := Running, traceId := Some(traceId))])];
      return true;
    }

    method FinishRun(id: AutomationId, i: nat, outcome: Outcome, now: int) returns (r: Result<(), LifecycleError>)
      requires ValidEnvironment(env)
      modifies this`table
      ensures table == old(TableAfter(id, DoFinish(i, outcome), now))
      ensures r.Err? ==> table == old(table)
    {
      if id !in table {
        return Ok(());
      }
      var a := table[id];
      if i >= |a.runs| {
        assert table == table[id := a];
        return Ok(());
      }
      var stopping := a.status == Cancelled || a.status == Completed || a.status == Paused;
      var status := if stopping && outcome != OutcomeSucceeded then RunCancelled else OutcomeStatus(outcome);
      var runCount := a.runCount + (if outcome == OutcomeCancelled then 0 else 1);
      var b := a.(runs := a.runs[i := a.runs[i].(status := status)], runCount := runCount);
      if stopping {
        table := table[id := b.(nextWakeAt := None)];
        return Ok(());
      }
      if outcome == OutcomeBlocked {
        table := table[id := b.(status := Paused, nextWakeAt := None)];
        return Ok(());
      }
      var reason := CompletionReasonOf(a.trigger, a.stopPolicy, runCount, a.expiresAt, now);
      if reason.Some? {
        table := table[id := b.(status := Completed, nextWakeAt := None, completionReason := reason)];
        return Ok(());
      }
      var wake := a.nextWakeAt;
      if wake.None? {
        var next := ComputeNextAfterRun(env.zones, a.trigger, a.runs[i].scheduledFor, now);
        if next.Err? {
          assert table == table[id := a];
          return Err(next.error);
        }
        wake := next.value;
      }
      if wake.Some? {
        table := table[id := b.(status := Active, nextWakeAt := wake)];
      } else {
        table := table[id := b.(status := Completed, nextWakeAt := None, completionReason := Some(ScheduleCompleted))];
      }
      return Ok(());
    }

    method MarkRunPending(id: AutomationId, i: nat)
      requires ValidEnvironment(env)
      modifies this`table
      ensures table == old(TableAfter(id, DoRequeue(i), 0))
    {
      if id in table {
        var a := table[id];
        if i < |a.runs| && a.runs[i].status == Running {
          a := a.(runs := a.runs[i := a.runs[i].(status := Pending, traceId := None)]);
        }
        table := table[id := a];
      }
    }

    /** recoverInterruptedRuns: at most 200 interrupted rows, one transaction each. */
    method RecoverInterruptedRuns(now: int) returns (rows: seq<RunRef>)
      requires ValidEnvironment(env)
      modifies this`table
      ensures forall i, j :: 0 <= i < j < |rows| ==> rows[i] != rows[j]
      ensures forall row <- rows :: IsInterrupted(old(table), row)
      ensures |rows| < RECOVERY_BATCH ==> forall row :: IsInterrupted(old(table), row) ==> row in rows
      ensures table == RecoverRows(env, old(table), rows, now)
      ensures (forall id <- old(table) :: Healthy(old(table)[id], now)) ==> (
        && (forall row <- rows :: row.automationId in old(table) && row.automationId in table
              && table[row.automationId] == Step(env, old(table)[row.automationId], DoRecover(row.i), now))
        && (forall id <- old(table) :: (forall row <- rows :: row.automationId != id) ==> id in table && table[id] == old(table)[id]))
    {
      rows := FindInterrupted();
      for k := 0 to |rows|
        invariant table == RecoverRows(env, old(table), rows[..k], now)
      {
        RecoverInterruptedRun(rows[k], now);
        assert rows[..k + 1][..k] == rows[..k];
      }
      assert rows[..|rows|] == rows;
      hide Healthy, Step, RecoverRows;
      if forall id <- old(table) :: Healthy(old(table)[id], now) {
        forall i, j | 0 <= i < j < |rows| ensures rows[i].automationId != rows[j].automationId {
          if rows[i].automationId == rows[j].automationId {
            InterruptedOnce(old(table), now, rows[i], rows[j]);
          }
        }
        RecoveredTogether(env, old(table), rows, now);
      }
    }

    /** One row in its own transaction; an error rolls it back. */
    method RecoverInterruptedRun(row: RunRef, now: int)
      requires ValidEnvironment(env)
      modifies this`table
      ensures table == RecoverRow(env, old(table), row, now)
    {
      hide NextAfterRun, CompletionReasonOf;
      if row.automationId !in table {
        return;
      }
      var a := table[row.automationId];
      assert table == table[row.automationId := a];
      if row.i >= |a.runs| || !(a.runs[row.i].status == Running || a.runs[row.i].status == Cancelling) {
        return;
      }
      var cancelled := a.status == Cancelled || a.status == Paused || a.runs[row.i].status == Cancelling;
      var b := a.(runs := a.runs[row.i := a.runs[row.i].(status := if cancelled then RunCancelled else Failed)]);
      if a.status != Active {
        table := table[row.automationId := b];
        return;
      }
      var runCount := a.runCount + 1;
      var reason := CompletionReasonOf(a.trigger, a.stopPolicy, runCount, a.expiresAt, now);
      var nextWakeAt := None;
      if reason.None? {
        var next := ComputeNextAfterRun(env.zones, a.trigger, a.runs[row.i].scheduledFor, now);
        if next.Err? {
          return;
        }
        nextWakeAt := next.value;
      }
      b := b.(runCount := runCount, nextWakeAt := nextWakeAt);
      if reason.Some? || nextWakeAt.None? {
        b := b.(status := Completed, completionReason := if reason.Some? then reason else Some(ScheduleCompleted));
      }
      table := table[row.automationId := b];
    }

    method FindInterrupted() returns (rows: seq<RunRef>)
      ensures forall i, j :: 0 <= i < j < |rows| ==> rows[i] != rows[j]
      ensures forall row <- rows :: IsInterrupted(table, row)
      ensures |rows| <= RECOVERY_BATCH
      ensures |rows| < RECOVERY_BATCH ==> forall row :: IsInterrupted(table, row) ==> row in rows
    {
      var rest := set id, i | id in table && 0 <= i < |table[id].runs| && IsUnderWay(table[id].runs[i]) :: RunRef(id, i);
      rows := [];
      while rest != {} && |rows| < RECOVERY_BATCH
        invariant |rows| <= RECOVERY_BATCH
        invariant forall row :: IsInterrupted(table, row) <==> row in rest || row in rows
        invariant forall row <- rows :: row !in rest
        invariant forall i, j :: 0 <= i < j < |rows| ==> rows[i] != rows[j]
        decreases rest
      {
        var row :| row in rest;
        rows := rows + [row];
        rest := rest - {row};
      }
    }
  }

  /** The runs that deletion of c finds under way, of automations that are not terminal. */
  predicate IsStoppedBy(table: map<AutomationId, Automation>, c: ConversationId, ref: RunRef) {
    && IsInterrupted(table, ref) && table[ref.automationId].conversationId == c && !IsTerminal(table[ref.automationId])
  }

  function TraceOf(table: map<AutomationId, Automation>, ref: RunRef): Option<TraceId> {
    if ref.automationId in table && ref.i < |table[ref.automationId].runs| then table[ref.automationId].runs[ref.i].traceId else None
  }

  /** A run that deletion moves to CANCELLING is asked to stop if and only if its automation was active or paused. */
  lemma DeletionAsksIff(table: map<AutomationId, Automation>, c: ConversationId, ref: RunRef)
    requires ref.automationId in table && table[ref.automationId].conversationId == c && ref.i < |table[ref.automationId].runs|
    requires table[ref.automationId].runs[ref.i].status == Running
    ensures ConversationDeleted(table[ref.automationId]).runs[ref.i].status == Cancelling
    ensures IsStoppedBy(table, c, ref) <==> table[ref.automationId].status == Active || table[ref.automationId].status == Paused
    ensures TraceOf(table, ref) == table[ref.automationId].runs[ref.i].traceId
  {
  }

  function TracesOfOpenRuns(a: Automation): set<TraceId> {
    set i | 0 <= i < |a.runs| && IsOpen(a.runs[i]) && a.runs[i].traceId.Some? :: a.runs[i].traceId.value
  }

  lemma OpenTracesIff(a: Automation, trace: TraceId)
    ensures trace in TracesOfOpenRuns(a) <==>
      exists run <- a.runs :: (run.status == Pending || run.status == Running || run.status == Cancelling) && run.traceId == Some(trace)
  {
    if exists run <- a.runs :: (run.status == Pending || run.status == Running || run.status == Cancelling) && run.traceId == Some(trace) {
      var run :| run in a.runs && IsOpen(run) && run.traceId == Some(trace);
      var i :| 0 <= i < |a.runs| && a.runs[i] == run;
    }
  }

  lemma DeletionIsRowByRow(found: map<AutomationId, Automation>, c: ConversationId, unclaimed: map<AutomationId, Automation>,
                           stopping: map<AutomationId, Automation>, result: map<AutomationId, Automation>)
    requires found.Keys == unclaimed.Keys == stopping.Keys == result.Keys
    requires forall id <- found ::
      unclaimed[id] == (if found[id].conversationId == c then found[id].(runs := UpdateRuns(found[id].runs, Pending, RunCancelled))
                        else found[id])
    requires forall id <- found ::
      stopping[id] == (if unclaimed[id].conversationId == c then unclaimed[id].(runs := UpdateRuns(unclaimed[id].runs, Running, Cancelling))
                       else unclaimed[id])
    requires forall id <- found ::
      result[id] == (if stopping[id].conversationId == c && (stopping[id].status == Active || stopping[id].status == Paused) then
                       stopping[id].(status := Cancelled, nextWakeAt := None)
                     else stopping[id])
    ensures result == map id | id in found :: if found[id].conversationId == c then ConversationDeleted(found[id]) else found[id]
  {
    hide UpdateRuns;
  }

  lemma TracesExist(a: Automation)
    ensures TracesOfOpenRuns(a) != {} <==> HasTracedOpenRun(a)
  {
    if TracesOfOpenRuns(a) != {} {
      var t :| t in TracesOfOpenRuns(a);
    }
    forall i | 0 <= i < |a.runs| && IsOpen(a.runs[i]) && a.runs[i].traceId.Some? ensures TracesOfOpenRuns(a) != {} {
      assert a.runs[i].traceId.value in TracesOfOpenRuns(a);
    }
  }
}
