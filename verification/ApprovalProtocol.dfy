/**
 One approval row, one call that waits for its decision, and any number of deciders and polls racing each other. A database call,
 and the code between two awaits, is one step. A step that does not apply changes nothing, so every sequence of steps is a run.
 */
module ApprovalProtocol {
  import opened Wrappers

  datatype Status = Pending | Approved | Rejected | Expired | Cancelled | Resumed

  datatype Decision = ApproveOnce | AuditOnly | FullAccessForTask | Reject

  datatype Row = Row(status: Status, decision: Option<Decision>)

  function DecidedStatus(d: Decision): Status {
    if d == Reject then Rejected else Approved
  }

  /** An updateMany whose condition is that the row is still pending. */
  function DecideIfPending(row: Row, d: Decision): Row {
    if row.status == Pending then Row(DecidedStatus(d), Some(d)) else row
  }

  function CloseIfPending(row: Row, status: Status): Row {
    if row.status == Pending then row.(status := status) else row
  }

  datatype Failure = TimedOut | Aborted

  /** The waiting call. It is in the map of waiters exactly while it is `Waiting`. */
  datatype Caller =
    | Idle
    | HasRead(snapshot: Option<Decision>)
    | Waiting
    | Resolved(decision: Decision)
    | Failed(reason: Failure)

  predicate Settled(c: Caller) { c.Resolved? || c.Failed? }

  /** A call of resolvePendingRow; `captured` tells whether it found the waiter in the map. */
  datatype Decider =
    | SawPending(wish: Decision)
    | Sent(wish: Decision, captured: bool)
    | Swapped(wish: Decision, captured: bool, won: bool)
    | ReadBack(wish: Decision, captured: bool, won: bool, seen: Option<Decision>)
    | Finished(captured: bool, won: bool)

  /** `winner`, `written` and `published` are history. */
  datatype World = World(
    row: Row,
    caller: Caller,
    deciders: map<nat, Decider>,
    polls: map<nat, Option<Decision>>,
    winner: Option<nat>,
    written: seq<Decision>,
    published: seq<Decision>)

  const INITIAL := World(Row(Pending, None), Idle, map[], map[], None, [], [])

  datatype Step =
    | ReadFirst
    | Register(aborted: bool)
    | PollRead(poll: nat)
    | PollDeliver(poll: nat)
    | TimerFires
    | AbortFires
    | CloseRow(expired: bool)
    | MarkResumed
    | SeePending(id: nat, wish: Decision)
    | Capture(id: nat)
    | Swap(id: nat)
    | LookBack(id: nat)
    | SettleAndPublish(id: nat)

  /** A promise settles once. */
  function Deliver(c: Caller, d: Option<Decision>): Caller {
    if c == Waiting && d.Some? then Resolved(d.value) else c
  }

  function Next(w: World, step: Step): World {
    match step
    case ReadFirst =>
      if w.caller != Idle then w else w.(caller := HasRead(w.row.decision))
    case Register(aborted) =>
      if !w.caller.HasRead? then w
      else if w.caller.snapshot.Some? then w.(caller := Resolved(w.caller.snapshot.value))
      else if aborted then w.(caller := Failed(Aborted))
      else w.(caller := Waiting)
    case PollRead(poll) => w.(polls := w.polls[poll := w.row.decision])
    case PollDeliver(poll) =>
      if poll !in w.polls then w
      else w.(caller := Deliver(w.caller, w.polls[poll]), polls := w.polls - {poll})
    case TimerFires => if w.caller == Waiting then w.(caller := Failed(TimedOut)) else w
    case AbortFires => if w.caller == Waiting then w.(caller := Failed(Aborted)) else w
    case CloseRow(expired) => w.(row := CloseIfPending(w.row, if expired then Expired else Cancelled))
    case MarkResumed => w.(row := w.row.(status := Resumed))
    case SeePending(id, wish) =>
      if id in w.deciders || w.row.status != Pending then w else w.(deciders := w.deciders[id := SawPending(wish)])
    case Capture(id) =>
      if id in w.deciders && w.deciders[id].SawPending? then
        w.(deciders := w.deciders[id := Sent(w.deciders[id].wish, w.caller == Waiting)])
      else w
    case Swap(id) =>
      if id in w.deciders && w.deciders[id].Sent? then
        var d := w.deciders[id];
        if w.row.status == Pending then
          w.(row := DecideIfPending(w.row, d.wish), deciders := w.deciders[id := Swapped(d.wish, d.captured, true)],
             winner := Some(id), written := w.written + [d.wish])
        else w.(deciders := w.deciders[id := Swapped(d.wish, d.captured, false)])
      else w
    case LookBack(id) =>
      if id in w.deciders && w.deciders[id].Swapped? then
        var d := w.deciders[id];
        w.(deciders := w.deciders[id := ReadBack(d.wish, d.captured, d.won, w.row.decision)])
      else w
    case SettleAndPublish(id) =>
      if id in w.deciders && w.deciders[id].ReadBack? then
        var d := w.deciders[id];
        w.(caller := if d.captured then Deliver(w.caller, d.seen) else w.caller,
           deciders := w.deciders[id := Finished(d.captured, d.won)],
           published := if d.won then w.published + [d.wish] else w.published)
      else w
  }

  function After(w: World, steps: seq<Step>): World
    decreases |steps|
  {
    if steps == [] then w else After(Next(w, steps[0]), steps[1..])
  }

  // ---------------------------------------------------------------- the invariant

  predicate RowIsConsistent(row: Row) {
    && (row.decision.Some? ==> row.status == Resumed || row.status == DecidedStatus(row.decision.value))
    && (row.decision.None? ==> row.status != Approved && row.status != Rejected)
  }

  /** What was read from the row is still what the row says, once it says anything. */
  predicate Current(row: Row, snapshot: Option<Decision>) {
    snapshot.Some? ==> row.decision == snapshot
  }

  predicate CallerAgrees(w: World) {
    match w.caller
    case HasRead(snapshot) => Current(w.row, snapshot)
    case Resolved(d) => w.row.decision == Some(d)
    case _ => true
  }

  predicate Won(d: Decider) {
    (d.Swapped? || d.ReadBack? || d.Finished?) && d.won
  }

  predicate Captured(d: Decider) {
    !d.SawPending? && d.captured
  }

  predicate DeciderAgrees(w: World, id: nat)
    requires id in w.deciders
  {
    var d := w.deciders[id];
    && (Won(d) <==> w.winner == Some(id))
    && (Won(d) && !d.Finished? ==> w.row.decision == Some(d.wish))
    && (d.ReadBack? ==> Current(w.row, d.seen) && (d.won ==> d.seen == Some(d.wish)))
    && (Captured(d) ==> w.caller == Waiting || Settled(w.caller))
    && (Won(d) && d.Finished? && d.captured ==> Settled(w.caller))
  }

  predicate HistoryAgrees(w: World) {
    && w.written == (if w.row.decision.Some? then [w.row.decision.value] else [])
    && (w.winner.Some? <==> w.row.decision.Some?)
    && (w.winner.Some? ==> w.winner.value in w.deciders)
    && w.published == (if w.winner.Some? && w.deciders[w.winner.value].Finished? then w.written else [])
  }

  ghost predicate Inv(w: World) {
    && RowIsConsistent(w.row)
    && CallerAgrees(w)
    && (forall p <- w.polls :: Current(w.row, w.polls[p]))
    && (forall id <- w.deciders :: DeciderAgrees(w, id))
    && HistoryAgrees(w)
  }

  lemma InitialInv()
    ensures Inv(INITIAL)
  {
  }

  lemma CallerStepKeepsInv(w: World, step: Step)
    requires Inv(w) && (step.ReadFirst? || step.Register? || step.TimerFires? || step.AbortFires?)
    ensures Inv(Next(w, step))
  {
    forall id | id in w.deciders ensures DeciderAgrees(Next(w, step), id) {
      assert DeciderAgrees(w, id);
    }
  }

  lemma PollStepKeepsInv(w: World, step: Step)
    requires Inv(w) && (step.PollRead? || step.PollDeliver?)
    ensures Inv(Next(w, step))
  {
    forall id | id in w.deciders ensures DeciderAgrees(Next(w, step), id) {
      assert DeciderAgrees(w, id);
    }
  }

  lemma RowStepKeepsInv(w: World, step: Step)
    requires Inv(w) && (step.CloseRow? || step.MarkResumed?)
    ensures Inv(Next(w, step))
  {
    forall id | id in w.deciders ensures DeciderAgrees(Next(w, step), id) {
      assert DeciderAgrees(w, id);
    }
  }

  lemma DeciderStepKeepsInv(w: World, step: Step)
    requires Inv(w) && (step.SeePending? || step.Capture? || step.LookBack?)
    ensures Inv(Next(w, step))
  {
    var v := Next(w, step);
    forall id | id in v.deciders ensures DeciderAgrees(v, id) {
      assert id in w.deciders ==> DeciderAgrees(w, id);
    }
  }

  lemma SwapKeepsInv(w: World, id: nat)
    requires Inv(w)
    ensures Inv(Next(w, Swap(id)))
  {
    var v := Next(w, Swap(id));
    forall i | i in v.deciders ensures DeciderAgrees(v, i) {
      assert DeciderAgrees(w, i);
    }
  }

  lemma SettleKeepsInv(w: World, id: nat)
    requires Inv(w)
    ensures Inv(Next(w, SettleAndPublish(id)))
  {
    var v := Next(w, SettleAndPublish(id));
    assert id in w.deciders ==> DeciderAgrees(w, id);
    forall i | i in v.deciders ensures DeciderAgrees(v, i) {
      assert DeciderAgrees(w, i);
    }
  }

  lemma StepKeepsInv(w: World, step: Step)
    requires Inv(w)
    ensures Inv(Next(w, step))
  {
    hide Inv, Next;
    match step
    case PollRead(_) => PollStepKeepsInv(w, step);
    case PollDeliver(_) => PollStepKeepsInv(w, step);
    case CloseRow(_) => RowStepKeepsInv(w, step);
    case MarkResumed => RowStepKeepsInv(w, step);
    case SeePending(_, _) => DeciderStepKeepsInv(w, step);
    case Capture(_) => DeciderStepKeepsInv(w, step);
    case LookBack(_) => DeciderStepKeepsInv(w, step);
    case Swap(id) => SwapKeepsInv(w, id);
    case SettleAndPublish(id) => SettleKeepsInv(w, id);
    case _ => CallerStepKeepsInv(w, step);
  }

  // ---------------------------------------------------------------- whole runs

  lemma {:induction false} RunsKeepInv(w: World, steps: seq<Step>)
    requires Inv(w)
    ensures Inv(After(w, steps))
    decreases |steps|
  {
    hide Inv, Next;
    if steps != [] {
      StepKeepsInv(w, steps[0]);
      RunsKeepInv(Next(w, steps[0]), steps[1..]);
    }
  }

  lemma StepKeepsDecision(w: World, step: Step)
    requires Inv(w)
    ensures w.row.decision.Some? ==> Next(w, step).row.decision == w.row.decision
    ensures w.row.decision.None? && w.row.status != Pending ==>
      Next(w, step).row.decision == None && Next(w, step).row.status != Pending
    ensures Settled(w.caller) ==> Next(w, step).caller == w.caller
  {
  }

  /** A decision, once written, is never replaced; an outcome of the waiting call is never replaced either. */
  lemma {:induction false} DecisionIsFinal(w: World, steps: seq<Step>)
    requires Inv(w)
    ensures w.row.decision.Some? ==> After(w, steps).row.decision == w.row.decision
    ensures Settled(w.caller) ==> After(w, steps).caller == w.caller
    decreases |steps|
  {
    hide Inv, Next;
    if steps != [] {
      StepKeepsInv(w, steps[0]);
      StepKeepsDecision(w, steps[0]);
      DecisionIsFinal(Next(w, steps[0]), steps[1..]);
    }
  }

  /** A row that left pending without a decision never gets one, so nobody who waits for it is answered. */
  lemma {:induction false} ClosedRowStaysUndecided(w: World, steps: seq<Step>)
    requires Inv(w) && w.row.decision.None? && w.row.status != Pending
    ensures After(w, steps).row.decision.None? && !After(w, steps).caller.Resolved? && After(w, steps).published == []
    decreases |steps|
  {
    if steps == [] {
      assert w.caller.Resolved? ==> w.row.decision.Some?;
    } else {
      StepKeepsInv(w, steps[0]);
      StepKeepsDecision(w, steps[0]);
      ClosedRowStaysUndecided(Next(w, steps[0]), steps[1..]);
    }
  }

  /**
   Agreement, after any interleaving: a call that is answered gets the persisted decision, an expired or cancelled row answered
   nobody, and at most one decision was ever written.
   */
  lemma Agreement(steps: seq<Step>)
    ensures var w := After(INITIAL, steps);
      && (w.caller.Resolved? ==> w.row.decision == Some(w.caller.decision))
      && (w.row.status == Expired || w.row.status == Cancelled ==> !w.caller.Resolved?)
      && |w.written| <= 1
      && (w.row.decision.Some? <==> w.written != [])
      && (w.row.decision.Some? ==> w.written[0] == w.row.decision.value)
  {
    hide After;
    InitialInv();
    RunsKeepInv(INITIAL, steps);
  }

  predicate AllFinished(w: World) {
    forall id <- w.deciders :: w.deciders[id].Finished?
  }

  /** Once no decider is under way, exactly the decided row was published, once, with the persisted decision. */
  lemma PublishedOnce(steps: seq<Step>)
    requires AllFinished(After(INITIAL, steps))
    ensures var w := After(INITIAL, steps);
      w.published == (if w.row.decision.Some? then [w.row.decision.value] else [])
  {
    hide After;
    InitialInv();
    RunsKeepInv(INITIAL, steps);
  }

  /** No lost wake-up: a call still waiting on a decided row is answered by its next poll, with that decision. */
  lemma NextPollAnswers(steps: seq<Step>, poll: nat)
    requires After(INITIAL, steps).caller == Waiting
    ensures var w := After(INITIAL, steps);
      var polled := Next(Next(w, PollRead(poll)), PollDeliver(poll));
      if w.row.decision.Some? then polled.caller == Resolved(w.row.decision.value) else polled.caller == Waiting
  {
  }

  /** A winner that found the waiter does not leave it to the poll. */
  lemma WinnerAnswers(steps: seq<Step>, id: nat)
    requires var w := After(INITIAL, steps);
      id in w.deciders && w.deciders[id] == Finished(true, true)
    ensures Settled(After(INITIAL, steps).caller)
  {
    hide After;
    InitialInv();
    RunsKeepInv(INITIAL, steps);
    assert DeciderAgrees(After(INITIAL, steps), id);
  }

  lemma {:induction false} ReadingStays(w: World, steps: seq<Step>)
    requires w.caller.HasRead? && forall step <- steps :: !step.Register?
    ensures After(w, steps).caller == w.caller
    decreases |steps|
  {
    if steps != [] {
      ReadingStays(Next(w, steps[0]), steps[1..]);
    }
  }

  /**
   How a wait begins, whatever deciders and polls do between its first read and its registration: a decision that was read is the answer;
   otherwise a call that is aborted already fails, and any other waits.
   */
  lemma WaitBegins(w: World, mid: seq<Step>, aborted: bool)
    requires w.caller == Idle && forall step <- mid :: !step.Register?
    ensures Next(After(Next(w, ReadFirst), mid), Register(aborted)).caller ==
      (if w.row.decision.Some? then Resolved(w.row.decision.value) else if aborted then Failed(Aborted) else Waiting)
  {
    ReadingStays(Next(w, ReadFirst), mid);
  }

  /** What closing makes of a row, for a timeout and for an abort; a decided row it leaves alone, and never anything but the row. */
  lemma ClosingIff(w: World, expired: bool)
    ensures var v := Next(w, CloseRow(expired));
      && v == w.(row := v.row) && v.row.decision == w.row.decision
      && v.row.status == (if w.row.status != Pending then w.row.status else if expired then Expired else Cancelled)
  {
  }

  /** Resuming a turn marks its row, and keeps the decision. */
  lemma ResumingKeepsTheDecision(w: World)
    ensures Next(w, MarkResumed) == w.(row := Row(Resumed, w.row.decision))
  {
  }

  /** What a decider does when nothing comes between its steps. */
  function DecideAtOnce(w: World, id: nat, wish: Decision): World {
    After(w, [SeePending(id, wish), Capture(id), Swap(id), LookBack(id), SettleAndPublish(id)])
  }

  lemma AfterOne(w: World, step: Step, rest: seq<Step>)
    ensures After(w, [step] + rest) == After(Next(w, step), rest)
  {
    assert ([step] + rest)[1..] == rest;
  }

  lemma FiveSteps(w: World, a: Step, b: Step, c: Step, d: Step, e: Step, rest: seq<Step>)
    ensures After(w, [a, b, c, d, e] + rest) == After(Next(Next(Next(Next(Next(w, a), b), c), d), e), rest)
  {
    hide Next, After;
    assert [a, b, c, d, e] + rest == [a] + ([b] + ([c] + ([d] + ([e] + rest))));
    AfterOne(w, a, [b] + ([c] + ([d] + ([e] + rest))));
    AfterOne(Next(w, a), b, [c] + ([d] + ([e] + rest)));
    AfterOne(Next(Next(w, a), b), c, [d] + ([e] + rest));
    AfterOne(Next(Next(Next(w, a), b), c), d, [e] + rest);
    AfterOne(Next(Next(Next(Next(w, a), b), c), d), e, rest);
  }

  /** An uninterrupted decider decides exactly a pending row and answers exactly a call that waits for it. */
  lemma UninterruptedDecision(w: World, id: nat, wish: Decision)
    requires Inv(w) && id !in w.deciders
    ensures var r := DecideAtOnce(w, id, wish);
      && r.row == DecideIfPending(w.row, wish)
      && r.caller == (if w.row.status == Pending then Deliver(w.caller, Some(wish)) else w.caller)
      && r.published == (if w.row.status == Pending then w.published + [wish] else w.published)
  {
    hide After, Inv;
    var five := [SeePending(id, wish), Capture(id), Swap(id), LookBack(id), SettleAndPublish(id)];
    FiveSteps(w, SeePending(id, wish), Capture(id), Swap(id), LookBack(id), SettleAndPublish(id), []);
    assert five + [] == five;
    NothingLeft(Next(Next(Next(Next(Next(w, SeePending(id, wish)), Capture(id)), Swap(id)), LookBack(id)), SettleAndPublish(id)));
    var seen := Next(w, SeePending(id, wish));
    if w.row.status == Pending {
      CaptureAndSwap(seen, id, wish);
      AnswerAndPublish(Next(Next(seen, Capture(id)), Swap(id)), id, wish, w.caller == Waiting);
    }
  }

  lemma NothingLeft(w: World)
    ensures After(w, []) == w
  {
  }

  lemma CaptureAndSwap(w: World, id: nat, wish: Decision)
    requires id in w.deciders && w.deciders[id] == SawPending(wish) && w.row.status == Pending
    ensures var r := Next(Next(w, Capture(id)), Swap(id));
      && r.row == DecideIfPending(w.row, wish) && r.caller == w.caller && r.published == w.published
      && id in r.deciders && r.deciders[id] == Swapped(wish, w.caller == Waiting, true)
  {
  }

  lemma AnswerAndPublish(w: World, id: nat, wish: Decision, captured: bool)
    requires id in w.deciders && w.deciders[id] == Swapped(wish, captured, true)
    ensures var r := Next(Next(w, LookBack(id)), SettleAndPublish(id));
      && r.row == w.row && r.published == w.published + [wish]
      && r.caller == (if captured then Deliver(w.caller, w.row.decision) else w.caller)
  {
  }

  /**
   When a wait that ends in a timeout or abort misses the decision. The call gives up first and closes the row later; whatever happens
   before, between and after, the row ends up decided if and only if it was decided before the update that closes it.
   */
  lemma MissedDecisionIff(w: World, expired: bool, mid: seq<Step>, rest: seq<Step>)
    requires Inv(w) && w.caller == Waiting
    ensures var v := After(Next(w, if expired then TimerFires else AbortFires), mid);
      var z := After(Next(v, CloseRow(expired)), rest);
      && z.caller == Failed(if expired then TimedOut else Aborted)
      && (z.row.decision.Some? <==> v.row.decision.Some?)
      && (v.row.decision.Some? ==> z.row.decision == v.row.decision)
  {
    hide Inv, After;
    var given := if expired then TimerFires else AbortFires;
    var v0 := Next(w, given);
    StepKeepsInv(w, given);
    RunsKeepInv(v0, mid);
    DecisionIsFinal(v0, mid);
    var v := After(v0, mid);
    StepKeepsInv(v, CloseRow(expired));
    StepKeepsDecision(v, CloseRow(expired));
    DecisionIsFinal(Next(v, CloseRow(expired)), rest);
    if v.row.decision.None? {
      ClosedRowStaysUndecided(Next(v, CloseRow(expired)), rest);
    }
  }

  /** A wait can time out although the decision is recorded: the timer may fire between the swap and the answer. */
  lemma TimeoutMayMissTheDecision() returns (steps: seq<Step>)
    ensures var w := After(INITIAL, steps);
      w.caller == Failed(TimedOut) && w.row == Row(Approved, Some(ApproveOnce)) && w.published == [ApproveOnce]
  {
    hide After;
    var last := [TimerFires] + ([LookBack(0)] + ([SettleAndPublish(0)] + []));
    steps := [ReadFirst, Register(false), SeePending(0, ApproveOnce), Capture(0), Swap(0)] + last;
    FiveSteps(INITIAL, ReadFirst, Register(false), SeePending(0, ApproveOnce), Capture(0), Swap(0), last);
    var waiting := INITIAL.(caller := Waiting);
    assert Next(Next(INITIAL, ReadFirst), Register(false)) == waiting;
    var seen := Next(waiting, SeePending(0, ApproveOnce));
    CaptureAndSwap(seen, 0, ApproveOnce);
    var late := Next(Next(Next(seen, Capture(0)), Swap(0)), TimerFires);
    AfterOne(Next(Next(seen, Capture(0)), Swap(0)), TimerFires, [LookBack(0)] + ([SettleAndPublish(0)] + []));
    AnswerAndPublish(late, 0, ApproveOnce, true);
    AfterOne(late, LookBack(0), [SettleAndPublish(0)] + []);
    AfterOne(Next(late, LookBack(0)), SettleAndPublish(0), []);
    NothingLeft(Next(Next(late, LookBack(0)), SettleAndPublish(0)));
  }
}
