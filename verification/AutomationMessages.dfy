/**
 The automations of AutomationSystem together with the messages of one conversation. An executor prepares an answer, judges its
 result, looks at the leaf, commits the answer in a read and a later transaction, and then puts the leaf back or hides the answer;
 requests, deletion and restoring of the conversation, other executors and crashes come in between.
 */
module AutomationMessages {
  import opened Wrappers
  import opened BranchSelection
  import opened Conversation
  import opened AutomationLifecycle
  import opened AutomationRow
  import opened AutomationSystem
  import opened AutomationRuns

  /** How far an executor is with its answer; `seen` is what commitTerminal read of it. */
  datatype Phase =
    | Working
    | Judged(deliver: bool)
    | SawLeaf(deliver: bool, leaf: Option<MessageId>)
    | SawMessage(deliver: bool, leaf: Option<MessageId>, seen: Message)
    | Committed(deliver: bool, leaf: Option<MessageId>)
    | Delivered
    | Hidden

  /** `covered`, history: deletion of the conversation hid the answer, and no commit has shown it again. */
  datatype Job = Job(parent: MessageId, phase: Phase, covered: bool)

  /**
   answers: the answer stored with a run. jobs: the executors that have one. noticed: automations whose expiry notice was sent.
   The counters are history. late: answers hidden in the recycle bin that deletion had not hidden. twice: answers hidden after
   restoring that deletion had hidden before. undone: commits that showed an answer again that deletion had hidden.
   */
  datatype Joint = Joint(
    c: ConversationId,
    s: System,
    t: Tree,
    answers: map<RunRef, MessageId>,
    jobs: map<RunRef, Job>,
    noticed: set<AutomationId>,
    late: nat,
    twice: nat,
    undone: nat)

  datatype JointEvent =
    | Happens(e: Event, order: seq<MessageId>)
    | Chat(id: MessageId)
    | DoPrepareAnswer(run: RunRef, chatBusy: bool, user: MessageId, assistant: MessageId)
    | Judge(run: RunRef, successful: bool)
    | SeeLeaf(run: RunRef)
    | SeeMessage(run: RunRef)
    | Commit(run: RunRef)
    | Place(run: RunRef)
    | Fail(run: RunRef, gone: bool)
    | Notice(id: AutomationId, chatBusy: bool, notice: MessageId)

  function Empty(c: ConversationId): Joint {
    Joint(c, Start(), Tree(map[], None, 0, true), map[], map[], {}, 0, 0, 0)
  }

  // ---------------------------------------------------------------- what the queries find

  function StatusOf(s: System, run: RunRef): Option<RunStatus> {
    if run.automationId in s.table && run.i < |s.table[run.automationId].runs| then Some(s.table[run.automationId].runs[run.i].status)
    else None
  }

  predicate IsUnderWayIn(s: System, run: RunRef) {
    StatusOf(s, run) == Some(Running) || StatusOf(s, run) == Some(Cancelling)
  }

  predicate BelongsTo(s: System, run: RunRef, c: ConversationId) {
    StatusOf(s, run).Some? && s.table[run.automationId].conversationId == c
  }

  /** Another run of the conversation is RUNNING and has its answer. */
  predicate OtherRunning(j: Joint, run: Option<RunRef>) {
    exists r <- j.answers :: Some(r) != run && StatusOf(j.s, r) == Some(Running)
  }

  /** Deletion cleans up after the runs under way of active and paused automations. */
  predicate IsCleanedUp(j: Joint, run: RunRef) {
    && run in j.answers && IsUnderWayIn(j.s, run)
    && !IsTerminal(j.s.table[run.automationId])
  }

  /** The query gives the answers in some order, each once. */
  predicate Enumerates(j: Joint, order: seq<MessageId>) {
    && (forall run <- j.answers :: IsCleanedUp(j, run) <==> j.answers[run] in order)
    && (forall a <- order :: exists run :: run in j.answers && j.answers[run] == a)
    && Distinct(order)
  }

  predicate DeletesIt(j: Joint, e: Event) {
    e.action == DeleteConversation(j.c) && j.c in j.s.live
  }

  predicate RestoresIt(j: Joint, e: Event) {
    e.action == OpenConversation(j.c) && j.c !in j.s.live
  }

  // ---------------------------------------------------------------- steps

  function Finish(t: Tree, a: MessageId): Tree {
    if a in t.messages then t.(messages := t.messages[a := t.messages[a].(unfinished := false)]) else t
  }

  /** The transaction of commitTerminal, on what it read before: it writes the visibility back and moves the leaf. */
  function CommitSeen(t: Tree, a: MessageId, seen: Message): Tree {
    if !seen.unfinished || a !in t.messages then t
    else t.(messages := t.messages[a := t.messages[a].(unfinished := false, internal := seen.internal)], leaf := Some(a))
  }

  function TreeAfter(env: Environment, j: Joint, e: Event, order: seq<MessageId>): Tree
    requires ValidEnvironment(env)
  {
    if DeletesIt(j, e) then CleanUpAll(j.t, order).(recycled := true)
    else if RestoresIt(j, e) then j.t.(recycled := false)
    else
      match e.action
      case RecoverInterrupted(run) =>
        if run in j.answers && IsUnderWayIn(j.s, run) && RecoverRun(env, j.s.table[run.automationId], run.i, e.now).Ok? then
          Finish(j.t, j.answers[run])
        else j.t
      case _ => j.t
  }

  function Covered(j: Joint, e: Event, run: RunRef): bool
    requires run in j.jobs
  {
    j.jobs[run].covered || (DeletesIt(j, e) && IsCleanedUp(j, run))
  }

  function JobsAfter(j: Joint, e: Event, executing: set<RunRef>): map<RunRef, Job> {
    map run | run in j.jobs && run in executing :: j.jobs[run].(covered := Covered(j, e, run))
  }

  function WithPhase(j: Joint, run: RunRef, phase: Phase): map<RunRef, Job>
    requires run in j.jobs
  {
    j.jobs[run := j.jobs[run].(phase := phase)]
  }

  /** shouldDeliverResult, asked with the automation as it is now. */
  predicate Delivers(a: Automation, successful: bool) {
    !successful || a.delivery != OnCompletion || a.status == Completed
  }

  function RestoredLeaf(j: Joint, run: RunRef): MessageId
    requires run in j.jobs && run in j.answers && j.jobs[run].phase.Committed?
  {
    var leaf := j.jobs[run].phase.leaf;
    if leaf.Some? && leaf.value != j.answers[run] then leaf.value else j.jobs[run].parent
  }

  function PlaceAnswer(j: Joint, run: RunRef): Joint
    requires run in j.jobs && run in j.answers && j.jobs[run].phase.Committed?
  {
    var a, job := j.answers[run], j.jobs[run];
    if job.phase.deliver then j.(t := RestoreLeaf(j.t, a, job.phase.leaf), jobs := WithPhase(j, run, Delivered))
    else
      j.(t := Hide(j.t, a, RestoredLeaf(j, run), job.parent), jobs := WithPhase(j, run, Hidden),
         late := if j.t.recycled && !job.covered then j.late + 1 else j.late,
         twice := if !j.t.recycled && job.covered then j.twice + 1 else j.twice)
  }

  function CommitAnswer(j: Joint, run: RunRef): Joint
    requires run in j.jobs && run in j.answers && j.jobs[run].phase.SawMessage?
  {
    var a, job := j.answers[run], j.jobs[run];
    var shows := job.phase.seen.unfinished && job.covered;
    j.(t := CommitSeen(j.t, a, job.phase.seen),
       jobs := j.jobs[run := Job(job.parent, Committed(job.phase.deliver, job.phase.leaf), job.covered && !shows)],
       undone := if shows then j.undone + 1 else j.undone)
  }

  predicate HasJob(j: Joint, run: RunRef) {
    run in j.jobs && run in j.answers && j.answers[run] in j.t.messages && run.automationId in j.s.table
  }

  function Next(env: Environment, j: Joint, e: JointEvent): Joint
    requires ValidEnvironment(env)
  {
    match e
    case Happens(e, order) =>
      var s := Apply(env, j.s, e);
      j.(s := s, t := TreeAfter(env, j, e, order), jobs := JobsAfter(j, e, s.executing))
    case Chat(id) =>
      if j.t.recycled then j
      else j.(t := j.t.(messages := j.t.messages[id := Message(j.t.leaf, false, false, false)], leaf := Some(id),
                        messageCount := j.t.messageCount + 1))
    case DoPrepareAnswer(run, chatBusy, user, assistant) =>
      var ours := StatusOf(j.s, run) == Some(Running);
      var ready := PrepareAnswer(j.t, ours, chatBusy, OtherRunning(j, Some(run)));
      if !ready.Ready? then j
      else j.(t := Prepare(j.t, ours, chatBusy, OtherRunning(j, Some(run)), user, assistant),
              answers := j.answers[run := assistant], jobs := j.jobs[run := Job(ready.parent, Working, false)])
    case Judge(run, successful) =>
      if HasJob(j, run) && j.jobs[run].phase.Working? then
        j.(jobs := WithPhase(j, run, Judged(Delivers(j.s.table[run.automationId], successful))))
      else j
    case SeeLeaf(run) =>
      if HasJob(j, run) && j.jobs[run].phase.Judged? then j.(jobs := WithPhase(j, run, SawLeaf(j.jobs[run].phase.deliver, j.t.leaf)))
      else j
    case SeeMessage(run) =>
      if HasJob(j, run) && j.jobs[run].phase.SawLeaf? then
        var p := j.jobs[run].phase;
        j.(jobs := WithPhase(j, run, SawMessage(p.deliver, p.leaf, j.t.messages[j.answers[run]])))
      else j
    case Commit(run) => if HasJob(j, run) && j.jobs[run].phase.SawMessage? then CommitAnswer(j, run) else j
    case Place(run) => if HasJob(j, run) && j.jobs[run].phase.Committed? then PlaceAnswer(j, run) else j
    case Fail(run, gone) =>
      if HasJob(j, run) && !IsSettled(j.jobs[run].phase) then
        j.(jobs := WithPhase(j, run, if gone then Delivered else SawLeaf(true, j.t.leaf)))
      else j
    case Notice(id, chatBusy, notice) =>
      var wanted := id in j.s.table && j.s.table[id].status == Completed && j.s.table[id].completionReason == Some(Expired)
        && id !in j.noticed;
      if wanted && NoticeFits(j.t, chatBusy, OtherRunning(j, None)) then
        j.(t := PublishNotice(j.t, true, chatBusy, OtherRunning(j, None), notice), noticed := j.noticed + {id})
      else j
  }

  predicate IsSettled(phase: Phase) { phase.Delivered? || phase.Hidden? }

  /**
   Fresh ids; the database's answers; and the order in which an executor goes on: it prepares once, requeues only without an answer,
   and ends its run when its answer is settled. A failure after that changes nothing and is left out.
   */
  predicate Possible(j: Joint, e: JointEvent) {
    match e
    case Happens(e, order) =>
      && Enabled(j.s, e)
      && (DeletesIt(j, e) ==> Enumerates(j, order))
      && (e.action.EndRun? && e.action.run in j.jobs ==> IsSettled(j.jobs[e.action.run].phase))
      && (e.action.RequeueRun? ==> e.action.run !in j.jobs)
    case Chat(id) => id !in j.t.messages
    case DoPrepareAnswer(run, _, user, assistant) =>
      && run in j.s.executing && run !in j.jobs && BelongsTo(j.s, run, j.c)
      && user !in j.t.messages && assistant !in j.t.messages && user != assistant
    case Notice(id, _, notice) => id in j.s.table && j.s.table[id].conversationId == j.c && notice !in j.t.messages
    case _ => true
  }

  // ---------------------------------------------------------------- the invariant

  /** No message is gone, and parents and leaf are messages. */
  predicate IsWhole(t: Tree) {
    && (forall m <- t.messages :: !t.messages[m].deleted)
    && (forall m <- t.messages :: t.messages[m].parent.Some? ==> t.messages[m].parent.value in t.messages)
    && (t.leaf.Some? ==> t.leaf.value in t.messages)
  }

  predicate TreeFits(j: Joint) {
    (j.t.recycled <==> j.c !in j.s.live) && IsWhole(j.t)
  }

  /** The run of an answer exists, belongs to the conversation, and is not pending; an executor of it has the job. */
  predicate AnswerFits(j: Joint, run: RunRef)
    requires run in j.answers
  {
    && j.answers[run] in j.t.messages
    && BelongsTo(j.s, run, j.c) && StatusOf(j.s, run) != Some(Pending)
    && (run in j.s.executing ==> run in j.jobs)
  }

  predicate AnswersDiffer(j: Joint) {
    forall r <- j.answers, u <- j.answers :: j.answers[r] == j.answers[u] ==> r == u
  }

  function LeafOf(phase: Phase): Option<MessageId> {
    if phase.SawLeaf? || phase.SawMessage? || phase.Committed? then phase.leaf else None
  }

  /** Until it is hidden by its executor, an answer is internal exactly when deletion covered it, and then it is finished. */
  predicate JobFits(j: Joint, run: RunRef)
    requires run in j.jobs
  {
    && run in j.answers && run in j.s.executing && j.answers[run] in j.t.messages
    && var m, job := j.t.messages[j.answers[run]], j.jobs[run];
       && job.parent in j.t.messages
       && (LeafOf(job.phase).Some? ==> LeafOf(job.phase).value in j.t.messages)
       && (!job.phase.Hidden? ==> m.internal == job.covered)
       && (job.covered ==> !m.unfinished)
       && (job.phase.SawMessage? && job.phase.seen.unfinished ==> !job.phase.seen.internal)
  }

  ghost predicate JointInv(j: Joint) {
    && Inv(j.s)
    && TreeFits(j)
    && (forall run <- j.answers :: AnswerFits(j, run))
    && AnswersDiffer(j)
    && (forall run <- j.jobs :: JobFits(j, run))
    && Surplus(j.t) == j.late - j.twice - j.undone
  }

  lemma EmptyInv(c: ConversationId)
    ensures JointInv(Empty(c))
  {
  }

  // ---------------------------------------------------------------- what steps do to the tree

  /** The same messages, those in `gone` internal and finished, the rest as visible and as finished as before. */
  predicate Covers(t: Tree, u: Tree, gone: set<MessageId>) {
    && u.messages.Keys == t.messages.Keys
    && (forall m <- t.messages :: u.messages[m].internal == (t.messages[m].internal || m in gone))
    && (forall m <- t.messages :: u.messages[m].unfinished == (t.messages[m].unfinished && m !in gone))
  }

  lemma ReparentMovesOnly(messages: map<MessageId, Message>, a: MessageId, p: MessageId)
    ensures var r := Reparent(messages, a, p);
      && r.Keys == messages.Keys
      && (forall m <- messages :: r[m].parent == messages[m].parent || r[m].parent == Some(p))
      && (forall m <- messages :: r[m].internal == messages[m].internal && r[m].unfinished == messages[m].unfinished
                                  && r[m].deleted == messages[m].deleted)
  {
  }

  lemma CleanUpFlags(t: Tree, a: MessageId)
    requires IsWhole(t) && a in t.messages
    ensures Covers(t, CleanUp(t, a), {a})
  {
    hide Reparent;
    var m := t.messages[a];
    if m.parent.Some? {
      ReparentMovesOnly(t.messages[a := m.(internal := true, unfinished := false)], a, m.parent.value);
    }
  }

  lemma CleanUpIsWhole(t: Tree, a: MessageId)
    requires IsWhole(t) && a in t.messages
    ensures IsWhole(CleanUp(t, a))
  {
    hide Reparent;
    var m := t.messages[a];
    if m.parent.Some? {
      ReparentMovesOnly(t.messages[a := m.(internal := true, unfinished := false)], a, m.parent.value);
    }
  }

  lemma CleanUpCovers(t: Tree, a: MessageId)
    requires IsWhole(t) && a in t.messages
    ensures IsWhole(CleanUp(t, a)) && Covers(t, CleanUp(t, a), {a})
  {
    hide CleanUp, IsWhole, Covers;
    CleanUpFlags(t, a);
    CleanUpIsWhole(t, a);
  }

  lemma CoversAdds(t: Tree, u: Tree, v: Tree, gone: set<MessageId>, a: MessageId)
    requires Covers(t, u, gone) && Covers(u, v, {a})
    ensures Covers(t, v, gone + {a})
  {
  }

  lemma {:induction false} CleanUpAllCovers(t: Tree, order: seq<MessageId>)
    requires IsWhole(t) && forall a <- order :: a in t.messages
    ensures IsWhole(CleanUpAll(t, order)) && Covers(t, CleanUpAll(t, order), (set a | a in order))
    decreases |order|
  {
    hide CleanUp, IsWhole;
    if order != [] {
      var front, a := order[..|order| - 1], order[|order| - 1];
      CleanUpAllCovers(t, front);
      CleanUpCovers(CleanUpAll(t, front), a);
      CoversAdds(t, CleanUpAll(t, front), CleanUpAll(t, order), (set x | x in front), a);
      assert (set x | x in order) == (set x | x in front) + {a} by {
        assert order == front + [a];
      }
    }
  }

  lemma ReparentKeepsWhole(messages: map<MessageId, Message>, a: MessageId, p: MessageId)
    requires a in messages && p in messages
    ensures var u := Reparent(messages[a := messages[a].(internal := true)], a, p);
      && u.Keys == messages.Keys
      && (forall m <- messages :: u[m].deleted == messages[m].deleted)
      && (forall m <- messages :: u[m].parent == messages[m].parent || u[m].parent == Some(p))
      && (forall m <- messages :: u[m].internal == (messages[m].internal || m == a))
      && (forall m <- messages :: u[m].unfinished == messages[m].unfinished)
  {
  }

  lemma HideKeepsWhole(t: Tree, a: MessageId, restore: MessageId, p: MessageId)
    requires IsWhole(t) && a in t.messages && restore in t.messages && p in t.messages
    ensures var u := Hide(t, a, restore, p);
      && IsWhole(u) && u.messages.Keys == t.messages.Keys && u.recycled == t.recycled
      && (forall m <- t.messages :: u.messages[m].internal == (t.messages[m].internal || m == a))
      && (forall m <- t.messages :: u.messages[m].unfinished == t.messages[m].unfinished)
  {
    hide Reparent;
    ReparentKeepsWhole(t.messages, a, p);
  }

  /** Visibility and what is finished stay, and so does the count. */
  predicate Unshown(t: Tree, u: Tree) {
    && u.messages.Keys == t.messages.Keys && u.messageCount == t.messageCount
    && (forall m <- t.messages :: u.messages[m].deleted == t.messages[m].deleted && u.messages[m].internal == t.messages[m].internal)
  }

  lemma UnshownKeepsSurplus(t: Tree, u: Tree)
    requires Unshown(t, u)
    ensures Surplus(u) == Surplus(t)
  {
    assert Counted(u) == Counted(t);
  }

  lemma ShowingAddsOne(t: Tree, a: MessageId)
    requires IsLive(t, a) && t.messages[a].internal
    ensures Surplus(t.(messages := t.messages[a := t.messages[a].(unfinished := false, internal := false)], leaf := Some(a)))
         == Surplus(t) - 1
  {
    var u := t.(messages := t.messages[a := t.messages[a].(unfinished := false, internal := false)], leaf := Some(a));
    forall m ensures m in Counted(u) <==> m in Counted(t) + {a} {
      CountedIff(u, m);
      CountedIff(t, m);
    }
    assert Counted(u) == Counted(t) + {a};
    CountedIff(t, a);
  }

  lemma AddingKeepsSurplus(t: Tree, id: MessageId, m: Message)
    requires id !in t.messages && !m.deleted && !m.internal
    ensures Surplus(t.(messages := t.messages[id := m], leaf := Some(id), messageCount := t.messageCount + 1)) == Surplus(t)
  {
    var u := t.(messages := t.messages[id := m], leaf := Some(id), messageCount := t.messageCount + 1);
    assert Counted(u) == Counted(t) + {id};
  }

  // ---------------------------------------------------------------- what events do to the runs of answers

  /** A run that is there stays, and none but a requeued one becomes pending. */
  lemma StepKeepsRuns(env: Environment, a: Automation, e: RowEvent, now: int, i: nat)
    requires ValidEnvironment(env) && i < |a.runs| && !a.runs[i].status.Pending? && !(e.DoRequeue? && e.i == i)
    ensures var b := Step(env, a, e, now); i < |b.runs| && !b.runs[i].status.Pending? && b.conversationId == a.conversationId
  {
    hide NextAfterRun, NextOnResume, CompletionReasonOf, NormalizeTrigger, NormalizeStopPolicy, UpdateRuns;
  }

  lemma EventKeepsRun(env: Environment, s: System, e: Event, run: RunRef, c: ConversationId)
    requires ValidEnvironment(env) && Inv(s) && Enabled(s, e)
    requires BelongsTo(s, run, c) && StatusOf(s, run) != Some(Pending) && !(e.action.RequeueRun? && e.action.run == run)
    ensures BelongsTo(Apply(env, s, e), run, c) && StatusOf(Apply(env, s, e), run) != Some(Pending)
  {
    hide Inv, Enabled, Apply, Step, Permitted;
    EventOnOneAutomation(env, s, e, run.automationId);
    var share := ShareOf(s, e, run.automationId);
    if share.Some? {
      if e.action.Request? {
        RequestsDoNotRequeue(s, e);
      }
      StepKeepsRuns(env, s.table[run.automationId], share.value, e.now, run.i);
    }
  }

  lemma RequestsDoNotRequeue(s: System, e: Event)
    requires Enabled(s, e) && e.action.Request?
    ensures !e.action.request.DoRequeue?
  {
  }

  lemma OnlyStartsExecute(env: Environment, s: System, e: Event, run: RunRef)
    requires ValidEnvironment(env) && run in Apply(env, s, e).executing && run !in s.executing
    ensures StatusOf(s, run) == Some(Pending)
    ensures e.action.StartRun?
  {
    hide Step, Create, ConversationDeleted;
  }

  lemma LiveChanges(env: Environment, s: System, e: Event)
    requires ValidEnvironment(env)
    ensures var live := Apply(env, s, e).live;
      live == (match e.action case OpenConversation(c) => s.live + {c} case DeleteConversation(c) => s.live - {c} case _ => s.live)
  {
    hide Step, Create, ConversationDeleted, OnRow, PrepareStarts;
  }

  // ---------------------------------------------------------------- every step keeps the invariant

  lemma DeletedTreeFits(env: Environment, j: Joint, e: Event, order: seq<MessageId>)
    requires ValidEnvironment(env) && JointInv(j) && Possible(j, Happens(e, order)) && DeletesIt(j, e)
    ensures var u := TreeAfter(env, j, e, order);
      IsWhole(u) && Surplus(u) == Surplus(j.t) && u.recycled && Covers(j.t, u, (set a | a in order))
  {
    hide Inv, Enabled, Apply, Surplus, CleanUpAll, RecoverRun;
    forall a | a in order ensures a in j.t.messages {
      var run :| run in j.answers && j.answers[run] == a;
      assert AnswerFits(j, run);
    }
    CleanUpAllCovers(j.t, order);
    CleanUpAllKeepsCount(j.t, order);
    UnshownKeepsSurplus(CleanUpAll(j.t, order), TreeAfter(env, j, e, order));
  }

  lemma TreeAfterFits(env: Environment, j: Joint, e: Event, order: seq<MessageId>)
    requires ValidEnvironment(env) && JointInv(j) && Possible(j, Happens(e, order))
    ensures var u := TreeAfter(env, j, e, order);
      && IsWhole(u) && Surplus(u) == Surplus(j.t) && (u.recycled <==> j.c !in Apply(env, j.s, e).live)
      && u.messages.Keys == j.t.messages.Keys
      && (DeletesIt(j, e) ==> Covers(j.t, u, (set a | a in order)))
      && (forall m <- j.t.messages :: !DeletesIt(j, e) ==> u.messages[m].internal == j.t.messages[m].internal)
      && (forall m <- j.t.messages :: u.messages[m].unfinished ==> j.t.messages[m].unfinished)
  {
    hide Inv, Enabled, Apply, Surplus, CleanUpAll, RecoverRun;
    var u := TreeAfter(env, j, e, order);
    LiveChanges(env, j.s, e);
    if DeletesIt(j, e) {
      DeletedTreeFits(env, j, e, order);
    } else {
      UnshownKeepsSurplus(j.t, u);
    }
  }

  lemma HappensKeepsJobs(env: Environment, j: Joint, e: Event, order: seq<MessageId>, run: RunRef)
    requires ValidEnvironment(env) && JointInv(j) && Possible(j, Happens(e, order)) && run in Next(env, j, Happens(e, order)).jobs
    ensures JobFits(Next(env, j, Happens(e, order)), run)
  {
    hide Inv, Enabled, Apply, Surplus, TreeAfter, IsWhole;
    TreeAfterFits(env, j, e, order);
    assert JobFits(j, run) && AnswerFits(j, run);
  }

  lemma HappensKeepsInv(env: Environment, j: Joint, e: Event, order: seq<MessageId>)
    requires ValidEnvironment(env) && JointInv(j) && Possible(j, Happens(e, order))
    ensures JointInv(Next(env, j, Happens(e, order)))
  {
    hide Inv, Enabled, Apply, Surplus, TreeAfter, IsWhole, JobFits, BelongsTo, StatusOf;
    var k := Next(env, j, Happens(e, order));
    EventKeepsInv(env, j.s, e);
    TreeAfterFits(env, j, e, order);
    forall run | run in k.answers ensures AnswerFits(k, run) {
      assert AnswerFits(j, run);
      if e.action.RequeueRun? && e.action.run == run {
        RequeuedIsHeld(j.s, e);
      }
      EventKeepsRun(env, j.s, e, run, j.c);
      if run in k.s.executing && run !in j.s.executing {
        OnlyStartsExecute(env, j.s, e, run);
      }
    }
    forall run | run in k.jobs ensures JobFits(k, run) {
      HappensKeepsJobs(env, j, e, order, run);
    }
  }

  lemma RequeuedIsHeld(s: System, e: Event)
    requires Enabled(s, e) && e.action.RequeueRun?
    ensures e.action.run in s.executing
  {
  }

  lemma ChatKeepsInv(env: Environment, j: Joint, id: MessageId)
    requires ValidEnvironment(env) && JointInv(j) && Possible(j, Chat(id))
    ensures JointInv(Next(env, j, Chat(id)))
  {
    hide Inv, Surplus;
    if !j.t.recycled {
      AddingKeepsSurplus(j.t, id, Message(j.t.leaf, false, false, false));
      OthersFit(j, Next(env, j, Chat(id)), None);
    }
  }

  /** A step that leaves the runs alone, and the visibility of all messages but one, keeps the other answers and jobs in order. */
  lemma OthersFit(j: Joint, k: Joint, changed: Option<RunRef>)
    requires (forall run <- j.answers :: AnswerFits(j, run)) && (forall run <- j.jobs :: JobFits(j, run)) && AnswersDiffer(j)
    requires k.s == j.s && k.c == j.c && k.answers == j.answers && k.jobs.Keys == j.jobs.Keys
    requires changed.Some? ==> changed.value in j.answers
    requires forall run <- j.jobs :: Some(run) != changed ==> k.jobs[run] == j.jobs[run]
    requires j.t.messages.Keys <= k.t.messages.Keys
    requires forall m <- j.t.messages :: (changed.Some? ==> m != j.answers[changed.value]) ==>
      k.t.messages[m].internal == j.t.messages[m].internal && k.t.messages[m].unfinished == j.t.messages[m].unfinished
    ensures forall run <- k.answers :: AnswerFits(k, run)
    ensures AnswersDiffer(k)
    ensures forall run <- k.jobs :: Some(run) != changed ==> JobFits(k, run)
  {
    hide BelongsTo, StatusOf;
    forall run | run in k.answers ensures AnswerFits(k, run) {
      assert AnswerFits(j, run);
    }
    forall run | run in k.jobs && Some(run) != changed ensures JobFits(k, run) {
      assert JobFits(j, run);
    }
  }

  lemma PrepareAddsTwo(t: Tree, ours: bool, chatBusy: bool, other: bool, user: MessageId, assistant: MessageId)
    requires IsWhole(t) && PrepareAnswer(t, ours, chatBusy, other).Ready?
    requires user !in t.messages && assistant !in t.messages && user != assistant
    ensures var u := Prepare(t, ours, chatBusy, other, user, assistant);
      && IsWhole(u) && u.messages.Keys == t.messages.Keys + {user, assistant} && u.recycled == t.recycled
      && (forall m <- t.messages :: u.messages[m] == t.messages[m]) && !u.messages[assistant].internal
      && PrepareAnswer(t, ours, chatBusy, other).parent in t.messages
  {
  }

  /** What a freshly prepared answer finds, and that the other answers and jobs do not notice it. */
  lemma AddedAnswerFits(j: Joint, k: Joint, run: RunRef, assistant: MessageId)
    requires (forall r <- j.answers :: AnswerFits(j, r)) && AnswersDiffer(j) && (forall r <- j.jobs :: JobFits(j, r))
    requires run in j.s.executing && run !in j.answers && BelongsTo(j.s, run, j.c) && StatusOf(j.s, run) != Some(Pending)
    requires assistant !in j.t.messages && assistant in k.t.messages && !k.t.messages[assistant].internal
    requires forall m <- j.t.messages :: m in k.t.messages && k.t.messages[m] == j.t.messages[m]
    requires k.s == j.s && k.c == j.c && k.answers == j.answers[run := assistant] && run in k.jobs
    requires k.jobs == j.jobs[run := k.jobs[run]] && k.jobs[run].phase.Working? && !k.jobs[run].covered
    requires k.jobs[run].parent in k.t.messages
    ensures (forall r <- k.answers :: AnswerFits(k, r)) && AnswersDiffer(k) && (forall r <- k.jobs :: JobFits(k, r))
  {
    hide BelongsTo, StatusOf;
    forall r | r in k.answers ensures AnswerFits(k, r) {
      assert r in j.answers ==> AnswerFits(j, r);
    }
    forall r | r in k.jobs ensures JobFits(k, r) {
      assert r in j.jobs ==> JobFits(j, r);
    }
    forall r | r in j.answers ensures j.answers[r] != assistant {
      assert AnswerFits(j, r);
    }
  }

  lemma PrepareKeepsJointInv(env: Environment, j: Joint, run: RunRef, chatBusy: bool, user: MessageId, assistant: MessageId)
    requires ValidEnvironment(env) && JointInv(j) && Possible(j, DoPrepareAnswer(run, chatBusy, user, assistant))
    ensures JointInv(Next(env, j, DoPrepareAnswer(run, chatBusy, user, assistant)))
  {
    hide Inv, Surplus, OtherRunning, BelongsTo, StatusOf, Prepare, PrepareAnswer, IsWhole, JobFits, AnswersDiffer;
    var k := Next(env, j, DoPrepareAnswer(run, chatBusy, user, assistant));
    var ours, other := StatusOf(j.s, run) == Some(Running), OtherRunning(j, Some(run));
    if PrepareAnswer(j.t, ours, chatBusy, other).Ready? {
      PrepareKeepsCount(j.t, ours, chatBusy, other, user, assistant);
      PrepareAddsTwo(j.t, ours, chatBusy, other, user, assistant);
      OnlyOursIsPrepared(j.t, ours, chatBusy, other);
      assert run !in j.answers by {
        assert run in j.answers ==> AnswerFits(j, run);
      }
      AddedAnswerFits(j, k, run, assistant);
    }
  }

  lemma OnlyOursIsPrepared(t: Tree, ours: bool, chatBusy: bool, other: bool)
    ensures PrepareAnswer(t, ours, chatBusy, other).Ready? ==>
      ours && !other && !t.recycled && HasBranch(t) && PrepareAnswer(t, ours, chatBusy, other).parent == t.leaf.value
  {
  }

  lemma NoticeKeepsInv(env: Environment, j: Joint, id: AutomationId, chatBusy: bool, notice: MessageId)
    requires ValidEnvironment(env) && JointInv(j) && Possible(j, Notice(id, chatBusy, notice))
    ensures JointInv(Next(env, j, Notice(id, chatBusy, notice)))
  {
    hide Inv, Surplus, OtherRunning;
    var k := Next(env, j, Notice(id, chatBusy, notice));
    if k != j {
      NoticeKeepsCount(j.t, true, chatBusy, OtherRunning(j, None), notice);
      OthersFit(j, k, None);
    }
  }

  lemma CommitKeepsBooks(j: Joint, run: RunRef)
    requires run in j.jobs && JobFits(j, run) && j.jobs[run].phase.SawMessage? && TreeFits(j)
    ensures var k := CommitAnswer(j, run);
      && TreeFits(k) && JobFits(k, run)
      && Surplus(k.t) == Surplus(j.t) - (k.undone - j.undone)
  {
    hide Surplus;
    var a, job, k := j.answers[run], j.jobs[run], CommitAnswer(j, run);
    if job.phase.seen.unfinished && job.covered {
      ShowingAddsOne(j.t, a);
    } else {
      UnshownKeepsSurplus(j.t, k.t);
    }
  }

  lemma CommittedKeepsInv(j: Joint, run: RunRef)
    requires JointInv(j) && run in j.jobs && run in j.answers && j.jobs[run].phase.SawMessage?
    ensures JointInv(CommitAnswer(j, run))
  {
    hide Inv, Surplus, BelongsTo, StatusOf;
    assert JobFits(j, run);
    CommitKeepsBooks(j, run);
    OthersFit(j, CommitAnswer(j, run), Some(run));
    hide JobFits, AnswerFits, TreeFits;
  }

  lemma CommitKeepsInv(env: Environment, j: Joint, run: RunRef)
    requires ValidEnvironment(env) && JointInv(j)
    ensures JointInv(Next(env, j, Commit(run)))
  {
    hide JointInv, CommitAnswer;
    if Next(env, j, Commit(run)) != j {
      CommittedKeepsInv(j, run);
    }
  }

  lemma DeliverKeepsInv(j: Joint, run: RunRef)
    requires JointInv(j) && run in j.jobs && run in j.answers && j.jobs[run].phase.Committed? && j.jobs[run].phase.deliver
    ensures JointInv(PlaceAnswer(j, run))
  {
    hide Inv, Surplus, BelongsTo, StatusOf;
    var k := PlaceAnswer(j, run);
    assert JobFits(j, run);
    UnshownKeepsSurplus(j.t, k.t);
    OthersFit(j, k, Some(run));
    assert JobFits(k, run);
  }

  lemma HiddenJobFits(j: Joint, k: Joint, run: RunRef)
    requires run in j.jobs && JobFits(j, run) && run in k.jobs && k.jobs[run] == j.jobs[run].(phase := Hidden)
    requires k.answers == j.answers && k.s == j.s && k.t.messages.Keys == j.t.messages.Keys
    requires k.t.messages[j.answers[run]].unfinished == j.t.messages[j.answers[run]].unfinished
    ensures JobFits(k, run)
  {
  }

  lemma HidingKeepsInv(j: Joint, run: RunRef)
    requires JointInv(j) && run in j.jobs && run in j.answers && j.jobs[run].phase.Committed? && !j.jobs[run].phase.deliver
    ensures JointInv(PlaceAnswer(j, run))
  {
    hide Inv, Surplus, BelongsTo, StatusOf, Hide, JobFits, AnswerFits, AnswersDiffer;
    var k := PlaceAnswer(j, run);
    HidePlaces(j, run);
    HideKeepsWhole(j.t, j.answers[run], RestoredLeaf(j, run), j.jobs[run].parent);
    HideChangesSurplus(j.t, j.answers[run], RestoredLeaf(j, run), j.jobs[run].parent);
    OthersFit(j, k, Some(run));
    HiddenJobFits(j, k, run);
  }

  lemma HidePlaces(j: Joint, run: RunRef)
    requires IsWhole(j.t) && run in j.jobs && JobFits(j, run) && j.jobs[run].phase.Committed?
    ensures RestoredLeaf(j, run) in j.t.messages && j.jobs[run].parent in j.t.messages && run in j.s.executing
    ensures IsLive(j.t, j.answers[run]) && IsLive(j.t, RestoredLeaf(j, run))
    ensures j.t.messages[j.answers[run]].internal == j.jobs[run].covered
  {
  }

  lemma PlaceKeepsInv(env: Environment, j: Joint, run: RunRef)
    requires ValidEnvironment(env) && JointInv(j)
    ensures JointInv(Next(env, j, Place(run)))
  {
    hide JointInv, PlaceAnswer;
    if HasJob(j, run) && j.jobs[run].phase.Committed? {
      if j.jobs[run].phase.deliver {
        DeliverKeepsInv(j, run);
      } else {
        HidingKeepsInv(j, run);
      }
    }
  }

  /** What a job may become without touching the messages. */
  predicate MayBecome(j: Joint, run: RunRef, phase: Phase)
    requires HasJob(j, run)
  {
    && !j.jobs[run].phase.Hidden? && !phase.Hidden?
    && (LeafOf(phase).Some? ==> LeafOf(phase).value in j.t.messages)
    && (phase.SawMessage? && phase.seen.unfinished ==> !phase.seen.internal)
  }

  lemma PhaseChangeKeepsInv(j: Joint, run: RunRef, phase: Phase)
    requires JointInv(j) && run in j.jobs && HasJob(j, run) && MayBecome(j, run, phase)
    ensures JointInv(j.(jobs := WithPhase(j, run, phase)))
  {
    hide Inv, Surplus, BelongsTo, StatusOf, IsWhole;
    var k := j.(jobs := WithPhase(j, run, phase));
    assert JobFits(j, run);
    OthersFit(j, k, Some(run));
    assert JobFits(k, run);
  }

  lemma PhaseKeepsInv(env: Environment, j: Joint, e: JointEvent)
    requires ValidEnvironment(env) && JointInv(j) && (e.Judge? || e.SeeLeaf? || e.SeeMessage? || e.Fail?)
    ensures JointInv(Next(env, j, e))
  {
    hide Inv, Surplus, BelongsTo, StatusOf, AnswersDiffer, AnswerFits, Delivers;
    if HasJob(j, e.run) && Next(env, j, e) != j {
      assert JobFits(j, e.run);
      PhaseChangeKeepsInv(j, e.run, Next(env, j, e).jobs[e.run].phase);
      assert Next(env, j, e) == j.(jobs := WithPhase(j, e.run, Next(env, j, e).jobs[e.run].phase));
    }
  }

  /** Every step, of an executor or of anything else, keeps the books. */
  lemma StepKeepsInv(env: Environment, j: Joint, e: JointEvent)
    requires ValidEnvironment(env) && JointInv(j) && Possible(j, e)
    ensures JointInv(Next(env, j, e))
  {
    hide JointInv, Next, Possible;
    match e
    case Happens(event, order) => HappensKeepsInv(env, j, event, order);
    case Chat(id) => ChatKeepsInv(env, j, id);
    case DoPrepareAnswer(run, chatBusy, user, assistant) => PrepareKeepsJointInv(env, j, run, chatBusy, user, assistant);
    case Commit(run) => CommitKeepsInv(env, j, run);
    case Place(run) => PlaceKeepsInv(env, j, run);
    case Notice(id, chatBusy, notice) => NoticeKeepsInv(env, j, id, chatBusy, notice);
    case _ => PhaseKeepsInv(env, j, e);
  }

  // ---------------------------------------------------------------- whole runs

  function RunOn(env: Environment, j: Joint, events: seq<JointEvent>): Joint
    requires ValidEnvironment(env)
    decreases |events|
  {
    if events == [] then j else RunOn(env, Next(env, j, events[0]), events[1..])
  }

  predicate AllPossible(env: Environment, j: Joint, events: seq<JointEvent>)
    requires ValidEnvironment(env)
    decreases |events|
  {
    events != [] ==> Possible(j, events[0]) && AllPossible(env, Next(env, j, events[0]), events[1..])
  }

  lemma {:induction false} RunsKeepInv(env: Environment, j: Joint, events: seq<JointEvent>)
    requires ValidEnvironment(env) && JointInv(j) && AllPossible(env, j, events)
    ensures JointInv(RunOn(env, j, events))
    decreases |events|
  {
    hide JointInv, Next, Possible;
    if events != [] {
      StepKeepsInv(env, j, events[0]);
      RunsKeepInv(env, Next(env, j, events[0]), events[1..]);
    }
  }

  /**
   The books of the message count, over every run from the empty database: the stored count is the number of visible messages, plus
   the answers hidden in the recycle bin that deletion had passed over, minus those hidden again after restoring, minus those that a
   commit showed again. So it is right exactly when the first kind is as frequent as the other two together.
   */
  lemma CountIsAccountedFor(env: Environment, c: ConversationId, events: seq<JointEvent>)
    requires ValidEnvironment(env) && AllPossible(env, Empty(c), events)
    ensures var j := RunOn(env, Empty(c), events);
      && j.t.messageCount == |Counted(j.t)| + j.late - j.twice - j.undone
      && (j.t.messageCount == |Counted(j.t)| <==> j.late == j.twice + j.undone)
  {
    hide RunOn, AllPossible;
    EmptyInv(c);
    RunsKeepInv(env, Empty(c), events);
  }

  /** In any state reached, hiding an answer keeps the count right if and only if it is in the recycle bin exactly when deletion covered it. */
  lemma HidingIsRightIff(env: Environment, j: Joint, run: RunRef)
    requires ValidEnvironment(env) && JointInv(j) && run in j.jobs && j.jobs[run].phase.Committed? && !j.jobs[run].phase.deliver
    ensures Surplus(Next(env, j, Place(run)).t) == Surplus(j.t) <==> (j.t.recycled <==> j.jobs[run].covered)
  {
    hide Surplus, Hide, Inv, BelongsTo, StatusOf;
    HidePlaces(j, run);
    assert AnswerFits(j, run);
    BelongsToTable(j.s, run, j.c);
    HideChangesSurplus(j.t, j.answers[run], RestoredLeaf(j, run), j.jobs[run].parent);
  }

  /** Nothing else changes the books, except a commit whose answer deletion hid after it was read. */
  lemma OtherStepsKeepTheBooks(env: Environment, j: Joint, e: JointEvent)
    requires ValidEnvironment(env) && JointInv(j) && Possible(j, e)
    requires !(e.Place? && e.run in j.jobs && j.jobs[e.run].phase.Committed? && !j.jobs[e.run].phase.deliver)
    ensures Surplus(Next(env, j, e).t) == Surplus(j.t) <==>
      !(e.Commit? && e.run in j.jobs && j.jobs[e.run].phase.SawMessage? && j.jobs[e.run].phase.seen.unfinished && j.jobs[e.run].covered)
  {
    hide Surplus, Inv, BelongsTo, StatusOf, Apply, TreeAfter, JobsAfter, OtherRunning;
    StepKeepsInv(env, j, e);
    if e.Commit? && e.run in j.jobs {
      assert JobFits(j, e.run) && AnswerFits(j, e.run);
      BelongsToTable(j.s, e.run, j.c);
    }
  }

  lemma BelongsToTable(s: System, run: RunRef, c: ConversationId)
    requires BelongsTo(s, run, c)
    ensures run.automationId in s.table && run.i < |s.table[run.automationId].runs| && s.table[run.automationId].conversationId == c
  {
  }

  // ---------------------------------------------------------------- when the count is right

  /**
   Deletion finds every answer that is not settled with an automation it stops, and not between the read and the write of its commit;
   and nothing is unsettled when the conversation is restored.
   */
  predicate IsCareful(j: Joint, e: JointEvent) {
    e.Happens? ==>
      && (DeletesIt(j, e.e) ==> forall run <- j.jobs :: !IsSettled(j.jobs[run].phase) && run.automationId in j.s.table ==>
            !IsTerminal(j.s.table[run.automationId]) && !j.jobs[run].phase.SawMessage?)
      && (RestoresIt(j, e.e) ==> forall run <- j.jobs :: IsSettled(j.jobs[run].phase))
  }

  predicate CoveredFits(j: Joint, run: RunRef)
    requires run in j.jobs
  {
    var job := j.jobs[run];
    !IsSettled(job.phase) ==> (job.covered <==> j.t.recycled) && (job.phase.SawMessage? && job.covered ==> !job.phase.seen.unfinished)
  }

  ghost predicate AllCovered(j: Joint) {
    forall run <- j.jobs :: CoveredFits(j, run)
  }

  lemma ExecutedIsUnderWay(j: Joint, run: RunRef)
    requires JointInv(j) && run in j.jobs
    ensures IsUnderWayIn(j.s, run) && run.automationId in j.s.table
  {
    hide Surplus, AnswersDiffer, AnswerFits;
    assert JobFits(j, run);
    assert Held(j.s, run);
  }

  lemma CarefulHappeningOn(env: Environment, j: Joint, e: Event, order: seq<MessageId>, run: RunRef)
    requires ValidEnvironment(env) && JointInv(j) && Possible(j, Happens(e, order)) && IsCareful(j, Happens(e, order))
    requires run in Next(env, j, Happens(e, order)).jobs && CoveredFits(j, run)
    ensures CoveredFits(Next(env, j, Happens(e, order)), run)
  {
    TreeAfterFits(env, j, e, order);
    LiveChanges(env, j.s, e);
    ExecutedIsUnderWay(j, run);
    assert run in j.answers && (j.t.recycled <==> j.c !in j.s.live) by {
      assert JobFits(j, run);
    }
    hide JointInv, Apply, TreeAfter, Enabled, Possible, IsUnderWayIn;
    assert DeletesIt(j, e) && !IsSettled(j.jobs[run].phase) ==> IsCleanedUp(j, run);
  }

  lemma CarefulHappening(env: Environment, j: Joint, e: Event, order: seq<MessageId>)
    requires ValidEnvironment(env) && JointInv(j) && Possible(j, Happens(e, order)) && AllCovered(j) && IsCareful(j, Happens(e, order))
    ensures AllCovered(Next(env, j, Happens(e, order)))
  {
    hide JointInv, Possible, CoveredFits, IsCareful, Apply, TreeAfter;
    var k := Next(env, j, Happens(e, order));
    forall run | run in k.jobs ensures CoveredFits(k, run) {
      CarefulHappeningOn(env, j, e, order, run);
    }
  }

  lemma CarefulCommit(env: Environment, j: Joint, run: RunRef)
    requires ValidEnvironment(env) && JointInv(j) && AllCovered(j)
    ensures var k := Next(env, j, Commit(run)); AllCovered(k) && k.late == j.late && k.twice == j.twice && k.undone == j.undone
  {
    hide Surplus, Inv, BelongsTo, StatusOf;
    if run in j.jobs {
      assert CoveredFits(j, run);
    }
    var k := Next(env, j, Commit(run));
    forall r | r in k.jobs ensures CoveredFits(k, r) {
      assert CoveredFits(j, r);
    }
  }

  lemma PlaceKeepsCovered(j: Joint, run: RunRef)
    requires AllCovered(j) && run in j.jobs && run in j.answers && j.jobs[run].phase.Committed?
    ensures var k := PlaceAnswer(j, run); AllCovered(k) && k.late == j.late && k.twice == j.twice && k.undone == j.undone
  {
    hide Reparent;
    var k := PlaceAnswer(j, run);
    assert CoveredFits(j, run);
    forall r | r in k.jobs ensures CoveredFits(k, r) {
      assert CoveredFits(j, r);
    }
  }

  lemma CarefulPlace(env: Environment, j: Joint, run: RunRef)
    requires ValidEnvironment(env) && JointInv(j) && AllCovered(j)
    ensures var k := Next(env, j, Place(run)); AllCovered(k) && k.late == j.late && k.twice == j.twice && k.undone == j.undone
  {
    hide JointInv, AllCovered, PlaceAnswer;
    if Next(env, j, Place(run)) != j {
      PlaceKeepsCovered(j, run);
    }
  }

  lemma PhaseOnly(env: Environment, j: Joint, e: JointEvent)
    requires ValidEnvironment(env) && (e.Judge? || e.SeeLeaf? || e.SeeMessage? || e.Fail?) && Next(env, j, e) != j
    ensures HasJob(j, e.run) && !IsSettled(j.jobs[e.run].phase)
    ensures var k := Next(env, j, e);
      && e.run in k.jobs && k == j.(jobs := WithPhase(j, e.run, k.jobs[e.run].phase))
      && (k.jobs[e.run].phase.SawMessage? ==> k.jobs[e.run].phase.seen == j.t.messages[j.answers[e.run]])
  {
    hide Delivers;
  }

  lemma PhaseKeepsCovered(j: Joint, run: RunRef, phase: Phase)
    requires AllCovered(j) && run in j.jobs && run in j.answers && JobFits(j, run) && !IsSettled(j.jobs[run].phase)
    requires phase.SawMessage? ==> phase.seen == j.t.messages[j.answers[run]]
    ensures AllCovered(j.(jobs := WithPhase(j, run, phase)))
  {
    var k := j.(jobs := WithPhase(j, run, phase));
    assert CoveredFits(j, run);
    forall r | r in k.jobs ensures CoveredFits(k, r) {
      assert CoveredFits(j, r);
    }
  }

  lemma CarefulPhase(env: Environment, j: Joint, e: JointEvent)
    requires ValidEnvironment(env) && JointInv(j) && AllCovered(j) && (e.Judge? || e.SeeLeaf? || e.SeeMessage? || e.Fail?)
    ensures var k := Next(env, j, e); AllCovered(k) && k.late == j.late && k.twice == j.twice && k.undone == j.undone
  {
    var k := Next(env, j, e);
    if k != j {
      PhaseOnly(env, j, e);
      assert JobFits(j, e.run);
      hide Next, JointInv, AllCovered, JobFits;
      PhaseKeepsCovered(j, e.run, k.jobs[e.run].phase);
    }
  }

  lemma CarefulAddition(env: Environment, j: Joint, e: JointEvent)
    requires ValidEnvironment(env) && JointInv(j) && AllCovered(j) && (e.Chat? || e.DoPrepareAnswer? || e.Notice?)
    ensures var k := Next(env, j, e); AllCovered(k) && k.late == j.late && k.twice == j.twice && k.undone == j.undone
  {
    hide JointInv, OtherRunning, StatusOf;
    var k := Next(env, j, e);
    forall r | r in k.jobs ensures CoveredFits(k, r) {
      assert r in j.jobs ==> CoveredFits(j, r);
    }
  }

  lemma CarefulStep(env: Environment, j: Joint, e: JointEvent)
    requires ValidEnvironment(env) && JointInv(j) && AllCovered(j) && Possible(j, e) && IsCareful(j, e)
    ensures var k := Next(env, j, e); AllCovered(k) && k.late == j.late && k.twice == j.twice && k.undone == j.undone
  {
    if e.Happens? {
      CarefulHappening(env, j, e.e, e.order);
    } else if e.Commit? {
      CarefulCommit(env, j, e.run);
    } else if e.Place? {
      CarefulPlace(env, j, e.run);
    } else if e.Chat? || e.DoPrepareAnswer? || e.Notice? {
      CarefulAddition(env, j, e);
    } else {
      CarefulPhase(env, j, e);
    }
  }

  predicate AllCareful(env: Environment, j: Joint, events: seq<JointEvent>)
    requires ValidEnvironment(env)
    decreases |events|
  {
    events != [] ==> IsCareful(j, events[0]) && AllCareful(env, Next(env, j, events[0]), events[1..])
  }

  lemma {:induction false} CarefulRuns(env: Environment, j: Joint, events: seq<JointEvent>)
    requires ValidEnvironment(env) && JointInv(j) && AllCovered(j) && AllPossible(env, j, events) && AllCareful(env, j, events)
    ensures var k := RunOn(env, j, events); k.late == j.late && k.twice == j.twice && k.undone == j.undone
    decreases |events|
  {
    hide JointInv, Next, Possible, AllCovered, IsCareful;
    if events != [] {
      StepKeepsInv(env, j, events[0]);
      CarefulStep(env, j, events[0]);
      CarefulRuns(env, Next(env, j, events[0]), events[1..]);
    }
  }

  /** Conservation: over every run whose deletions and restorings are careful, the stored count is the number of visible messages. */
  lemma CarefulRunsConserveCount(env: Environment, c: ConversationId, events: seq<JointEvent>)
    requires ValidEnvironment(env) && AllPossible(env, Empty(c), events) && AllCareful(env, Empty(c), events)
    ensures var j := RunOn(env, Empty(c), events); j.t.messageCount == |Counted(j.t)|
  {
    hide RunOn, AllPossible, AllCareful;
    EmptyInv(c);
    assert AllCovered(Empty(c));
    CarefulRuns(env, Empty(c), events);
    CountIsAccountedFor(env, c, events);
  }

  // ---------------------------------------------------------------- notices

  /** An expiry notice is sent at most once for an automation, whatever happens after it. */
  lemma {:induction false} NoticedOnce(env: Environment, j: Joint, events: seq<JointEvent>, id: AutomationId, chatBusy: bool, notice: MessageId)
    requires ValidEnvironment(env) && id in j.noticed
    ensures var k := RunOn(env, j, events); id in k.noticed && Next(env, k, Notice(id, chatBusy, notice)) == k
    decreases |events|
  {
    if events != [] {
      NoticedStays(env, j, events[0]);
      NoticedOnce(env, Next(env, j, events[0]), events[1..], id, chatBusy, notice);
    }
  }

  lemma NoticedStays(env: Environment, j: Joint, e: JointEvent)
    requires ValidEnvironment(env)
    ensures j.noticed <= Next(env, j, e).noticed
  {
    hide Apply, TreeAfter, JobsAfter, OtherRunning, Prepare, PublishNotice, Hide, RestoreLeaf;
  }
}
