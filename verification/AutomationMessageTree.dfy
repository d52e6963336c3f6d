/**
 What every run of AutomationMessages keeps of the tree: parents are older than their children, although hiding may move messages
 below a parent that is not theirs. So the walk from any leaf ends at a root, and what each step does to the current branch is known.
 */
module AutomationMessageTree {
  import opened Wrappers
  import opened BranchSelection
  import opened Conversation
  import opened AutomationLifecycle
  import opened AutomationRow
  import opened AutomationSystem
  import opened AutomationMessages

  type Ages = map<MessageId, nat>

  // ---------------------------------------------------------------- the invariant

  /** Every message has an age, its parent a lesser one, and there is a leaf once there are messages. */
  predicate TreeDescends(t: Tree, ages: Ages) {
    ages.Keys == t.messages.Keys && Descends(ParentsIn(t), ages) && (t.messages != map[] ==> t.leaf.Some?)
  }

  /** Answers hang below something, and the parent that an executor remembers is older than its answer. */
  predicate RunsDescend(j: Joint, ages: Ages) {
    && (forall run <- j.answers :: j.answers[run] in j.t.messages && j.t.messages[j.answers[run]].parent.Some?)
    && (forall run <- j.jobs ::
          run in j.answers && j.jobs[run].parent in ages && j.answers[run] in ages && ages[j.jobs[run].parent] < ages[j.answers[run]])
  }

  predicate IsOrdered(j: Joint, ages: Ages) {
    TreeDescends(j.t, ages) && RunsDescend(j, ages)
  }

  /** The same messages, in the order of their ages, and who had a parent has one. */
  predicate KeepsOrder(t: Tree, u: Tree, ages: Ages) {
    && u.messages.Keys == t.messages.Keys && TreeDescends(u, ages)
    && forall m <- t.messages :: t.messages[m].parent.Some? ==> u.messages[m].parent.Some?
  }

  lemma RunsStayOrdered(j: Joint, k: Joint, ages: Ages)
    requires IsOrdered(j, ages) && KeepsOrder(j.t, k.t, ages) && k.answers == j.answers
    requires k.jobs.Keys <= j.jobs.Keys && forall run <- k.jobs :: k.jobs[run].parent == j.jobs[run].parent
    ensures IsOrdered(k, ages)
  {
    hide Descends;
  }

  lemma SameParentsKeepOrder(t: Tree, u: Tree, ages: Ages)
    requires TreeDescends(t, ages) && u.messages.Keys == t.messages.Keys && (t.leaf.Some? ==> u.leaf.Some?)
    requires forall m <- t.messages :: u.messages[m].parent == t.messages[m].parent && u.messages[m].deleted == t.messages[m].deleted
    ensures KeepsOrder(t, u, ages)
  {
    assert ParentsIn(u) == ParentsIn(t);
  }

  // ---------------------------------------------------------------- steps that move links

  lemma HideKeepsOrder(t: Tree, a: MessageId, restore: MessageId, p: MessageId, ages: Ages)
    requires IsWhole(t) && TreeDescends(t, ages) && a in t.messages && restore in t.messages && p in t.messages && ages[p] < ages[a]
    ensures KeepsOrder(t, Hide(t, a, restore, p), ages)
  {
    assert IsLive(t, a) && IsLive(t, restore);
    hide Descends, Hide, IsWhole;
    HideKeepsWhole(t, a, restore, p);
    HideSplices(t, a, restore, p);
    assert a in ParentsIn(t) && p in ParentsIn(t) by { AllAreIn(t); }
    SplicedDescends(ParentsIn(t), ages, a, p);
    HideKeepsSomeParent(t, a, restore, p);
  }

  lemma AllAreIn(t: Tree)
    requires IsWhole(t)
    ensures ParentsIn(t).Keys == t.messages.Keys
  {
  }

  lemma HideKeepsSomeParent(t: Tree, a: MessageId, restore: MessageId, p: MessageId)
    requires IsWhole(t) && a in t.messages && restore in t.messages && p in t.messages
    ensures var u := Hide(t, a, restore, p);
      && (t.leaf.Some? ==> u.leaf.Some?)
      && forall m <- t.messages :: m in u.messages && (t.messages[m].parent.Some? ==> u.messages[m].parent.Some?)
  {
    ReparentKeepsWhole(t.messages, a, p);
    hide Reparent;
    forall m | m in t.messages && t.messages[m].parent.Some? ensures Hide(t, a, restore, p).messages[m].parent.Some? {
    }
  }

  lemma CleanUpKeepsOrder(t: Tree, a: MessageId, ages: Ages)
    requires IsWhole(t) && TreeDescends(t, ages) && a in t.messages
    ensures KeepsOrder(t, CleanUp(t, a), ages)
  {
    var u, parent := CleanUp(t, a), t.messages[a].parent;
    CleanUpSplices(t, a);
    CleanUpMovesLeaf(t, a);
    CleanUpCovers(t, a);
    if parent.Some? {
      assert ParentsIn(t)[a] == parent;
      SplicedDescends(ParentsIn(t), ages, a, parent.value);
    }
    hide Descends, CleanUp;
    forall m | m in t.messages && t.messages[m].parent.Some? ensures u.messages[m].parent.Some? {
      assert IsLive(u, m);
    }
  }

  lemma {:induction false} CleanUpAllKeepsOrder(t: Tree, order: seq<MessageId>, ages: Ages)
    requires IsWhole(t) && TreeDescends(t, ages) && forall a <- order :: a in t.messages
    ensures KeepsOrder(t, CleanUpAll(t, order), ages)
    decreases |order|
  {
    hide CleanUp, Descends, IsWhole;
    if order != [] {
      var front := order[..|order| - 1];
      CleanUpAllKeepsOrder(t, front, ages);
      CleanUpAllCovers(t, front);
      CleanUpKeepsOrder(CleanUpAll(t, front), order[|order| - 1], ages);
    }
  }

  // ---------------------------------------------------------------- steps that add messages

  /** The age of a message added below the leaf. */
  function NextAge(t: Tree, ages: Ages): nat
    requires TreeDescends(t, ages) && (t.leaf.Some? ==> t.leaf.value in t.messages)
  {
    if t.leaf.Some? then ages[t.leaf.value] + 1 else 0
  }

  lemma AddingKeepsOrder(t: Tree, ages: Ages, id: MessageId, m: Message, u: Tree)
    requires IsWhole(t) && TreeDescends(t, ages) && id !in t.messages && m.parent == t.leaf && !m.deleted
    requires u.messages == t.messages[id := m] && u.leaf.Some?
    ensures TreeDescends(u, ages[id := NextAge(t, ages)])
  {
    assert ParentsIn(u) == ParentsIn(t)[id := m.parent];
  }

  /** What holds of runs holds with messages added. */
  lemma AddedMessagesKeepRuns(j: Joint, k: Joint, ages: Ages, after: Ages)
    requires RunsDescend(j, ages) && k.answers == j.answers && k.jobs == j.jobs
    requires forall m <- ages :: m in after && after[m] == ages[m]
    requires forall m <- j.t.messages :: m in k.t.messages && k.t.messages[m] == j.t.messages[m]
    ensures RunsDescend(k, after)
  {
  }

  lemma ChatKeepsOrder(env: Environment, j: Joint, id: MessageId, ages: Ages) returns (after: Ages)
    requires ValidEnvironment(env) && TreeFits(j) && IsOrdered(j, ages) && Possible(j, Chat(id))
    ensures IsOrdered(Next(env, j, Chat(id)), after)
  {
    hide Descends;
    after := ages;
    var k := Next(env, j, Chat(id));
    if !j.t.recycled {
      after := ages[id := NextAge(j.t, ages)];
      AddingKeepsOrder(j.t, ages, id, Message(j.t.leaf, false, false, false), k.t);
      AddedMessagesKeepRuns(j, k, ages, after);
    }
  }

  lemma NoticeKeepsOrder(env: Environment, j: Joint, id: AutomationId, chatBusy: bool, notice: MessageId, ages: Ages)
    returns (after: Ages)
    requires ValidEnvironment(env) && TreeFits(j) && IsOrdered(j, ages) && Possible(j, Notice(id, chatBusy, notice))
    ensures IsOrdered(Next(env, j, Notice(id, chatBusy, notice)), after)
  {
    hide Descends, OtherRunning;
    after := ages;
    var k := Next(env, j, Notice(id, chatBusy, notice));
    if k != j {
      after := ages[notice := NextAge(j.t, ages)];
      AddingKeepsOrder(j.t, ages, notice, Message(j.t.leaf, false, false, false), k.t);
      AddedMessagesKeepRuns(j, k, ages, after);
    }
  }

  lemma PreparedTreeIsOrdered(t: Tree, ours: bool, chatBusy: bool, other: bool, user: MessageId, assistant: MessageId, ages: Ages)
    requires IsWhole(t) && TreeDescends(t, ages) && PrepareAnswer(t, ours, chatBusy, other).Ready?
    requires user !in t.messages && assistant !in t.messages && user != assistant
    ensures var n := NextAge(t, ages);
      TreeDescends(Prepare(t, ours, chatBusy, other, user, assistant), ages[user := n][assistant := n])
  {
    var u := Prepare(t, ours, chatBusy, other, user, assistant);
    assert ParentsIn(u) == ParentsIn(t)[user := t.leaf][assistant := t.leaf];
  }

  lemma PreparedRunsDescend(j: Joint, k: Joint, run: RunRef, assistant: MessageId, job: Job, ages: Ages, after: Ages)
    requires RunsDescend(j, ages) && k.answers == j.answers[run := assistant] && k.jobs == j.jobs[run := job]
    requires forall m <- ages :: m in after && after[m] == ages[m]
    requires forall m <- j.t.messages :: m in k.t.messages && k.t.messages[m] == j.t.messages[m]
    requires assistant in k.t.messages && k.t.messages[assistant].parent.Some?
    requires assistant in after && job.parent in after && after[job.parent] < after[assistant]
    requires run !in j.jobs
    ensures RunsDescend(k, after)
  {
  }

  lemma PrepareKeepsOrder(env: Environment, j: Joint, run: RunRef, chatBusy: bool, user: MessageId, assistant: MessageId, ages: Ages)
    returns (after: Ages)
    requires ValidEnvironment(env) && TreeFits(j) && IsOrdered(j, ages) && Possible(j, DoPrepareAnswer(run, chatBusy, user, assistant))
    ensures IsOrdered(Next(env, j, DoPrepareAnswer(run, chatBusy, user, assistant)), after)
  {
    hide Descends, OtherRunning, StatusOf, BelongsTo, RunsDescend;
    after := ages;
    var k := Next(env, j, DoPrepareAnswer(run, chatBusy, user, assistant));
    var ours, other := StatusOf(j.s, run) == Some(Running), OtherRunning(j, Some(run));
    if PrepareAnswer(j.t, ours, chatBusy, other).Ready? {
      var n := NextAge(j.t, ages);
      after := ages[user := n][assistant := n];
      PreparedTreeIsOrdered(j.t, ours, chatBusy, other, user, assistant, ages);
      PreparedRunsDescend(j, k, run, assistant, Job(j.t.leaf.value, Phase.Working, false), ages, after);
    }
  }

  // ---------------------------------------------------------------- every step

  lemma EventKeepsOrder(env: Environment, j: Joint, e: Event, order: seq<MessageId>, ages: Ages)
    requires ValidEnvironment(env) && JointInv(j) && TreeDescends(j.t, ages) && Possible(j, Happens(e, order))
    ensures KeepsOrder(j.t, TreeAfter(env, j, e, order), ages)
  {
    hide Inv, Enabled, Apply, Surplus, CleanUpAll, RecoverRun, Descends, IsUnderWayIn, IsCleanedUp;
    var u := TreeAfter(env, j, e, order);
    if DeletesIt(j, e) {
      forall a | a in order ensures a in j.t.messages {
        var run :| run in j.answers && j.answers[run] == a;
        assert AnswerFits(j, run);
      }
      CleanUpAllKeepsOrder(j.t, order, ages);
      SameParentsKeepOrder(CleanUpAll(j.t, order), u, ages);
    } else {
      SameParentsKeepOrder(j.t, u, ages);
    }
  }

  lemma HappensKeepsOrder(env: Environment, j: Joint, e: Event, order: seq<MessageId>, ages: Ages)
    requires ValidEnvironment(env) && JointInv(j) && IsOrdered(j, ages) && Possible(j, Happens(e, order))
    ensures IsOrdered(Next(env, j, Happens(e, order)), ages)
  {
    hide JointInv, Possible, Apply, TreeAfter, TreeDescends, RunsDescend;
    EventKeepsOrder(env, j, e, order, ages);
    RunsStayOrdered(j, Next(env, j, Happens(e, order)), ages);
  }

  lemma CommitKeepsOrder(j: Joint, run: RunRef, ages: Ages)
    requires IsOrdered(j, ages) && run in j.jobs && run in j.answers && j.jobs[run].phase.SawMessage?
    ensures IsOrdered(CommitAnswer(j, run), ages)
  {
    hide Descends;
    var k := CommitAnswer(j, run);
    SameParentsKeepOrder(j.t, k.t, ages);
    RunsStayOrdered(j, k, ages);
  }

  lemma PlaceKeepsOrder(j: Joint, run: RunRef, ages: Ages)
    requires TreeFits(j) && IsOrdered(j, ages) && run in j.jobs && run in j.answers && j.jobs[run].phase.Committed?
    requires JobFits(j, run)
    ensures IsOrdered(PlaceAnswer(j, run), ages)
  {
    hide Descends, Hide;
    var k := PlaceAnswer(j, run);
    if j.jobs[run].phase.deliver {
      SameParentsKeepOrder(j.t, k.t, ages);
    } else {
      HideKeepsOrder(j.t, j.answers[run], RestoredLeaf(j, run), j.jobs[run].parent, ages);
    }
    RunsStayOrdered(j, k, ages);
  }

  lemma PhaseKeepsOrder(j: Joint, run: RunRef, phase: Phase, ages: Ages)
    requires IsOrdered(j, ages) && run in j.jobs
    ensures IsOrdered(j.(jobs := WithPhase(j, run, phase)), ages)
  {
    hide Descends;
  }

  lemma CommitStepKeepsOrder(env: Environment, j: Joint, run: RunRef, ages: Ages)
    requires ValidEnvironment(env) && IsOrdered(j, ages)
    ensures IsOrdered(Next(env, j, Commit(run)), ages)
  {
    hide IsOrdered, CommitAnswer;
    if Next(env, j, Commit(run)) != j {
      CommitKeepsOrder(j, run, ages);
    }
  }

  lemma PlaceStepKeepsOrder(env: Environment, j: Joint, run: RunRef, ages: Ages)
    requires ValidEnvironment(env) && JointInv(j) && IsOrdered(j, ages)
    ensures IsOrdered(Next(env, j, Place(run)), ages)
  {
    hide IsOrdered, PlaceAnswer, Inv, Surplus;
    if Next(env, j, Place(run)) != j {
      assert TreeFits(j) && JobFits(j, run);
      PlaceKeepsOrder(j, run, ages);
    }
  }

  lemma PhaseStepKeepsOrder(env: Environment, j: Joint, e: JointEvent, ages: Ages)
    requires ValidEnvironment(env) && IsOrdered(j, ages) && (e.Judge? || e.SeeLeaf? || e.SeeMessage? || e.Fail?)
    ensures IsOrdered(Next(env, j, e), ages)
  {
    hide IsOrdered, Next, WithPhase;
    if Next(env, j, e) != j {
      PhaseOnly(env, j, e);
      PhaseKeepsOrder(j, e.run, Next(env, j, e).jobs[e.run].phase, ages);
    }
  }

  lemma StepKeepsOrder(env: Environment, j: Joint, e: JointEvent, ages: Ages) returns (after: Ages)
    requires ValidEnvironment(env) && JointInv(j) && IsOrdered(j, ages) && Possible(j, e)
    ensures IsOrdered(Next(env, j, e), after)
  {
    assert TreeFits(j);
    hide JointInv, IsOrdered, Next, Possible, TreeFits;
    after := ages;
    match e
    case Happens(event, order) => HappensKeepsOrder(env, j, event, order, ages);
    case Chat(id) => after := ChatKeepsOrder(env, j, id, ages);
    case DoPrepareAnswer(run, chatBusy, user, assistant) =>
      after := PrepareKeepsOrder(env, j, run, chatBusy, user, assistant, ages);
    case Notice(id, chatBusy, notice) => after := NoticeKeepsOrder(env, j, id, chatBusy, notice, ages);
    case Commit(run) => CommitStepKeepsOrder(env, j, run, ages);
    case Place(run) => PlaceStepKeepsOrder(env, j, run, ages);
    case _ => PhaseStepKeepsOrder(env, j, e, ages);
  }

  // ---------------------------------------------------------------- whole runs

  lemma {:induction false} RunsKeepOrder(env: Environment, j: Joint, events: seq<JointEvent>, ages: Ages) returns (after: Ages)
    requires ValidEnvironment(env) && JointInv(j) && IsOrdered(j, ages) && AllPossible(env, j, events)
    ensures JointInv(RunOn(env, j, events)) && IsOrdered(RunOn(env, j, events), after)
    decreases |events|
  {
    hide JointInv, IsOrdered, Next, Possible;
    after := ages;
    if events != [] {
      StepKeepsInv(env, j, events[0]);
      var next := StepKeepsOrder(env, j, events[0], ages);
      after := RunsKeepOrder(env, Next(env, j, events[0]), events[1..], next);
    }
  }

  lemma ReachedIsOrdered(env: Environment, c: ConversationId, events: seq<JointEvent>) returns (ages: Ages)
    requires ValidEnvironment(env) && AllPossible(env, Empty(c), events)
    ensures var j := RunOn(env, Empty(c), events); JointInv(j) && IsOrdered(j, ages)
  {
    EmptyInv(c);
    assert IsOrdered(Empty(c), map[]);
    hide RunOn, AllPossible, JointInv, IsOrdered;
    ages := RunsKeepOrder(env, Empty(c), events, map[]);
  }

  lemma OrderedIsAcyclic(j: Joint, ages: Ages)
    requires JointInv(j) && IsOrdered(j, ages)
    ensures Acyclic(ParentsIn(j.t)) && Closed(ParentsIn(j.t)) && (j.t.messages != map[] ==> HasBranch(j.t))
  {
    hide Inv, Surplus, Acyclic;
    DescendingIsAcyclic(ParentsIn(j.t), ages);
  }

  /**
   Over every run from the empty database the tree stays a tree, stale parents or not: each message's parents end at a root, and there
   is a current branch once there are messages.
   */
  lemma TreeStaysAcyclic(env: Environment, c: ConversationId, events: seq<JointEvent>)
    requires ValidEnvironment(env) && AllPossible(env, Empty(c), events)
    ensures var t := RunOn(env, Empty(c), events).t;
      Acyclic(ParentsIn(t)) && Closed(ParentsIn(t)) && (t.messages != map[] ==> HasBranch(t))
  {
    hide RunOn, AllPossible, JointInv, IsOrdered, Acyclic, Closed;
    var ages := ReachedIsOrdered(env, c, events);
    OrderedIsAcyclic(RunOn(env, Empty(c), events), ages);
  }

  // ---------------------------------------------------------------- what each step does

  /** Results are suppressed exactly when they are successful, to be delivered on completion, and the automation has not completed. */
  lemma JudgedIff(env: Environment, j: Joint, run: RunRef, successful: bool)
    requires ValidEnvironment(env) && HasJob(j, run) && j.jobs[run].phase.Working?
    ensures var k, a := Next(env, j, Judge(run, successful)), j.s.table[run.automationId];
      && run in k.jobs && k == j.(jobs := j.jobs[run := k.jobs[run]])
      && k.jobs[run] == Job(j.jobs[run].parent, Judged(!(successful && a.delivery == OnCompletion && a.status != Completed)), j.jobs[run].covered)
  {
  }

  /** How an executor goes on from phase to phase; a step out of order changes nothing. */
  lemma ExecutorGoesOn(env: Environment, j: Joint, e: JointEvent)
    requires ValidEnvironment(env) && (e.SeeLeaf? || e.SeeMessage? || e.Fail? || e.Commit? || e.Place?) && HasJob(j, e.run)
    ensures var k, before := Next(env, j, e), j.jobs[e.run].phase;
      && k.jobs.Keys == j.jobs.Keys && k.jobs[e.run].parent == j.jobs[e.run].parent && k.answers == j.answers && k.s == j.s
      && (forall run <- j.jobs :: run != e.run ==> k.jobs[run] == j.jobs[run])
      && k.jobs[e.run].phase == (
           match e
           case SeeLeaf(_) => if before.Judged? then SawLeaf(before.deliver, j.t.leaf) else before
           case SeeMessage(_) =>
             if before.SawLeaf? then SawMessage(before.deliver, before.leaf, j.t.messages[j.answers[e.run]]) else before
           case Commit(_) => if before.SawMessage? then Committed(before.deliver, before.leaf) else before
           case Place(_) => if before.Committed? then (if before.deliver then Delivered else Hidden) else before
           case Fail(_, gone) =>
             if before == Delivered || before == Hidden then before else if gone then Delivered else SawLeaf(true, j.t.leaf)
           case _ => before)
  {
    hide Hide, RestoreLeaf, CommitSeen;
  }

  /** The leaf that hiding goes back to: the one seen before the commit, unless that is the answer itself; then its parent. */
  lemma RestoredLeafIs(j: Joint, run: RunRef)
    requires run in j.jobs && run in j.answers && j.jobs[run].phase.Committed?
    ensures var seen := j.jobs[run].phase.leaf;
      Some(RestoredLeaf(j, run)) == if seen.Some? && seen != Some(j.answers[run]) then seen else Some(j.jobs[run].parent)
  {
  }

  /** Deletion cleans up exactly the answers of runs that are running or being cancelled, of automations that are active or paused. */
  lemma CleanedUpIff(j: Joint, e: Event, order: seq<MessageId>, run: RunRef)
    requires JointInv(j) && Possible(j, Happens(e, order)) && e.action == DeleteConversation(j.c) && j.c in j.s.live && run in j.answers
    ensures run.automationId in j.s.table && run.i < |j.s.table[run.automationId].runs|
    ensures var a := j.s.table[run.automationId];
      j.answers[run] in order <==>
        && (a.runs[run.i].status == Running || a.runs[run.i].status == Cancelling)
        && (a.status == Active || a.status == Paused)
  {
    hide Inv, Surplus, Enabled;
    assert AnswerFits(j, run);
  }

  /** What events of the automations do to the messages: deletion cleans up, restoring takes out of the bin, recovery finishes an answer. */
  lemma EventOnMessages(env: Environment, j: Joint, e: Event, order: seq<MessageId>)
    requires ValidEnvironment(env) && JointInv(j)
    ensures var t, a := Next(env, j, Happens(e, order)).t, e.action;
      && (a == DeleteConversation(j.c) && !j.t.recycled ==> t == CleanUpAll(j.t, order).(recycled := true))
      && (a == OpenConversation(j.c) ==> t == j.t.(recycled := false))
      && (a.RecoverInterrupted? && a.run in j.answers && IsUnderWayIn(j.s, a.run)
          && RecoverRun(env, j.s.table[a.run.automationId], a.run.i, e.now).Ok? ==>
            var answer := j.answers[a.run];
            answer in j.t.messages && t == j.t.(messages := j.t.messages[answer := j.t.messages[answer].(unfinished := false)]))
      && (a.RecoverInterrupted? && (a.run !in j.answers || !IsUnderWayIn(j.s, a.run)) ==> t == j.t)
      && (a != DeleteConversation(j.c) && a != OpenConversation(j.c) && !a.RecoverInterrupted? ==> t == j.t)
  {
    hide Inv, Surplus, Apply, CleanUpAll, RecoverRun, StatusOf, BelongsTo;
    if e.action.RecoverInterrupted? && e.action.run in j.answers {
      assert AnswerFits(j, e.action.run);
    }
  }

  /** A notice is sent exactly for an automation that completed because it expired and that has none yet, where nothing is under way. */
  lemma NoticeSentIff(env: Environment, j: Joint, id: AutomationId, chatBusy: bool, notice: MessageId)
    requires ValidEnvironment(env) && notice !in j.t.messages
    ensures var k := Next(env, j, Notice(id, chatBusy, notice));
      var wanted := id in j.s.table && j.s.table[id].status == Completed && j.s.table[id].completionReason == Some(Expired) && id !in j.noticed;
      && (notice in k.t.messages <==> wanted && NoticeFits(j.t, chatBusy, OtherRunning(j, None)))
      && k.noticed == (if notice in k.t.messages then j.noticed + {id} else j.noticed)
      && k == j.(t := k.t, noticed := k.noticed)
  {
    hide OtherRunning;
  }

  /** A run must wait exactly while another run that has an answer is running. */
  lemma OtherRunningIff(j: Joint, run: Option<RunRef>)
    ensures OtherRunning(j, run) <==>
      exists r <- j.answers :: Some(r) != run && r.automationId in j.s.table && r.i < |j.s.table[r.automationId].runs|
                               && j.s.table[r.automationId].runs[r.i].status == Running
  {
  }

  // ---------------------------------------------------------------- what steps do to the current branch

  /**
   After any run, hiding an answer. If the conversation stays at the answer, or its leaf does not hang below the answer, the branch is
   as before. Otherwise it is the branch of the remembered parent, followed by what came after the answer; and that is the old branch
   without the answer, and nothing else, if and only if the remembered parent still is the answer's own.
   */
  lemma HidingMovesBranch(env: Environment, c: ConversationId, events: seq<JointEvent>, run: RunRef)
    requires ValidEnvironment(env) && AllPossible(env, Empty(c), events)
    requires var j := RunOn(env, Empty(c), events);
      HasJob(j, run) && j.jobs[run].phase.Committed? && !j.jobs[run].phase.deliver
    ensures var j := RunOn(env, Empty(c), events);
      var a, p, z := j.answers[run], j.jobs[run].parent, Next(env, j, Place(run));
      && Acyclic(ParentsIn(z.t)) && HasBranch(z.t) && z.t.leaf.value in ParentsIn(j.t) && a in ParentsIn(j.t) && p in ParentsIn(j.t)
      && z.t.leaf == (if j.t.leaf == Some(a) && !j.t.recycled then Some(RestoredLeaf(j, run)) else j.t.leaf)
      && var b := Branch(ParentsIn(j.t), z.t.leaf.value);
         && (a !in b || z.t.leaf == Some(a) ==> CurrentBranch(z.t) == b)
         && (forall i :: 0 <= i < |b| && b[i] == a && z.t.leaf != Some(a) ==>
               CurrentBranch(z.t) == Branch(ParentsIn(j.t), p) + b[i + 1..])
         && (a in b && z.t.leaf != Some(a) ==> (CurrentBranch(z.t) == Without(b, a) <==> FitsParent(ParentsIn(j.t), a, p)))
  {
    hide RunOn, AllPossible, JointInv, IsOrdered;
    var j := RunOn(env, Empty(c), events);
    var ages := ReachedIsOrdered(env, c, events);
    HidingMovesBranchIn(env, j, run, ages);
  }

  lemma HidingMovesBranchIn(env: Environment, j: Joint, run: RunRef, ages: Ages)
    requires ValidEnvironment(env) && JointInv(j) && IsOrdered(j, ages)
    requires HasJob(j, run) && j.jobs[run].phase.Committed? && !j.jobs[run].phase.deliver
    ensures var a, p, z := j.answers[run], j.jobs[run].parent, Next(env, j, Place(run));
      && Acyclic(ParentsIn(z.t)) && HasBranch(z.t) && z.t.leaf.value in ParentsIn(j.t) && a in ParentsIn(j.t) && p in ParentsIn(j.t)
      && z.t.leaf == (if j.t.leaf == Some(a) && !j.t.recycled then Some(RestoredLeaf(j, run)) else j.t.leaf)
      && var b := Branch(ParentsIn(j.t), z.t.leaf.value);
         && (a !in b || z.t.leaf == Some(a) ==> CurrentBranch(z.t) == b)
         && (forall i :: 0 <= i < |b| && b[i] == a && z.t.leaf != Some(a) ==>
               CurrentBranch(z.t) == Branch(ParentsIn(j.t), p) + b[i + 1..])
         && (a in b && z.t.leaf != Some(a) ==> (CurrentBranch(z.t) == Without(b, a) <==> FitsParent(ParentsIn(j.t), a, p)))
  {
    HidingPlaces(env, j, run, ages);
    OrderedIsAcyclic(j, ages);
    hide JointInv, IsOrdered, Acyclic, Branch, Next, Without, Hide, FitsParent, HasJob, RestoredLeaf;
    HideMovesBranch(j.t, j.answers[run], RestoredLeaf(j, run), j.jobs[run].parent);
  }

  lemma HidingPlaces(env: Environment, j: Joint, run: RunRef, ages: Ages)
    requires ValidEnvironment(env) && JointInv(j) && IsOrdered(j, ages)
    requires HasJob(j, run) && j.jobs[run].phase.Committed? && !j.jobs[run].phase.deliver
    ensures var a, p, restore := j.answers[run], j.jobs[run].parent, RestoredLeaf(j, run);
      && Next(env, j, Place(run)).t == Hide(j.t, a, restore, p)
      && IsLive(j.t, a) && IsLive(j.t, restore) && IsLive(j.t, p) && restore != a && j.t.messages != map[]
      && a in ParentsIn(j.t) && p in ParentsIn(j.t) && a !in Branch(ParentsIn(j.t), p)
  {
    PlaceHides(env, j, run);
    assert TreeFits(j) && JobFits(j, run);
    assert ages[j.jobs[run].parent] < ages[j.answers[run]];
    hide JointInv, Hide, Branch, Next;
    YoungerIsNotAbove(ParentsIn(j.t), ages, j.answers[run], j.jobs[run].parent);
  }

  lemma PlaceHides(env: Environment, j: Joint, run: RunRef)
    requires ValidEnvironment(env) && HasJob(j, run) && j.jobs[run].phase.Committed? && !j.jobs[run].phase.deliver
    ensures Next(env, j, Place(run)).t == Hide(j.t, j.answers[run], RestoredLeaf(j, run), j.jobs[run].parent)
  {
    hide Hide;
  }

  /** After any run, a prepared run shows as one more message at the end of the branch; its instruction does not show. */
  lemma PreparingExtendsBranch(env: Environment, c: ConversationId, events: seq<JointEvent>, e: JointEvent)
    requires ValidEnvironment(env) && AllPossible(env, Empty(c), events) && e.DoPrepareAnswer?
    requires var j := RunOn(env, Empty(c), events); Possible(j, e) && Next(env, j, e) != j
    ensures var j := RunOn(env, Empty(c), events);
      var z := Next(env, j, e);
      HasBranch(j.t) && HasBranch(z.t) && CurrentBranch(z.t) == CurrentBranch(j.t) + [e.assistant] && e.user !in CurrentBranch(z.t)
  {
    TreeStaysAcyclic(env, c, events);
    hide RunOn, AllPossible, Acyclic, Closed, Branch, OtherRunning, StatusOf, BelongsTo;
    var j := RunOn(env, Empty(c), events);
    PrepareExtendsBranch(j.t, e.user, e.assistant);
  }

  /**
   After any run, committing an answer that was read unfinished: it is finished, as visible as it was when it was read, and the
   conversation moves to it, even in the recycle bin; nothing else changes. One that was read finished changes nothing.
   */
  lemma CommittingMovesLeaf(env: Environment, c: ConversationId, events: seq<JointEvent>, run: RunRef)
    requires ValidEnvironment(env) && AllPossible(env, Empty(c), events)
    requires var j := RunOn(env, Empty(c), events); HasJob(j, run) && j.jobs[run].phase.SawMessage?
    ensures var j := RunOn(env, Empty(c), events);
      var a, seen, z := j.answers[run], j.jobs[run].phase.seen, Next(env, j, Commit(run));
      && (!seen.unfinished ==> z.t == j.t)
      && (seen.unfinished ==>
            && z.t == j.t.(messages := j.t.messages[a := Message(j.t.messages[a].parent, seen.internal, j.t.messages[a].deleted, false)],
                           leaf := Some(a))
            && HasBranch(z.t) && a in ParentsIn(j.t) && CurrentBranch(z.t) == Branch(ParentsIn(j.t), a))
  {
    hide RunOn, AllPossible, JointInv, IsOrdered, Branch, Next, ParentsIn, CommitSeen, HasBranch, CurrentBranch;
    var j := RunOn(env, Empty(c), events);
    var ages := ReachedIsOrdered(env, c, events);
    JobFitsTree(j, run);
    CommitIsSeen(env, j, run);
    CommittedTree(j.t, j.answers[run], j.jobs[run].phase.seen);
  }

  lemma JobFitsTree(j: Joint, run: RunRef)
    requires JointInv(j) && run in j.jobs
    ensures IsWhole(j.t) && run in j.answers && j.answers[run] in j.t.messages
    ensures LeafOf(j.jobs[run].phase).Some? ==> LeafOf(j.jobs[run].phase).value in j.t.messages
  {
    hide Inv, Surplus, AnswerFits;
    assert JobFits(j, run);
  }

  lemma CommitIsSeen(env: Environment, j: Joint, run: RunRef)
    requires ValidEnvironment(env) && HasJob(j, run) && j.jobs[run].phase.SawMessage?
    ensures Next(env, j, Commit(run)).t == CommitSeen(j.t, j.answers[run], j.jobs[run].phase.seen)
  {
    hide CommitSeen;
  }

  lemma CommittedTree(t: Tree, a: MessageId, seen: Message)
    requires IsWhole(t) && a in t.messages
    ensures var u := CommitSeen(t, a, seen);
      && (!seen.unfinished ==> u == t)
      && (seen.unfinished ==>
            && u == t.(messages := t.messages[a := Message(t.messages[a].parent, seen.internal, t.messages[a].deleted, false)],
                       leaf := Some(a))
            && HasBranch(u) && a in ParentsIn(t) && CurrentBranch(u) == Branch(ParentsIn(t), a))
      && ParentsIn(u) == ParentsIn(t)
  {
    hide Branch;
    assert ParentsIn(CommitSeen(t, a, seen)) == ParentsIn(t);
  }

  /**
   After any run, delivering an answer. If the conversation is at the answer and is not recycled, and the leaf that was seen before the
   commit is another message, the conversation goes back to that leaf and its branch is the current one. Otherwise nothing changes.
   */
  lemma DeliveringPutsTheLeafBack(env: Environment, c: ConversationId, events: seq<JointEvent>, run: RunRef)
    requires ValidEnvironment(env) && AllPossible(env, Empty(c), events)
    requires var j := RunOn(env, Empty(c), events); HasJob(j, run) && j.jobs[run].phase.Committed? && j.jobs[run].phase.deliver
    ensures var j := RunOn(env, Empty(c), events);
      var a, seen, z := j.answers[run], j.jobs[run].phase.leaf, Next(env, j, Place(run));
      && (seen.Some? ==> seen.value in ParentsIn(j.t))
      && (j.t.leaf == Some(a) && !j.t.recycled && seen.Some? && seen.value != a ==>
            && z.t == j.t.(leaf := seen)
            && HasBranch(z.t) && CurrentBranch(z.t) == Branch(ParentsIn(j.t), seen.value))
      && (j.t.leaf != Some(a) || j.t.recycled || seen.None? || seen.value == a ==> z.t == j.t)
  {
    hide RunOn, AllPossible, JointInv, IsOrdered, Branch, Next, ParentsIn, RestoreLeaf, HasBranch, CurrentBranch;
    var j := RunOn(env, Empty(c), events);
    var ages := ReachedIsOrdered(env, c, events);
    JobFitsTree(j, run);
    PlaceDelivers(env, j, run);
    RestoredTree(j.t, j.answers[run], j.jobs[run].phase.leaf);
  }

  lemma PlaceDelivers(env: Environment, j: Joint, run: RunRef)
    requires ValidEnvironment(env) && HasJob(j, run) && j.jobs[run].phase.Committed? && j.jobs[run].phase.deliver
    ensures Next(env, j, Place(run)).t == RestoreLeaf(j.t, j.answers[run], j.jobs[run].phase.leaf)
  {
    hide RestoreLeaf;
  }

  lemma RestoredTree(t: Tree, a: MessageId, seen: Option<MessageId>)
    requires IsWhole(t) && (seen.Some? ==> seen.value in t.messages)
    ensures var u := RestoreLeaf(t, a, seen);
      && (seen.Some? ==> seen.value in ParentsIn(t))
      && (t.leaf == Some(a) && !t.recycled && seen.Some? && seen.value != a ==>
            u == t.(leaf := seen) && HasBranch(u) && CurrentBranch(u) == Branch(ParentsIn(t), seen.value))
      && (t.leaf != Some(a) || t.recycled || seen.None? || seen.value == a ==> u == t)
      && ParentsIn(u) == ParentsIn(t)
  {
    hide Branch;
    assert ParentsIn(t.(leaf := seen)) == ParentsIn(t);
  }

  /** What is left to do once a result was judged. */
  function LastSteps(run: RunRef): seq<JointEvent> {
    [SeeLeaf(run), SeeMessage(run), Commit(run), Place(run)]
  }

  /**
   After any run, a delivered answer that nothing disturbs from looking at the leaf on leaves the conversation where the user left it,
   with the same branch, except that an unfinished answer takes the leaf of a recycled conversation.
   */
  lemma DeliveredRunKeepsTheLeaf(env: Environment, c: ConversationId, events: seq<JointEvent>, run: RunRef)
    requires ValidEnvironment(env) && AllPossible(env, Empty(c), events)
    requires var j := RunOn(env, Empty(c), events); HasJob(j, run) && j.jobs[run].phase == Judged(true)
    ensures var j := RunOn(env, Empty(c), events);
      var a, z := j.answers[run], RunOn(env, j, LastSteps(run));
      && z.t.leaf == (if j.t.recycled && j.t.messages[a].unfinished then Some(a) else j.t.leaf)
      && HasBranch(j.t) && HasBranch(z.t) && ParentsIn(z.t) == ParentsIn(j.t)
      && (z.t.leaf == j.t.leaf ==> CurrentBranch(z.t) == CurrentBranch(j.t))
      && z.t.messages.Keys == j.t.messages.Keys && !z.t.messages[a].unfinished && z.t.messageCount == j.t.messageCount
  {
    hide RunOn, AllPossible, JointInv, IsOrdered, Acyclic, Closed, Branch, CommitSeen, RestoreLeaf, ParentsIn, LastSteps;
    TreeStaysAcyclic(env, c, events);
    var j := RunOn(env, Empty(c), events);
    var ages := ReachedIsOrdered(env, c, events);
    JobFitsTree(j, run);
    DeliveredSteps(env, j, run);
    CommittedAndRestored(j.t, j.answers[run]);
  }

  lemma CommittedAndRestored(t: Tree, a: MessageId)
    requires IsWhole(t) && a in t.messages && HasBranch(t)
    ensures var u := RestoreLeaf(CommitSeen(t, a, t.messages[a]), a, t.leaf);
      && u.leaf == (if t.recycled && t.messages[a].unfinished then Some(a) else t.leaf)
      && HasBranch(u) && ParentsIn(u) == ParentsIn(t)
      && u.messages.Keys == t.messages.Keys && !u.messages[a].unfinished && u.messageCount == t.messageCount
  {
    CommittedTree(t, a, t.messages[a]);
    var v := CommitSeen(t, a, t.messages[a]);
    assert IsWhole(v);
    RestoredTree(v, a, t.leaf);
    hide ParentsIn, CurrentBranch;
  }

  lemma DeliveredSteps(env: Environment, j: Joint, run: RunRef)
    requires ValidEnvironment(env) && HasJob(j, run) && j.jobs[run].phase == Judged(true)
    ensures var a := j.answers[run];
      RunOn(env, j, LastSteps(run)).t == RestoreLeaf(CommitSeen(j.t, a, j.t.messages[a]), a, j.t.leaf)
  {
    hide RestoreLeaf;
    var a := j.answers[run];
    var j1 := Next(env, j, SeeLeaf(run));
    assert j1 == j.(jobs := WithPhase(j, run, SawLeaf(true, j.t.leaf)));
    var j2 := Next(env, j1, SeeMessage(run));
    assert j2 == j.(jobs := WithPhase(j, run, SawMessage(true, j.t.leaf, j.t.messages[a])));
    var j3 := Next(env, j2, Commit(run));
    assert j3.t == CommitSeen(j.t, a, j.t.messages[a]) && j3.jobs[run].phase == Committed(true, j.t.leaf);
    var j4 := Next(env, j3, Place(run));
    FourSteps(env, j, LastSteps(run));
  }

  lemma FourSteps(env: Environment, j: Joint, events: seq<JointEvent>)
    requires ValidEnvironment(env) && |events| == 4
    ensures RunOn(env, j, events) == Next(env, Next(env, Next(env, Next(env, j, events[0]), events[1]), events[2]), events[3])
  {
    hide Next;
    var j1 := Next(env, j, events[0]);
    var j2 := Next(env, j1, events[1]);
    var j3 := Next(env, j2, events[2]);
    assert events[1..][1..] == events[2..] && events[2..][1..] == events[3..] && events[3..][1..] == [];
    assert RunOn(env, j, events) == RunOn(env, j1, events[1..]);
    assert RunOn(env, j1, events[1..]) == RunOn(env, j2, events[2..]);
    assert RunOn(env, j2, events[2..]) == RunOn(env, j3, events[3..]);
    assert RunOn(env, j3, events[3..]) == RunOn(env, Next(env, j3, events[3]), []);
  }

  /** The rest of an executor's steps, when nothing comes between. */
  function OwnSteps(run: RunRef): seq<JointEvent> {
    [Judge(run, true), SeeLeaf(run), SeeMessage(run), Commit(run), Place(run)]
  }

  /** After any run, a silent run that nothing disturbs leaves branch, leaf and count as they were. */
  lemma SilentRunLeavesNoTrace(env: Environment, c: ConversationId, events: seq<JointEvent>, e: JointEvent)
    requires ValidEnvironment(env) && AllPossible(env, Empty(c), events) && e.DoPrepareAnswer?
    requires var j := RunOn(env, Empty(c), events);
      && Possible(j, e) && Next(env, j, e) != j
      && e.run.automationId in j.s.table && !Delivers(j.s.table[e.run.automationId], true)
    ensures var j := RunOn(env, Empty(c), events);
      var z := RunOn(env, Next(env, j, e), OwnSteps(e.run));
      && z.t.leaf == j.t.leaf && z.t.messageCount == j.t.messageCount
      && HasBranch(j.t) && HasBranch(z.t) && CurrentBranch(z.t) == CurrentBranch(j.t)
  {
    TreeStaysAcyclic(env, c, events);
    var j := RunOn(env, Empty(c), events);
    var k := Next(env, j, e);
    PreparedIs(env, j, e);
    SilentSteps(env, k, e.run);
    hide RunOn, AllPossible, Acyclic, Closed, Branch, Next, Possible, PrepareAnswer, Hide, CommitSeen;
    HideUndoesPrepare(j.t, e.user, e.assistant);
    CommitChangesNoLinks(k.t, e.assistant, j.t.leaf.value);
  }

  lemma PreparedIs(env: Environment, j: Joint, e: JointEvent)
    requires ValidEnvironment(env) && e.DoPrepareAnswer? && Possible(j, e) && Next(env, j, e) != j
    ensures var k := Next(env, j, e);
      && PrepareAnswer(j.t, true, false, false).Ready? && j.t.leaf.Some?
      && k.t == Prepare(j.t, true, false, false, e.user, e.assistant) && k.s == j.s
      && e.run in k.jobs && e.run in k.answers && k.answers[e.run] == e.assistant
      && k.jobs[e.run] == Job(j.t.leaf.value, Phase.Working, false)
      && e.user !in j.t.messages && e.assistant !in j.t.messages && e.user != e.assistant
      && IsLive(k.t, e.assistant) && IsLive(k.t, j.t.leaf.value) && j.t.leaf.value != e.assistant
      && k.t.leaf == Some(e.assistant) && k.t.messages[e.assistant].unfinished
  {
    hide OtherRunning, StatusOf, BelongsTo;
  }

  lemma SilentSteps(env: Environment, k: Joint, run: RunRef)
    requires ValidEnvironment(env) && HasJob(k, run) && k.jobs[run].phase.Working? && !k.jobs[run].covered
    requires !Delivers(k.s.table[run.automationId], true) && k.t.leaf == Some(k.answers[run])
    ensures var a, p := k.answers[run], k.jobs[run].parent;
      RunOn(env, k, OwnSteps(run)).t == Hide(CommitSeen(k.t, a, k.t.messages[a]), a, p, p)
  {
    hide Hide;
    var a := k.answers[run];
    var k1 := Next(env, k, Judge(run, true));
    assert k1 == k.(jobs := WithPhase(k, run, Judged(false)));
    var k2 := Next(env, k1, SeeLeaf(run));
    assert k2 == k.(jobs := WithPhase(k, run, SawLeaf(false, Some(a))));
    var k3 := Next(env, k2, SeeMessage(run));
    assert k3 == k.(jobs := WithPhase(k, run, SawMessage(false, Some(a), k.t.messages[a])));
    var k4 := Next(env, k3, Commit(run));
    assert k4.t == CommitSeen(k.t, a, k.t.messages[a]) && k4.jobs[run] == Job(k.jobs[run].parent, Committed(false, Some(a)), false);
    var k5 := Next(env, k4, Place(run));
    FiveSteps(env, k, OwnSteps(run));
  }

  lemma FiveSteps(env: Environment, k: Joint, events: seq<JointEvent>)
    requires ValidEnvironment(env) && |events| == 5
    ensures RunOn(env, k, events) ==
      Next(env, Next(env, Next(env, Next(env, Next(env, k, events[0]), events[1]), events[2]), events[3]), events[4])
  {
    hide Next;
    FourSteps(env, Next(env, k, events[0]), events[1..]);
  }

  /** Committing first makes no difference to what hiding does to leaf, count and links. */
  lemma CommitChangesNoLinks(t: Tree, a: MessageId, p: MessageId)
    requires IsLive(t, a) && IsLive(t, p) && p != a && t.leaf == Some(a)
    ensures var v, u := CommitSeen(t, a, t.messages[a]), Hide(t, a, p, p);
      var w := Hide(v, a, p, p);
      w.leaf == u.leaf && w.messageCount == u.messageCount && ParentsIn(w) == ParentsIn(u)
  {
    var v := CommitSeen(t, a, t.messages[a]);
    assert ParentsIn(v) == ParentsIn(t);
    HideSplices(t, a, p, p);
    HideSplices(v, a, p, p);
    hide Reparent;
  }

  /** After any run, deleting the conversation takes exactly the answers of the runs it stops off the branch. */
  lemma DeletingMovesBranch(env: Environment, c: ConversationId, events: seq<JointEvent>, e: Event, order: seq<MessageId>)
    requires ValidEnvironment(env) && AllPossible(env, Empty(c), events)
    requires var j := RunOn(env, Empty(c), events); Possible(j, Happens(e, order)) && DeletesIt(j, e) && HasBranch(j.t)
    ensures var j := RunOn(env, Empty(c), events);
      var z := Next(env, j, Happens(e, order));
      && Acyclic(ParentsIn(z.t)) && HasBranch(z.t)
      && CurrentBranch(z.t) == WithoutAll(CurrentBranch(j.t), (set a | a in order))
  {
    hide RunOn, AllPossible, Acyclic, Closed, Branch, WithoutAll, JointInv, IsOrdered, CleanUpAll, Next, Removed, Possible;
    TreeStaysAcyclic(env, c, events);
    var ages := ReachedIsOrdered(env, c, events);
    var j := RunOn(env, Empty(c), events);
    DeletionCleansUp(env, j, e, order);
    CleanUpKeepsBranch(j.t, order);
    AllAreRemoved(j, e, order, ages);
  }

  lemma DeletionCleansUp(env: Environment, j: Joint, e: Event, order: seq<MessageId>)
    requires ValidEnvironment(env) && DeletesIt(j, e)
    ensures var u, v := Next(env, j, Happens(e, order)).t, CleanUpAll(j.t, order);
      u == v.(recycled := true) && ParentsIn(u) == ParentsIn(v)
  {
    hide CleanUpAll, Apply;
    var u := CleanUpAll(j.t, order);
    assert ParentsIn(u.(recycled := true)) == ParentsIn(u);
  }

  lemma AllAreRemoved(j: Joint, e: Event, order: seq<MessageId>, ages: Ages)
    requires JointInv(j) && IsOrdered(j, ages) && Possible(j, Happens(e, order)) && DeletesIt(j, e)
    ensures Removed(j.t, order) == (set a | a in order)
  {
    hide Inv, Enabled, Surplus, Descends, IsCleanedUp;
    forall a | a in order ensures IsLive(j.t, a) && j.t.messages[a].parent.Some? {
      var run :| run in j.answers && j.answers[run] == a;
    }
  }
}
