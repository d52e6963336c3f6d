/** Runs of AutomationMessages that show where the message count and the branch go wrong, and when they can. */
module AutomationMessageRuns {
  import opened Wrappers
  import opened BranchSelection
  import opened Conversation
  import opened AutomationLifecycle
  import opened AutomationRow
  import opened AutomationSystem
  import AutomationRuns
  import opened AutomationMessages

  // ---------------------------------------------------------------- each careless step does harm

  /**
   Deletion passes over an answer that is about to be hidden and whose automation already ended: the answer is hidden in the recycle
   bin, and the count stays one too high.
   */
  lemma PassedOverIsMiscounted(env: Environment, j: Joint, run: RunRef, order: seq<MessageId>, now: int)
    requires ValidEnvironment(env) && JointInv(j) && run in j.jobs && j.jobs[run].phase.Committed? && !j.jobs[run].phase.deliver
    requires j.c in j.s.live && !j.jobs[run].covered && StatusOf(j.s, run).Some? && IsTerminal(j.s.table[run.automationId])
    requires Possible(j, Happens(Event(DeleteConversation(j.c), now), order))
    ensures var k := Next(env, j, Happens(Event(DeleteConversation(j.c), now), order));
      var z := Next(env, k, Place(run));
      Possible(k, Place(run)) && Surplus(z.t) == Surplus(j.t) + 1
  {
    hide JointInv, Next, Possible, Surplus, StatusOf, IsTerminal;
    var e := Happens(Event(DeleteConversation(j.c), now), order);
    var k := Next(env, j, e);
    StepKeepsInv(env, j, e);
    DeletionKeepsJob(env, j, run, order, now);
    JobIsThere(k, run);
    OwnStepIsPossible(k, run);
    StepKeepsInv(env, k, Place(run));
    HidingCounts(env, k, run);
    BooksBalance(j);
    BooksBalance(k);
    BooksBalance(Next(env, k, Place(run)));
  }

  lemma OwnStepIsPossible(j: Joint, run: RunRef)
    ensures Possible(j, Place(run)) && Possible(j, Commit(run))
  {
  }

  lemma HidingCounts(env: Environment, k: Joint, run: RunRef)
    requires ValidEnvironment(env) && HasJob(k, run) && k.jobs[run].phase.Committed? && !k.jobs[run].phase.deliver
    ensures var z := Next(env, k, Place(run));
      && z.late == k.late + (if k.t.recycled && !k.jobs[run].covered then 1 else 0)
      && z.twice == k.twice + (if !k.t.recycled && k.jobs[run].covered then 1 else 0)
      && z.undone == k.undone
  {
    hide Hide;
  }

  lemma SeenWasVisible(j: Joint, run: RunRef)
    requires JointInv(j) && run in j.jobs && j.jobs[run].phase.SawMessage? && j.jobs[run].phase.seen.unfinished
    ensures !j.jobs[run].phase.seen.internal
  {
    hide Inv, Surplus, AnswerFits, AnswersDiffer;
    assert JobFits(j, run);
  }

  lemma ShowingCounts(env: Environment, k: Joint, run: RunRef)
    requires ValidEnvironment(env) && HasJob(k, run) && k.jobs[run].phase.SawMessage? && k.jobs[run].phase.seen.unfinished
    requires k.jobs[run].covered
    ensures var z := Next(env, k, Commit(run));
      && z.late == k.late && z.twice == k.twice && z.undone == k.undone + 1 && z.answers == k.answers
      && z.answers[run] in z.t.messages && z.t.messages[z.answers[run]].internal == k.jobs[run].phase.seen.internal
      && z.t.leaf == Some(z.answers[run]) && z.t.recycled == k.t.recycled
  {
  }

  lemma BooksBalance(j: Joint)
    requires JointInv(j)
    ensures Surplus(j.t) == j.late - j.twice - j.undone
    ensures j.t.recycled <==> j.c !in j.s.live
  {
  }

  lemma JobIsThere(j: Joint, run: RunRef)
    requires JointInv(j) && run in j.jobs
    ensures HasJob(j, run)
  {
    hide Surplus, Inv, BelongsTo, StatusOf;
    assert JobFits(j, run) && AnswerFits(j, run);
    BelongsToTable(j.s, run, j.c);
  }

  lemma DeletionKeepsJob(env: Environment, j: Joint, run: RunRef, order: seq<MessageId>, now: int)
    requires ValidEnvironment(env) && JointInv(j) && run in j.jobs && j.c in j.s.live
    ensures var k := Next(env, j, Happens(Event(DeleteConversation(j.c), now), order));
      && run in k.jobs && k.jobs[run].phase == j.jobs[run].phase
      && (k.jobs[run].covered <==> j.jobs[run].covered || !IsTerminal(j.s.table[run.automationId]))
      && k.late == j.late && k.twice == j.twice && k.undone == j.undone && k.c == j.c
      && k.s.live == j.s.live - {j.c} && k.s.executing == j.s.executing
  {
    ExecutedIsUnderWay(j, run);
    JobIsThere(j, run);
    assert run in j.s.executing by {
      assert JobFits(j, run);
    }
    hide JointInv, TreeAfter;
  }

  /** Deletion covers an answer that is about to be hidden, and the conversation is restored first: the answer is subtracted twice. */
  lemma RestoredIsMiscounted(env: Environment, j: Joint, run: RunRef, order: seq<MessageId>, now: int)
    requires ValidEnvironment(env) && JointInv(j) && run in j.jobs && j.jobs[run].phase.Committed? && !j.jobs[run].phase.deliver
    requires j.c in j.s.live && StatusOf(j.s, run).Some? && !IsTerminal(j.s.table[run.automationId])
    requires Possible(j, Happens(Event(DeleteConversation(j.c), now), order))
    ensures var k := Next(env, j, Happens(Event(DeleteConversation(j.c), now), order));
      var l := Next(env, k, Happens(Event(OpenConversation(j.c), now), []));
      var z := Next(env, l, Place(run));
      Possible(k, Happens(Event(OpenConversation(j.c), now), [])) && Possible(l, Place(run)) && Surplus(z.t) == Surplus(j.t) - 1
  {
    hide JointInv, Next, Possible, Surplus, StatusOf, IsTerminal;
    var e, f := Happens(Event(DeleteConversation(j.c), now), order), Happens(Event(OpenConversation(j.c), now), []);
    var k := Next(env, j, e);
    var l := Next(env, k, f);
    StepKeepsInv(env, j, e);
    DeletionKeepsJob(env, j, run, order, now);
    RestoringIsPossible(env, j, order, now);
    StepKeepsInv(env, k, f);
    RestoringKeepsJob(env, k, run, now);
    JobIsThere(l, run);
    OwnStepIsPossible(l, run);
    StepKeepsInv(env, l, Place(run));
    HidingCounts(env, l, run);
    BooksBalance(j);
    BooksBalance(l);
    BooksBalance(Next(env, l, Place(run)));
  }

  lemma RestoringIsPossible(env: Environment, j: Joint, order: seq<MessageId>, now: int)
    requires ValidEnvironment(env) && Possible(j, Happens(Event(DeleteConversation(j.c), now), order))
    ensures var k := Next(env, j, Happens(Event(DeleteConversation(j.c), now), order));
      Possible(k, Happens(Event(OpenConversation(j.c), now), []))
  {
    hide TreeAfter;
  }

  lemma RestoringKeepsJob(env: Environment, k: Joint, run: RunRef, now: int)
    requires ValidEnvironment(env) && JointInv(k) && run in k.jobs
    ensures var l := Next(env, k, Happens(Event(OpenConversation(k.c), now), []));
      && run in l.jobs && l.jobs[run] == k.jobs[run] && l.s.live == k.s.live + {k.c} && l.c == k.c
      && l.late == k.late && l.twice == k.twice && l.undone == k.undone
  {
    assert run in k.s.executing by {
      assert JobFits(k, run);
    }
    hide JointInv, TreeAfter;
  }

  lemma CommitShowsAgain(env: Environment, k: Joint, run: RunRef)
    requires ValidEnvironment(env) && JointInv(k) && run in k.jobs && k.jobs[run].phase.SawMessage? && k.jobs[run].phase.seen.unfinished
    requires k.jobs[run].covered
    ensures var z := Next(env, k, Commit(run));
      && Surplus(z.t) == Surplus(k.t) - 1 && z.t.recycled == k.t.recycled && run in z.answers
      && z.answers[run] in z.t.messages && !z.t.messages[z.answers[run]].internal && z.t.leaf == Some(z.answers[run])
  {
    hide JointInv, Next, Possible, Surplus;
    SeenWasVisible(k, run);
    JobIsThere(k, run);
    OwnStepIsPossible(k, run);
    StepKeepsInv(env, k, Commit(run));
    ShowingCounts(env, k, run);
    BooksBalance(k);
    BooksBalance(Next(env, k, Commit(run)));
  }

  /**
   Deletion hides an answer between the read and the write of its commit: the commit shows it again in the recycle bin, and the count
   stays one too low.
   */
  lemma CommitUndoesDeletion(env: Environment, j: Joint, run: RunRef, order: seq<MessageId>, now: int)
    requires ValidEnvironment(env) && JointInv(j) && run in j.jobs && j.jobs[run].phase.SawMessage? && j.jobs[run].phase.seen.unfinished
    requires j.c in j.s.live && StatusOf(j.s, run).Some? && !IsTerminal(j.s.table[run.automationId])
    requires Possible(j, Happens(Event(DeleteConversation(j.c), now), order))
    ensures var k := Next(env, j, Happens(Event(DeleteConversation(j.c), now), order));
      var z := Next(env, k, Commit(run));
      && Possible(k, Commit(run)) && Surplus(z.t) == Surplus(j.t) - 1 && z.t.recycled && run in z.answers
      && z.answers[run] in z.t.messages && !z.t.messages[z.answers[run]].internal && z.t.leaf == Some(z.answers[run])
  {
    hide JointInv, Next, Possible, Surplus, StatusOf, IsTerminal;
    var e := Happens(Event(DeleteConversation(j.c), now), order);
    var k := Next(env, j, e);
    StepKeepsInv(env, j, e);
    DeletionKeepsJob(env, j, run, order, now);
    OwnStepIsPossible(k, run);
    CommitShowsAgain(env, k, run);
    BooksBalance(j);
    BooksBalance(k);
  }

  // ---------------------------------------------------------------- from the empty database

  /** `events` lead from j to k, each possible when it comes. */
  predicate Leads(env: Environment, j: Joint, events: seq<JointEvent>, k: Joint)
    requires ValidEnvironment(env)
  {
    AllPossible(env, j, events) && RunOn(env, j, events) == k
  }

  lemma LeadsNowhere(env: Environment, j: Joint)
    requires ValidEnvironment(env)
    ensures Leads(env, j, [], j)
  {
  }

  lemma LeadsOn(env: Environment, j: Joint, e: JointEvent, rest: seq<JointEvent>, k: Joint)
    requires ValidEnvironment(env) && Possible(j, e) && Leads(env, Next(env, j, e), rest, k)
    ensures Leads(env, j, [e] + rest, k)
  {
    hide Next, Possible;
    assert ([e] + rest)[1..] == rest;
  }

  const SILENT := RunRef("a", 0)
  const MINUTE := 60_000

  /** An automation that reports on completion only, every minute. */
  function Watcher(status: AutomationStatus, wake: Option<int>, runs: seq<Run>): Automation {
    Automation("c", status, Interval(None, 1, Minute, None), StopPolicy(None, None, true, false), OnCompletion, wake, None, 0, None, runs)
  }

  function WatcherInput(): CreateInput {
    CreateInput(TriggerInput("interval", Absent, Some(1), "minute", None), StopInput(false, None, true, Absent), "on_completion")
  }

  function With(s: System, t: Tree, answers: map<RunRef, MessageId>, jobs: map<RunRef, Job>): Joint {
    Joint("c", s, t, answers, jobs, {}, 0, 0, 0)
  }

  const QUESTION := Message(None, false, false, false)
  const ASKED := Tree(map["q" := QUESTION], Some("q"), 1, false)

  function Working(): Tree {
    Tree(map["q" := QUESTION, "u" := Message(Some("q"), true, false, false), "x" := Message(Some("q"), false, false, true)], Some("x"), 2, false)
  }

  function Answered(): Tree {
    Tree(map["q" := QUESTION, "u" := Message(Some("q"), true, false, false), "x" := Message(Some("q"), false, false, false)], Some("x"), 2, false)
  }

  function RunningSystem(): System {
    System(map["a" := Watcher(Active, None, [Run(MINUTE, Running, Some("t"))])], {"c"}, {}, map[], {SILENT}, MINUTE)
  }

  function WorkingAt(phase: Phase): Joint {
    With(RunningSystem(), Working(), map[SILENT := "x"], map[SILENT := Job("q", phase, false)])
  }

  /** The answer of a silent run is committed and about to be hidden. */
  function SilentAnswer(): Joint {
    With(RunningSystem(), Answered(), map[SILENT := "x"], map[SILENT := Job("q", Committed(false, Some("x")), false)])
  }

  function EventsToRunning(): seq<JointEvent> {
    [Happens(Event(OpenConversation("c"), 0), [])] + ([Chat("q")]
    + ([Happens(Event(CreateAutomation("a", "c", WatcherInput()), 0), [])]
    + ([Happens(Event(FindDue({"a"}), MINUTE), [])] + ([Happens(Event(ClaimNext("a"), MINUTE), [])]
    + ([Happens(Event(StartRun(SILENT, "t"), MINUTE), [])] + EventsToAnswer())))))
  }

  function EventsToAnswer(): seq<JointEvent> {
    [DoPrepareAnswer(SILENT, false, "u", "x")] + ([Judge(SILENT, true)] + ([SeeLeaf(SILENT)] + ([SeeMessage(SILENT)] + ([Commit(SILENT)] + []))))
  }

  lemma JudgingSteps(env: Environment)
    requires ValidEnvironment(env)
    ensures Next(env, WorkingAt(Phase.Working), Judge(SILENT, true)) == WorkingAt(Judged(false))
    ensures Next(env, WorkingAt(Judged(false)), SeeLeaf(SILENT)) == WorkingAt(SawLeaf(false, Some("x")))
    ensures (
      Next(env, WorkingAt(SawLeaf(false, Some("x"))), SeeMessage(SILENT))
      == WorkingAt(SawMessage(false, Some("x"), Working().messages["x"])))
  {
  }

  lemma AnsweringSteps(env: Environment)
    requires ValidEnvironment(env)
    ensures Leads(env, With(RunningSystem(), ASKED, map[], map[]), EventsToAnswer(), SilentAnswer())
  {
    var j := With(RunningSystem(), ASKED, map[], map[]);
    var seen := Working().messages["x"];
    PreparingStep(env);
    JudgingSteps(env);
    CommittingStep(env, seen);
    hide Next, Possible, Leads;
    LeadsNowhere(env, SilentAnswer());
    PossibleOwnSteps(SILENT, true);
    LeadsOn(env, WorkingAt(SawMessage(false, Some("x"), seen)), Commit(SILENT), [], SilentAnswer());
    LeadsOn(env, WorkingAt(SawLeaf(false, Some("x"))), SeeMessage(SILENT), [Commit(SILENT)] + [], SilentAnswer());
    LeadsOn(env, WorkingAt(Judged(false)), SeeLeaf(SILENT), [SeeMessage(SILENT)] + ([Commit(SILENT)] + []), SilentAnswer());
    LeadsOn(env, WorkingAt(Phase.Working), Judge(SILENT, true), [SeeLeaf(SILENT)] + ([SeeMessage(SILENT)] + ([Commit(SILENT)] + [])), SilentAnswer());
    LeadsOn(env, j, DoPrepareAnswer(SILENT, false, "u", "x"),
            [Judge(SILENT, true)] + ([SeeLeaf(SILENT)] + ([SeeMessage(SILENT)] + ([Commit(SILENT)] + []))), SilentAnswer());
  }

  lemma PossibleOwnSteps(run: RunRef, successful: bool)
    ensures forall j: Joint ::
      && Possible(j, Judge(run, successful)) && Possible(j, SeeLeaf(run)) && Possible(j, SeeMessage(run))
      && Possible(j, Commit(run)) && Possible(j, Place(run))
  {
  }

  lemma PreparingStep(env: Environment)
    requires ValidEnvironment(env)
    ensures var j, e := With(RunningSystem(), ASKED, map[], map[]), DoPrepareAnswer(SILENT, false, "u", "x");
      Possible(j, e) && Next(env, j, e) == WorkingAt(Phase.Working)
  {
    var j, e := With(RunningSystem(), ASKED, map[], map[]), DoPrepareAnswer(SILENT, false, "u", "x");
    assert !HasUnfinished(ASKED);
    assert PrepareAnswer(ASKED, true, false, OtherRunning(j, Some(SILENT))) == Ready("q");
    assert Prepare(ASKED, true, false, OtherRunning(j, Some(SILENT)), "u", "x") == Working();
  }

  lemma CommittingStep(env: Environment, seen: Message)
    requires ValidEnvironment(env) && seen == Working().messages["x"]
    ensures Next(env, WorkingAt(SawMessage(false, Some("x"), seen)), Commit(SILENT)) == SilentAnswer()
  {
    assert CommitSeen(Working(), "x", seen) == Answered();
  }

  lemma RunningSteps(env: Environment)
    requires ValidEnvironment(env)
    ensures Leads(env, Empty("c"), EventsToRunning(), SilentAnswer())
  {
    hide Next, Possible, Leads;
    AnsweringSteps(env);
    var s1 := System(map[], {"c"}, {}, map[], {}, 0);
    var s2 := s1.(table := map["a" := Watcher(Active, Some(MINUTE), [])]);
    var s3 := s2.(due := map["a" := MINUTE], clock := MINUTE);
    var s4 := System(map["a" := Watcher(Active, None, [Run(MINUTE, Pending, None)])], {"c"}, {}, map[], {}, MINUTE);
    var j1 := With(s1, Tree(map[], None, 0, false), map[], map[]);
    OpeningStep(env);
    CreatingStep(env);
    FindingStep(env);
    ClaimingStep(env);
    StartingStep(env);
    AskingStep(env);
    var rest := EventsToAnswer();
    LeadsOn(env, With(s4, ASKED, map[], map[]), Happens(Event(StartRun(SILENT, "t"), MINUTE), []), rest, SilentAnswer());
    rest := [Happens(Event(StartRun(SILENT, "t"), MINUTE), [])] + rest;
    LeadsOn(env, With(s3, ASKED, map[], map[]), Happens(Event(ClaimNext("a"), MINUTE), []), rest, SilentAnswer());
    rest := [Happens(Event(ClaimNext("a"), MINUTE), [])] + rest;
    LeadsOn(env, With(s2, ASKED, map[], map[]), Happens(Event(FindDue({"a"}), MINUTE), []), rest, SilentAnswer());
    rest := [Happens(Event(FindDue({"a"}), MINUTE), [])] + rest;
    LeadsOn(env, With(s1, ASKED, map[], map[]), Happens(Event(CreateAutomation("a", "c", WatcherInput()), 0), []), rest, SilentAnswer());
    rest := [Happens(Event(CreateAutomation("a", "c", WatcherInput()), 0), [])] + rest;
    LeadsOn(env, j1, Chat("q"), rest, SilentAnswer());
    LeadsOn(env, Empty("c"), Happens(Event(OpenConversation("c"), 0), []), [Chat("q")] + rest, SilentAnswer());
  }

  lemma OpeningStep(env: Environment)
    requires ValidEnvironment(env)
    ensures var e := Happens(Event(OpenConversation("c"), 0), []);
      && Possible(Empty("c"), e)
      && Next(env, Empty("c"), e) == With(System(map[], {"c"}, {}, map[], {}, 0), Tree(map[], None, 0, false), map[], map[])
  {
  }

  lemma AskingStep(env: Environment)
    requires ValidEnvironment(env)
    ensures var s := System(map[], {"c"}, {}, map[], {}, 0);
      var j := With(s, Tree(map[], None, 0, false), map[], map[]);
      Possible(j, Chat("q")) && Next(env, j, Chat("q")) == With(s, ASKED, map[], map[])
  {
  }

  lemma CreatingStep(env: Environment)
    requires ValidEnvironment(env)
    ensures var j := With(System(map[], {"c"}, {}, map[], {}, 0), ASKED, map[], map[]);
      var e := Happens(Event(CreateAutomation("a", "c", WatcherInput()), 0), []);
      && Possible(j, e)
      && Next(env, j, e) == With(System(map["a" := Watcher(Active, Some(MINUTE), [])], {"c"}, {}, map[], {}, 0), ASKED, map[], map[])
  {
    WatcherIsCreated(env, 0);
    hide Create;
  }

  lemma WatcherIsCreated(env: Environment, now: int)
    requires ValidEnvironment(env)
    ensures Create(env, "c", WatcherInput(), now) == Ok(Watcher(Active, Some(now + MINUTE), []))
  {
    assert NormalizeTrigger(WatcherInput().trigger, now) == Ok((Interval(None, 1, Minute, None), Some(now + MINUTE)));
    assert NormalizeStopPolicy(WatcherInput().stopPolicy, now, true, env.lifetimeDays) == Ok(StopPolicy(None, None, true, false));
  }

  lemma FindingStep(env: Environment)
    requires ValidEnvironment(env)
    ensures var s := System(map["a" := Watcher(Active, Some(MINUTE), [])], {"c"}, {}, map[], {}, 0);
      var e := Happens(Event(FindDue({"a"}), MINUTE), []);
      && Possible(With(s, ASKED, map[], map[]), e)
      && Next(env, With(s, ASKED, map[], map[]), e) == With(s.(due := map["a" := MINUTE], clock := MINUTE), ASKED, map[], map[])
  {
    var s := System(map["a" := Watcher(Active, Some(MINUTE), [])], {"c"}, {}, map[], {}, 0);
    assert Apply(env, s, Event(FindDue({"a"}), MINUTE)).due == map["a" := MINUTE];
  }

  lemma ClaimingStep(env: Environment)
    requires ValidEnvironment(env)
    ensures var s := System(map["a" := Watcher(Active, Some(MINUTE), [])], {"c"}, {}, map["a" := MINUTE], {}, MINUTE);
      var e := Happens(Event(ClaimNext("a"), MINUTE), []);
      var claimed := System(map["a" := Watcher(Active, None, [Run(MINUTE, Pending, None)])], {"c"}, {}, map[], {}, MINUTE);
      && Possible(With(s, ASKED, map[], map[]), e)
      && Next(env, With(s, ASKED, map[], map[]), e) == With(claimed, ASKED, map[], map[])
  {
    var a := Watcher(Active, Some(MINUTE), []);
    assert Step(env, a, DoClaim(MINUTE), MINUTE) == Watcher(Active, None, [Run(MINUTE, Pending, None)]);
    hide Step;
    var s := System(map["a" := a], {"c"}, {}, map["a" := MINUTE], {}, MINUTE);
    assert Apply(env, s, Event(ClaimNext("a"), MINUTE)).due == map[];
  }

  lemma StartingStep(env: Environment)
    requires ValidEnvironment(env)
    ensures var s := System(map["a" := Watcher(Active, None, [Run(MINUTE, Pending, None)])], {"c"}, {}, map[], {}, MINUTE);
      var e := Happens(Event(StartRun(SILENT, "t"), MINUTE), []);
      && Possible(With(s, ASKED, map[], map[]), e)
      && Next(env, With(s, ASKED, map[], map[]), e) == With(RunningSystem(), ASKED, map[], map[])
  {
    var a := Watcher(Active, None, [Run(MINUTE, Pending, None)]);
    assert Step(env, a, DoPrepare(0, "t"), MINUTE) == Watcher(Active, None, [Run(MINUTE, Running, Some("t"))]);
    hide Step;
  }

  // ---------------------------------------------------------------- the wrong counts are reached

  lemma LeadsFarther(env: Environment, j: Joint, events: seq<JointEvent>, k: Joint, more: seq<JointEvent>, l: Joint)
    requires ValidEnvironment(env) && Leads(env, j, events, k) && Leads(env, k, more, l)
    ensures Leads(env, j, events + more, l)
    decreases |events|
  {
    hide Next, Possible;
    if events == [] {
      assert [] + more == more;
    } else {
      LeadsFarther(env, Next(env, j, events[0]), events[1..], k, more, l);
      assert (events + more)[0] == events[0] && (events + more)[1..] == events[1..] + more;
    }
  }

  lemma SilentInv(env: Environment)
    requires ValidEnvironment(env)
    ensures JointInv(SilentAnswer())
  {
    hide RunOn, AllPossible, JointInv, Leads, EventsToRunning, SilentAnswer, Empty;
    RunningSteps(env);
    WhereItLeads(env, Empty("c"), EventsToRunning(), SilentAnswer());
    EmptyInv("c");
    RunsKeepInv(env, Empty("c"), EventsToRunning());
  }

  /** The answer of a silent run whose automation was cancelled before the conversation was deleted is counted for ever. */
  lemma CancelledThenDeleted(env: Environment) returns (events: seq<JointEvent>)
    requires ValidEnvironment(env)
    ensures AllPossible(env, Empty("c"), events) && Surplus(RunOn(env, Empty("c"), events).t) == 1
  {
    hide Next, Possible, Leads, Surplus, JointInv, SilentAnswer, CancelledAnswer, EventsToRunning, Empty, StatusOf, IsTerminal, AllPossible, RunOn;
    var cancel := Happens(Event(Request("a", DoCancel), MINUTE), []);
    var delete := Happens(Event(DeleteConversation("c"), MINUTE), []);
    var j, k := SilentAnswer(), CancelledAnswer();
    SilentInv(env);
    CancellingStep(env);
    StepKeepsInv(env, j, cancel);
    NothingToCleanUp(env);
    PassedOverIsMiscounted(env, k, SILENT, [], MINUTE);
    var l := Next(env, k, delete);
    var z := Next(env, l, Place(SILENT));
    RunningSteps(env);
    LeadsNowhere(env, z);
    LeadsOn(env, l, Place(SILENT), [], z);
    LeadsOn(env, k, delete, [Place(SILENT)] + [], z);
    LeadsOn(env, j, cancel, [delete] + ([Place(SILENT)] + []), z);
    events := EventsToRunning() + ([cancel] + ([delete] + ([Place(SILENT)] + [])));
    LeadsFarther(env, Empty("c"), EventsToRunning(), j, [cancel] + ([delete] + ([Place(SILENT)] + [])), z);
    WhereItLeads(env, Empty("c"), events, z);
  }

  lemma WhereItLeads(env: Environment, j: Joint, events: seq<JointEvent>, k: Joint)
    requires ValidEnvironment(env) && Leads(env, j, events, k)
    ensures AllPossible(env, j, events) && RunOn(env, j, events) == k
  {
  }

  function CancelledAnswer(): Joint {
    SilentAnswer().(s := RunningSystem().(table := map["a" := Watcher(Cancelled, None, [Run(MINUTE, Cancelling, Some("t"))])]))
  }

  lemma CancellingStep(env: Environment)
    requires ValidEnvironment(env)
    ensures var cancel := Happens(Event(Request("a", DoCancel), MINUTE), []);
      Possible(SilentAnswer(), cancel) && Next(env, SilentAnswer(), cancel) == CancelledAnswer()
    ensures Surplus(SilentAnswer().t) == 0 && Surplus(CancelledAnswer().t) == 0
  {
    var a := Watcher(Active, None, [Run(MINUTE, Running, Some("t"))]);
    assert Step(env, a, DoCancel, MINUTE) == Watcher(Cancelled, None, [Run(MINUTE, Cancelling, Some("t"))]);
    assert Counted(Answered()) == {"q", "x"};
    hide Step;
  }

  lemma NothingToCleanUp(env: Environment)
    ensures Possible(CancelledAnswer(), Happens(Event(DeleteConversation("c"), MINUTE), []))
    ensures StatusOf(CancelledAnswer().s, SILENT).Some? && IsTerminal(CancelledAnswer().s.table["a"])
    ensures var j := CancelledAnswer();
      j.c == "c" && "c" in j.s.live && SILENT in j.jobs && j.jobs[SILENT] == Job("q", Committed(false, Some("x")), false)
  {
  }

  /** The answer of a silent run whose conversation is deleted and restored before the run ends is subtracted twice. */
  lemma DeletedThenRestored(env: Environment) returns (events: seq<JointEvent>)
    requires ValidEnvironment(env)
    ensures AllPossible(env, Empty("c"), events) && Surplus(RunOn(env, Empty("c"), events).t) == -1
  {
    hide Next, Possible, Leads, Surplus, JointInv, SilentAnswer, EventsToRunning, Empty, StatusOf, IsTerminal, AllPossible, RunOn;
    var delete := Happens(Event(DeleteConversation("c"), MINUTE), ["x"]);
    var restore := Happens(Event(OpenConversation("c"), MINUTE), []);
    var j := SilentAnswer();
    SilentInv(env);
    CancellingStep(env);
    OneToCleanUp();
    RestoredIsMiscounted(env, j, SILENT, ["x"], MINUTE);
    var k := Next(env, j, delete);
    var l := Next(env, k, restore);
    var z := Next(env, l, Place(SILENT));
    RunningSteps(env);
    LeadsNowhere(env, z);
    LeadsOn(env, l, Place(SILENT), [], z);
    LeadsOn(env, k, restore, [Place(SILENT)] + [], z);
    LeadsOn(env, j, delete, [restore] + ([Place(SILENT)] + []), z);
    events := EventsToRunning() + ([delete] + ([restore] + ([Place(SILENT)] + [])));
    LeadsFarther(env, Empty("c"), EventsToRunning(), j, [delete] + ([restore] + ([Place(SILENT)] + [])), z);
    WhereItLeads(env, Empty("c"), events, z);
  }

  lemma OneToCleanUp()
    ensures Possible(SilentAnswer(), Happens(Event(DeleteConversation("c"), MINUTE), ["x"]))
    ensures StatusOf(SilentAnswer().s, SILENT).Some? && !IsTerminal(SilentAnswer().s.table["a"])
    ensures var j := SilentAnswer();
      j.c == "c" && "c" in j.s.live && SILENT in j.jobs && j.jobs[SILENT] == Job("q", Committed(false, Some("x")), false)
  {
    var j := SilentAnswer();
    assert IsCleanedUp(j, SILENT) && SILENT in j.answers && j.answers[SILENT] == "x";
  }

  // ---------------------------------------------------------------- a parent that was hidden

  /** An answer can be prepared below one that is still to be settled only while that one's run is CANCELLING: its automation was stopped. */
  lemma OnlyStoppedRunsAreBuiltOn(j: Joint, run: RunRef, chatBusy: bool, below: RunRef)
    requires JointInv(j) && below in j.jobs && below != run && j.t.leaf == Some(j.answers[below])
    requires PrepareAnswer(j.t, StatusOf(j.s, run) == Some(Running), chatBusy, OtherRunning(j, Some(run))).Ready?
    ensures StatusOf(j.s, below) == Some(Cancelling) && j.s.table[below.automationId].status != Active
  {
    ExecutedIsUnderWay(j, below);
    JobIsThere(j, below);
    assert StatusOf(j.s, below) != Some(Running);
    hide Surplus, AnswersDiffer;
    assert Healthy(j.s.table[below.automationId], j.s.clock);
    CancellingIsStopped(j.s.table[below.automationId], j.s.clock, below.i);
  }

  lemma CancellingIsStopped(a: Automation, clock: int, i: nat)
    requires Healthy(a, clock) && i < |a.runs| && a.runs[i].status == Cancelling
    ensures a.status != Active
  {
    assert IsOpen(a.runs[i]);
  }

  /** The answer x of a stopped run is committed but not yet hidden, and y's run, of another silent automation, is about to prepare. */
  ghost predicate AboutToBuildOn(j: Joint, x: RunRef, y: RunRef) {
    && x != y && x in j.jobs && j.jobs[x].phase == Committed(false, j.t.leaf) && x in j.answers && j.t.leaf == Some(j.answers[x])
    && j.answers[x] in j.t.messages && j.jobs[x].parent in j.t.messages && j.jobs[x].parent != j.answers[x]
    && HasJob(j, x) && BelongsTo(j.s, y, j.c) && y in j.s.executing && y !in j.jobs && y !in j.answers
    && StatusOf(j.s, y) == Some(Running) && !OtherRunning(j, Some(y)) && !HasUnfinished(j.t) && !j.t.recycled
    && j.s.table[y.automationId].delivery == OnCompletion && j.s.table[y.automationId].status == Active
    && (forall m <- j.t.messages :: !j.t.messages[m].deleted)
  }

  predicate AreNew(j: Joint, u: MessageId, a: MessageId, r: MessageId) {
    u !in j.t.messages && a !in j.t.messages && r !in j.t.messages && u != a && u != r && a != r
  }

  function BuildingEvents(x: RunRef, y: RunRef, u: MessageId, a: MessageId, r: MessageId): seq<JointEvent> {
    [DoPrepareAnswer(y, false, u, a)] + ([Judge(y, true)] + ([SeeLeaf(y)] + ([SeeMessage(y)] + ([Commit(y)]
    + ([Place(x)] + ([Chat(r)] + ([Place(y)] + [])))))))
  }

  /** What of a state matters for the rest of such a run. */
  ghost predicate BuiltOn(j: Joint, k: Joint, x: RunRef, y: RunRef, a: MessageId, phase: Phase, leaf: MessageId) {
    && x in j.answers && x in j.jobs
    && k.s == j.s && k.c == j.c && k.t.recycled == false && k.t.leaf == Some(leaf) && HasJob(k, y) && HasJob(k, x)
    && k.answers == j.answers[y := a] && k.jobs[y] == Job(j.answers[x], phase, false) && k.jobs[x].parent == j.jobs[x].parent
    && j.answers[x] in k.t.messages && j.jobs[x].parent in k.t.messages && (forall m <- k.t.messages :: !k.t.messages[m].deleted)
  }

  lemma BuildingPrepare(env: Environment, j: Joint, x: RunRef, y: RunRef, u: MessageId, a: MessageId, r: MessageId)
    requires ValidEnvironment(env) && AboutToBuildOn(j, x, y) && AreNew(j, u, a, r)
    ensures var e := DoPrepareAnswer(y, false, u, a);
      var k := Next(env, j, e);
      && Possible(j, e) && BuiltOn(j, k, x, y, a, Phase.Working, a) && k.jobs[x] == j.jobs[x] && r !in k.t.messages
      && k.t.messages[a].unfinished && !k.t.messages[a].internal && k.t.messages[a].parent == Some(j.answers[x])
  {
    hide OtherRunning;
  }

  lemma BuildingSee(env: Environment, j: Joint, k: Joint, x: RunRef, y: RunRef, a: MessageId)
    requires ValidEnvironment(env) && AboutToBuildOn(j, x, y) && BuiltOn(j, k, x, y, a, Phase.Working, a) && k.jobs[x] == j.jobs[x]
    ensures var k1 := Next(env, k, Judge(y, true));
      var k2 := Next(env, k1, SeeLeaf(y));
      var k3 := Next(env, k2, SeeMessage(y));
      k3.t == k.t && BuiltOn(j, k3, x, y, a, SawMessage(false, Some(a), k.t.messages[a]), a) && k3.jobs[x] == j.jobs[x]
  {
    hide OtherRunning;
    var k1 := Next(env, k, Judge(y, true));
    assert k1 == k.(jobs := WithPhase(k, y, Judged(false)));
    var k2 := Next(env, k1, SeeLeaf(y));
    assert k2 == k.(jobs := WithPhase(k, y, SawLeaf(false, Some(a))));
    var k3 := Next(env, k2, SeeMessage(y));
    assert k3 == k.(jobs := WithPhase(k, y, SawMessage(false, Some(a), k.t.messages[a])));
  }

  lemma BuildingCommit(env: Environment, j: Joint, k: Joint, x: RunRef, y: RunRef, a: MessageId, r: MessageId, seen: Message)
    requires ValidEnvironment(env) && x != y && BuiltOn(j, k, x, y, a, SawMessage(false, Some(a), seen), a) && k.jobs[x] == j.jobs[x]
    requires r !in k.t.messages && seen.unfinished && !seen.internal
    ensures var l := Next(env, k, Commit(y));
      BuiltOn(j, l, x, y, a, Committed(false, Some(a)), a) && l.jobs[x] == j.jobs[x] && r !in l.t.messages
  {
    hide OtherRunning;
  }

  lemma BuildingHide(env: Environment, j: Joint, k: Joint, x: RunRef, y: RunRef, a: MessageId, r: MessageId)
    requires ValidEnvironment(env) && AboutToBuildOn(j, x, y) && BuiltOn(j, k, x, y, a, Committed(false, Some(a)), a)
    requires k.jobs[x] == j.jobs[x] && a != j.answers[x] && r !in k.t.messages
    ensures var l := Next(env, k, Place(x));
      && BuiltOn(j, l, x, y, a, Committed(false, Some(a)), a) && r !in l.t.messages && l.t.messages[j.answers[x]].internal
  {
    hide OtherRunning, BelongsTo;
  }

  lemma BuildingReply(env: Environment, j: Joint, k: Joint, x: RunRef, y: RunRef, a: MessageId, r: MessageId)
    requires ValidEnvironment(env) && AboutToBuildOn(j, x, y) && BuiltOn(j, k, x, y, a, Committed(false, Some(a)), a)
    requires a != j.answers[x] && r !in k.t.messages && k.t.messages[j.answers[x]].internal
    ensures Possible(k, Chat(r))
    ensures var l := Next(env, k, Chat(r));
      var z := Next(env, l, Place(y));
      && z.t.leaf == Some(r) && r in z.t.messages && z.t.messages[r].parent == Some(j.answers[x])
      && j.answers[x] in z.t.messages && z.t.messages[j.answers[x]].internal && !z.t.messages[j.answers[x]].deleted && !z.t.messages[r].deleted
  {
    hide OtherRunning, BelongsTo;
    var l := Next(env, k, Chat(r));
    assert l.t.messages[r].parent == Some(a) && l.t.leaf == Some(r) && HasJob(l, y);
  }

  /** A message's branch goes through its parent. */
  lemma BranchGoesThroughParent(t: Tree, r: MessageId, p: MessageId)
    requires t.leaf == Some(r) && IsLive(t, r) && IsLive(t, p) && r != p && t.messages[r].parent == Some(p)
    ensures HasBranch(t) && p in CurrentBranch(t)
  {
    hide Climb;
    var parents, b := ParentsIn(t), CurrentBranch(t);
    SelectionIsBranch(parents, r);
    assert |b| > 1 && parents[b[|b| - 1]] == Some(b[|b| - 2]);
  }

  /**
   How a remembered parent gets stale. While the answer of a stopped silent run waits to be hidden, another silent run prepares its own
   below it, the first is hidden, a reply arrives, and the second is hidden below the parent it remembers: the reply then hangs below
   the answer that was hidden first, which is back on the branch.
   */
  lemma StaleParentRevivesHiddenAnswer(env: Environment, j: Joint, x: RunRef, y: RunRef, u: MessageId, a: MessageId, r: MessageId)
    requires ValidEnvironment(env) && AboutToBuildOn(j, x, y) && AreNew(j, u, a, r)
    ensures AllPossible(env, j, BuildingEvents(x, y, u, a, r))
    ensures var z := RunOn(env, j, BuildingEvents(x, y, u, a, r));
      && HasBranch(z.t) && z.t.leaf == Some(r)
      && j.answers[x] in CurrentBranch(z.t) && j.answers[x] in z.t.messages && z.t.messages[j.answers[x]].internal
  {
    var xa := j.answers[x];
    assert a != xa && r != xa && xa in j.t.messages;
    hide Next, Possible, Leads, BuiltOn, AboutToBuildOn, AllPossible, RunOn, CurrentBranch, HasBranch;
    PossibleOwnSteps(x, true);
    PossibleOwnSteps(y, true);
    BuildingPrepare(env, j, x, y, u, a, r);
    var k := Next(env, j, DoPrepareAnswer(y, false, u, a));
    BuildingSee(env, j, k, x, y, a);
    var k1 := Next(env, k, Judge(y, true));
    var k2 := Next(env, k1, SeeLeaf(y));
    var k3 := Next(env, k2, SeeMessage(y));
    BuildingCommit(env, j, k3, x, y, a, r, k.t.messages[a]);
    var k4 := Next(env, k3, Commit(y));
    BuildingHide(env, j, k4, x, y, a, r);
    var k5 := Next(env, k4, Place(x));
    BuildingReply(env, j, k5, x, y, a, r);
    var k6 := Next(env, k5, Chat(r));
    var z := Next(env, k6, Place(y));
    BranchGoesThroughParent(z.t, r, xa);
    LeadsNowhere(env, z);
    LeadsOn(env, k6, Place(y), [], z);
    var rest := [Place(y)] + [];
    LeadsOn(env, k5, Chat(r), rest, z);
    rest := [Chat(r)] + rest;
    LeadsOn(env, k4, Place(x), rest, z);
    rest := [Place(x)] + rest;
    LeadsOn(env, k3, Commit(y), rest, z);
    rest := [Commit(y)] + rest;
    LeadsOn(env, k2, SeeMessage(y), rest, z);
    rest := [SeeMessage(y)] + rest;
    LeadsOn(env, k1, SeeLeaf(y), rest, z);
    rest := [SeeLeaf(y)] + rest;
    LeadsOn(env, k, Judge(y, true), rest, z);
    rest := [Judge(y, true)] + rest;
    LeadsOn(env, j, DoPrepareAnswer(y, false, u, a), rest, z);
    WhereItLeads(env, j, BuildingEvents(x, y, u, a, r), z);
  }

  // ---------------------------------------------------------------- the stale parent is reached

  const SECOND := RunRef("b", 0)

  /** A second watcher beside the first, which was paused while it reported. */
  function Beside(b: Automation, due: map<AutomationId, int>, executing: set<RunRef>, clock: int): Joint {
    SilentAnswer().(s := System(map["a" := Watcher(Paused, None, [Run(MINUTE, Cancelling, Some("t"))]), "b" := b],
                                {"c"}, {}, due, executing, clock))
  }

  function PausedAnswer(): Joint {
    SilentAnswer().(s := RunningSystem().(table := map["a" := Watcher(Paused, None, [Run(MINUTE, Cancelling, Some("t"))])]))
  }

  /** Two watchers of one conversation: the first paused while it reported, the second just started. */
  function TwoWatchers(): Joint {
    Beside(Watcher(Active, None, [Run(2 * MINUTE, Running, Some("s"))]), map[], {SILENT, SECOND}, 2 * MINUTE)
  }

  lemma PausingStep(env: Environment)
    requires ValidEnvironment(env)
    ensures var e := Happens(Event(Request("a", DoPause), MINUTE), []);
      Possible(SilentAnswer(), e) && Next(env, SilentAnswer(), e) == PausedAnswer()
  {
    var a := Watcher(Active, None, [Run(MINUTE, Running, Some("t"))]);
    assert Step(env, a, DoPause, MINUTE) == Watcher(Paused, None, [Run(MINUTE, Cancelling, Some("t"))]);
    hide Step;
  }

  lemma CreatingSecond(env: Environment)
    requires ValidEnvironment(env)
    ensures var e := Happens(Event(CreateAutomation("b", "c", WatcherInput()), MINUTE), []);
      && Possible(PausedAnswer(), e)
      && Next(env, PausedAnswer(), e) == Beside(Watcher(Active, Some(2 * MINUTE), []), map[], {SILENT}, MINUTE)
  {
    WatcherIsCreated(env, MINUTE);
    hide Create;
  }

  lemma FindingSecond(env: Environment)
    requires ValidEnvironment(env)
    ensures var j, e := Beside(Watcher(Active, Some(2 * MINUTE), []), map[], {SILENT}, MINUTE), Happens(Event(FindDue({"b"}), 2 * MINUTE), []);
      && Possible(j, e)
      && Next(env, j, e) == Beside(Watcher(Active, Some(2 * MINUTE), []), map["b" := 2 * MINUTE], {SILENT}, 2 * MINUTE)
  {
    var j := Beside(Watcher(Active, Some(2 * MINUTE), []), map[], {SILENT}, MINUTE);
    assert Apply(env, j.s, Event(FindDue({"b"}), 2 * MINUTE)).due == map["b" := 2 * MINUTE];
  }

  lemma ClaimingSecond(env: Environment)
    requires ValidEnvironment(env)
    ensures var j := Beside(Watcher(Active, Some(2 * MINUTE), []), map["b" := 2 * MINUTE], {SILENT}, 2 * MINUTE);
      var e := Happens(Event(ClaimNext("b"), 2 * MINUTE), []);
      && Possible(j, e)
      && Next(env, j, e) == Beside(Watcher(Active, None, [Run(2 * MINUTE, Pending, None)]), map[], {SILENT}, 2 * MINUTE)
  {
    var b := Watcher(Active, Some(2 * MINUTE), []);
    assert Step(env, b, DoClaim(2 * MINUTE), 2 * MINUTE) == Watcher(Active, None, [Run(2 * MINUTE, Pending, None)]);
    hide Step;
    var j := Beside(b, map["b" := 2 * MINUTE], {SILENT}, 2 * MINUTE);
    assert Apply(env, j.s, Event(ClaimNext("b"), 2 * MINUTE)).due == map[];
  }

  lemma StartingSecond(env: Environment)
    requires ValidEnvironment(env)
    ensures var j := Beside(Watcher(Active, None, [Run(2 * MINUTE, Pending, None)]), map[], {SILENT}, 2 * MINUTE);
      var e := Happens(Event(StartRun(SECOND, "s"), 2 * MINUTE), []);
      Possible(j, e) && Next(env, j, e) == TwoWatchers()
  {
    var b := Watcher(Active, None, [Run(2 * MINUTE, Pending, None)]);
    assert Step(env, b, DoPrepare(0, "s"), 2 * MINUTE) == Watcher(Active, None, [Run(2 * MINUTE, Running, Some("s"))]);
    hide Step;
  }

  function EventsToSecond(): seq<JointEvent> {
    [Happens(Event(Request("a", DoPause), MINUTE), [])] + ([Happens(Event(CreateAutomation("b", "c", WatcherInput()), MINUTE), [])]
    + ([Happens(Event(FindDue({"b"}), 2 * MINUTE), [])] + ([Happens(Event(ClaimNext("b"), 2 * MINUTE), [])]
    + ([Happens(Event(StartRun(SECOND, "s"), 2 * MINUTE), [])] + []))))
  }

  lemma SecondSteps(env: Environment)
    requires ValidEnvironment(env)
    ensures Leads(env, SilentAnswer(), EventsToSecond(), TwoWatchers())
  {
    hide Next, Possible, Leads, Beside, PausedAnswer, SilentAnswer, TwoWatchers;
    PausingStep(env);
    CreatingSecond(env);
    FindingSecond(env);
    ClaimingSecond(env);
    StartingSecond(env);
    var waiting, claimed := Watcher(Active, Some(2 * MINUTE), []), Watcher(Active, None, [Run(2 * MINUTE, Pending, None)]);
    LeadsNowhere(env, TwoWatchers());
    LeadsOn(env, Beside(claimed, map[], {SILENT}, 2 * MINUTE), Happens(Event(StartRun(SECOND, "s"), 2 * MINUTE), []), [], TwoWatchers());
    var rest := [Happens(Event(StartRun(SECOND, "s"), 2 * MINUTE), [])] + [];
    LeadsOn(env, Beside(waiting, map["b" := 2 * MINUTE], {SILENT}, 2 * MINUTE),
            Happens(Event(ClaimNext("b"), 2 * MINUTE), []), rest, TwoWatchers());
    rest := [Happens(Event(ClaimNext("b"), 2 * MINUTE), [])] + rest;
    LeadsOn(env, Beside(waiting, map[], {SILENT}, MINUTE), Happens(Event(FindDue({"b"}), 2 * MINUTE), []), rest, TwoWatchers());
    rest := [Happens(Event(FindDue({"b"}), 2 * MINUTE), [])] + rest;
    LeadsOn(env, PausedAnswer(), Happens(Event(CreateAutomation("b", "c", WatcherInput()), MINUTE), []), rest, TwoWatchers());
    rest := [Happens(Event(CreateAutomation("b", "c", WatcherInput()), MINUTE), [])] + rest;
    LeadsOn(env, SilentAnswer(), Happens(Event(Request("a", DoPause), MINUTE), []), rest, TwoWatchers());
  }

  lemma TwoWatchersMayBuild()
    ensures AboutToBuildOn(TwoWatchers(), SILENT, SECOND) && AreNew(TwoWatchers(), "v", "y", "r")
  {
    assert !HasUnfinished(Answered());
  }

  /**
   A run from the empty database: the first of two silent automations is paused between the commit and the hiding of its answer, and
   in the end that answer, hidden and no longer counted, is on the current branch.
   */
  lemma HiddenAnswerComesBack(env: Environment) returns (events: seq<JointEvent>)
    requires ValidEnvironment(env)
    ensures AllPossible(env, Empty("c"), events)
    ensures var z := RunOn(env, Empty("c"), events);
      HasBranch(z.t) && "x" in CurrentBranch(z.t) && "x" in z.t.messages && z.t.messages["x"].internal
  {
    hide Next, Possible, Leads, SilentAnswer, TwoWatchers, EventsToRunning, EventsToSecond, BuildingEvents, Empty, AboutToBuildOn, AreNew;
    hide AllPossible, RunOn, HasBranch, CurrentBranch;
    RunningSteps(env);
    SecondSteps(env);
    TwoWatchersMayBuild();
    FirstAnswerIsX();
    StaleParentRevivesHiddenAnswer(env, TwoWatchers(), SILENT, SECOND, "v", "y", "r");
    var building := BuildingEvents(SILENT, SECOND, "v", "y", "r");
    var z := RunOn(env, TwoWatchers(), building);
    LeadsWhereItRuns(env, TwoWatchers(), building);
    LeadsFarther(env, SilentAnswer(), EventsToSecond(), TwoWatchers(), building, z);
    LeadsFarther(env, Empty("c"), EventsToRunning(), SilentAnswer(), EventsToSecond() + building, z);
    events := EventsToRunning() + (EventsToSecond() + building);
    WhereItLeads(env, Empty("c"), events, z);
  }

  lemma FirstAnswerIsX()
    ensures SILENT in TwoWatchers().answers && TwoWatchers().answers[SILENT] == "x"
  {
  }

  lemma LeadsWhereItRuns(env: Environment, j: Joint, events: seq<JointEvent>)
    requires ValidEnvironment(env) && AllPossible(env, j, events)
    ensures Leads(env, j, events, RunOn(env, j, events))
  {
  }
}
