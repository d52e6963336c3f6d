/**
 The slots of one registered tool: a counter of running calls and a queue of calls waiting for capacity.
 Every synchronous section between two awaits is one step.
 */
module ToolSemaphore {
  import opened Wrappers

  /** A waiting call; the ticket numbers calls in the order in which they asked. */
  datatype Waiter = Waiter(ticket: nat, maximum: int)

  datatype Slots = Slots(active: int, queue: seq<Waiter>)

  datatype Limits = Limits(concurrency: int, queueLimit: int)

  datatype Admission = Granted | Enqueued | QueueFull | Aborted

  predicate ValidLimits(l: Limits) {
    l.concurrency >= 1 && l.queueLimit >= 1
  }

  /** register: at least one call at a time, eight when nothing is said. */
  function RegisteredConcurrency(wanted: Option<int>): (c: int)
    ensures c >= 1
    ensures wanted.None? ==> c == 8
    ensures wanted.Some? && wanted.value >= 1 ==> c == wanted.value
  {
    Max(1, if wanted.Some? then wanted.value else 8)
  }

  function ResolveMaxConcurrent(concurrency: int, wanted: Option<int>): (m: int)
    requires concurrency >= 1
    ensures 1 <= m <= concurrency
    ensures wanted.None? ==> m == concurrency
    ensures wanted.Some? && 1 <= wanted.value <= concurrency ==> m == wanted.value
  {
    Min(Max(1, if wanted.Some? then wanted.value else concurrency), concurrency)
  }

  function Admit(l: Limits, s: Slots, maximum: int, aborted: bool): Admission {
    if aborted then Aborted
    else if s.active < maximum then Granted
    else if |s.queue| >= l.queueLimit then QueueFull
    else Enqueued
  }

  function AfterAcquire(l: Limits, s: Slots, ticket: nat, maximum: int, aborted: bool): Slots {
    match Admit(l, s, maximum, aborted)
    case Granted => s.(active := s.active + 1)
    case Enqueued => s.(queue := s.queue + [Waiter(ticket, maximum)])
    case _ => s
  }

  /** A slot is given back, then handed to the head of the queue if there is one. */
  function AfterRelease(s: Slots): Slots {
    var freed := Max(0, s.active - 1);
    if s.queue == [] then Slots(freed, []) else Slots(freed + 1, s.queue[1..])
  }

  /** indexOf, as the position of a ticket, or the length of the queue. */
  function PositionOf(queue: seq<Waiter>, ticket: nat): (i: nat)
    ensures i <= |queue|
    ensures i < |queue| ==> queue[i].ticket == ticket
    ensures i == |queue| ==> forall w <- queue :: w.ticket != ticket
  {
    if queue == [] || queue[0].ticket == ticket then 0 else 1 + PositionOf(queue[1..], ticket)
  }

  /** A waiter gives up, because it was aborted or waited too long. */
  function AfterLeave(s: Slots, ticket: nat): Slots {
    var i := PositionOf(s.queue, ticket);
    if i < |s.queue| then s.(queue := s.queue[..i] + s.queue[i + 1..]) else s
  }

  class RegisteredTool {
    const limits: Limits
    var active: int
    var queue: seq<Waiter>

    constructor (concurrency: Option<int>, queueLimit: int)
      requires queueLimit >= 1
      ensures ValidLimits(limits) && limits == Limits(RegisteredConcurrency(concurrency), queueLimit)
      ensures View() == Slots(0, [])
    {
      limits := Limits(RegisteredConcurrency(concurrency), queueLimit);
      active, queue := 0, [];
    }

    ghost function View(): Slots
      reads this
    {
      Slots(active, queue)
    }

    method Acquire(ticket: nat, maximum: int, aborted: bool) returns (r: Admission)
      modifies this
      ensures r == Admit(limits, old(View()), maximum, aborted)
      ensures View() == AfterAcquire(limits, old(View()), ticket, maximum, aborted)
    {
      if aborted {
        return Aborted;
      }
      if active < maximum {
        active := active + 1;
        return Granted;
      }
      if |queue| >= limits.queueLimit {
        return QueueFull;
      }
      queue := queue + [Waiter(ticket, maximum)];
      return Enqueued;
    }

    method Release() returns (woken: Option<Waiter>)
      modifies this
      ensures View() == AfterRelease(old(View()))
      ensures woken == if old(queue) == [] then None else Some(old(queue)[0])
    {
      active := Max(0, active - 1);
      woken := None;
      if |queue| > 0 {
        woken := Some(queue[0]);
        queue := queue[1..];
        active := active + 1;
      }
    }

    method Leave(ticket: nat)
      modifies this`queue
      ensures View() == AfterLeave(old(View()), ticket)
    {
      var index := PositionOf(queue, ticket);
      if index < |queue| {
        queue := queue[..index] + queue[index + 1..];
      }
    }

    method Shutdown() returns (rejected: seq<Waiter>)
      modifies this`queue
      ensures rejected == old(queue) && View() == old(View()).(queue := [])
    {
      rejected := queue;
      queue := [];
    }
  }

  // ---------------------------------------------------------------- all calls of a tool

  /** What became of a call that asked: a call that was admitted or woken holds a slot until it gives it back. */
  datatype Fate = AdmittedAtOnce | TurnedAway | Waiting | Woken | GaveUp | ShutOut

  /**
   The slots together with their history: who holds a slot, how many slots were granted and given back, the tickets of the waiters
   woken so far, in order, who is done, and what became of every ticket.
   */
  datatype World = World(slots: Slots, holders: set<nat>, nextTicket: nat, granted: nat, released: nat, woken: seq<nat>,
                         finished: set<nat>, fates: map<nat, Fate>)

  datatype CallEvent =
    | Arrive(wanted: Option<int>, aborted: bool)
    | Finish(ticket: nat)
    | GiveUp(ticket: nat)
    | ShutDown

  function Opened(): World {
    World(Slots(0, []), {}, 0, 0, 0, [], {}, map[])
  }

  function CallStep(l: Limits, w: World, e: CallEvent): World
    requires ValidLimits(l)
  {
    match e
    case Arrive(wanted, aborted) =>
      var maximum := ResolveMaxConcurrent(l.concurrency, wanted);
      var answer := Admit(l, w.slots, maximum, aborted);
      w.(slots := AfterAcquire(l, w.slots, w.nextTicket, maximum, aborted),
         holders := if answer.Granted? then w.holders + {w.nextTicket} else w.holders,
         nextTicket := w.nextTicket + 1,
         granted := if answer.Granted? then w.granted + 1 else w.granted,
         fates := w.fates[w.nextTicket := FateOf(answer)])
    case Finish(ticket) =>
      var rest := w.holders - {ticket};
      if w.slots.queue == [] then
        w.(slots := AfterRelease(w.slots), holders := rest, released := w.released + 1, finished := w.finished + {ticket})
      else
        var head := w.slots.queue[0].ticket;
        World(AfterRelease(w.slots), rest + {head}, w.nextTicket, w.granted + 1, w.released + 1, w.woken + [head],
              w.finished + {ticket}, w.fates[head := Woken])
    case GiveUp(ticket) =>
      w.(slots := AfterLeave(w.slots, ticket),
         fates := if ticket in w.fates && w.fates[ticket] == Waiting then w.fates[ticket := GaveUp] else w.fates)
    case ShutDown =>
      w.(slots := w.slots.(queue := []), fates := map t | t in w.fates :: if w.fates[t] == Waiting then ShutOut else w.fates[t])
  }

  function FateOf(answer: Admission): Fate {
    match answer
    case Granted => AdmittedAtOnce
    case Enqueued => Waiting
    case _ => TurnedAway
  }

  /** Only a call that holds a slot gives one back. */
  predicate CallEnabled(w: World, e: CallEvent) {
    e.Finish? ==> e.ticket in w.holders
  }

  predicate Increasing(s: seq<nat>) {
    forall i, j :: 0 <= i < j < |s| ==> s[i] < s[j]
  }

  function Tickets(queue: seq<Waiter>): (r: seq<nat>)
    ensures |r| == |queue| && forall i :: 0 <= i < |queue| ==> r[i] == queue[i].ticket
  {
    seq(|queue|, i requires 0 <= i < |queue| => queue[i].ticket)
  }

  ghost predicate SlotsFit(l: Limits, w: World) {
    && w.slots.active == |w.holders| == w.granted - w.released
    && 0 <= w.slots.active <= l.concurrency
    && |w.slots.queue| <= l.queueLimit
    && (forall q <- w.slots.queue :: 1 <= q.maximum <= w.slots.active)
    && Increasing(w.woken + Tickets(w.slots.queue))
    && (forall q <- w.slots.queue :: q.ticket < w.nextTicket && q.ticket !in w.holders)
    && (forall t <- w.woken :: t < w.nextTicket)
    && (forall t <- w.holders :: t < w.nextTicket)
  }

  predicate IsQueued(queue: seq<Waiter>, ticket: nat) {
    exists q <- queue :: q.ticket == ticket
  }

  /** Who waits is queued, who was woken is in the list, and who was let in holds a slot or is done. */
  ghost predicate FatesMatch(w: World) {
    && (forall t: nat :: t in w.fates <==> t < w.nextTicket)
    && (forall t <- w.fates :: w.fates[t] == Waiting <==> IsQueued(w.slots.queue, t))
    && (forall t <- w.fates :: w.fates[t] == Woken <==> t in w.woken)
    && (forall t <- w.fates :: w.fates[t] == AdmittedAtOnce || w.fates[t] == Woken <==> t in w.holders || t in w.finished)
    && w.holders !! w.finished
    && (forall t <- w.finished :: t < w.nextTicket)
  }

  ghost predicate Inv(l: Limits, w: World) {
    SlotsFit(l, w) && FatesMatch(w)
  }

  lemma ArriveKeepsSlots(l: Limits, w: World, wanted: Option<int>, aborted: bool)
    requires ValidLimits(l) && SlotsFit(l, w)
    ensures SlotsFit(l, CallStep(l, w, Arrive(wanted, aborted)))
  {
    hide ResolveMaxConcurrent;
    var v := CallStep(l, w, Arrive(wanted, aborted));
    if v.slots.queue != w.slots.queue {
      var before, after := w.woken + Tickets(w.slots.queue), v.woken + Tickets(v.slots.queue);
      assert after == before + [w.nextTicket];
      forall i | 0 <= i < |before| ensures before[i] < w.nextTicket {
        assert i < |w.woken| ==> before[i] in w.woken;
      }
    }
  }

  lemma FinishKeepsSlots(l: Limits, w: World, ticket: nat)
    requires ValidLimits(l) && SlotsFit(l, w) && ticket in w.holders
    ensures SlotsFit(l, CallStep(l, w, Finish(ticket)))
    ensures w.slots.active >= 1
  {
    assert |w.holders| >= 1 by {
      assert w.holders == (w.holders - {ticket}) + {ticket};
    }
    if w.slots.queue == [] {
      hide Increasing;
    } else {
      WakingKeepsSlots(l, w, ticket);
    }
  }

  lemma WakingKeepsSlots(l: Limits, w: World, ticket: nat)
    requires ValidLimits(l) && SlotsFit(l, w) && ticket in w.holders && w.slots.queue != [] && w.slots.active >= 1
    ensures SlotsFit(l, CallStep(l, w, Finish(ticket)))
  {
    var v, head := CallStep(l, w, Finish(ticket)), w.slots.queue[0].ticket;
    assert v.woken + Tickets(v.slots.queue) == w.woken + Tickets(w.slots.queue);
    forall q | q in v.slots.queue ensures q in w.slots.queue && q.ticket != head {
      var i :| 0 <= i < |v.slots.queue| && v.slots.queue[i] == q;
      TicketsDiffer(l, w, 0, i + 1);
    }
    assert w.slots.queue[0] in w.slots.queue && head !in w.holders;
    assert v.holders == (w.holders - {ticket}) + {head};
    hide Increasing, Tickets;
  }

  lemma RemovalKeepsOrder(s: seq<nat>, i: nat)
    requires Increasing(s) && i < |s|
    ensures Increasing(s[..i] + s[i + 1..])
  {
  }

  lemma LeavingKeepsOrder(woken: seq<nat>, queue: seq<Waiter>, k: nat)
    requires Increasing(woken + Tickets(queue)) && k < |queue|
    ensures Increasing(woken + Tickets(queue[..k] + queue[k + 1..]))
  {
    hide Increasing;
    var before, rest := woken + Tickets(queue), queue[..k] + queue[k + 1..];
    assert woken + Tickets(rest) == before[..|woken| + k] + before[|woken| + k + 1..];
    RemovalKeepsOrder(before, |woken| + k);
  }

  lemma GiveUpKeepsSlots(l: Limits, w: World, ticket: nat)
    requires ValidLimits(l) && SlotsFit(l, w)
    ensures SlotsFit(l, CallStep(l, w, GiveUp(ticket)))
  {
    hide Increasing;
    var v := CallStep(l, w, GiveUp(ticket));
    var k := PositionOf(w.slots.queue, ticket);
    if k < |w.slots.queue| {
      LeavingKeepsOrder(w.woken, w.slots.queue, k);
      assert forall q <- v.slots.queue :: q in w.slots.queue;
    }
  }

  lemma ArriveKeepsFates(l: Limits, w: World, wanted: Option<int>, aborted: bool)
    requires ValidLimits(l) && Inv(l, w)
    ensures FatesMatch(CallStep(l, w, Arrive(wanted, aborted)))
  {
    assert w.nextTicket !in w.woken && w.nextTicket !in w.holders;
    forall q | q in w.slots.queue ensures q.ticket != w.nextTicket {
    }
    hide SlotsFit, FatesMatch, CallStep;
    ArrivedFates(l, w, wanted, aborted);
  }

  lemma ArrivedFates(l: Limits, w: World, wanted: Option<int>, aborted: bool)
    requires ValidLimits(l) && FatesMatch(w) && w.nextTicket !in w.woken && w.nextTicket !in w.holders
    requires forall q <- w.slots.queue :: q.ticket != w.nextTicket
    ensures FatesMatch(CallStep(l, w, Arrive(wanted, aborted)))
  {
    hide ResolveMaxConcurrent, AfterAcquire, Admit, IsQueued;
    var v, t0 := CallStep(l, w, Arrive(wanted, aborted)), w.nextTicket;
    assert t0 !in w.fates && t0 !in w.finished;
    assert v.woken == w.woken && v.finished == w.finished && v.holders - {t0} == w.holders;
    assert t0 in v.holders <==> v.fates[t0] == AdmittedAtOnce;
    forall t: nat | t in v.fates ensures v.fates[t] == Waiting <==> IsQueued(v.slots.queue, t) {
      ArrivalQueues(l, w, wanted, aborted, t);
    }
  }

  lemma ArrivalQueues(l: Limits, w: World, wanted: Option<int>, aborted: bool, t: nat)
    requires ValidLimits(l) && FatesMatch(w) && forall q <- w.slots.queue :: q.ticket != w.nextTicket
    ensures var v := CallStep(l, w, Arrive(wanted, aborted));
      t in v.fates ==> (v.fates[t] == Waiting <==> IsQueued(v.slots.queue, t))
  {
    hide ResolveMaxConcurrent;
    QueuedAtEnd(w.slots.queue, Waiter(w.nextTicket, ResolveMaxConcurrent(l.concurrency, wanted)), t);
  }

  lemma QueuedAtEnd(queue: seq<Waiter>, last: Waiter, t: nat)
    ensures IsQueued(queue + [last], t) <==> IsQueued(queue, t) || t == last.ticket
  {
    assert (queue + [last])[|queue|] == last;
    assert forall q <- queue :: q in queue + [last];
  }

  lemma QueuedBehind(queue: seq<Waiter>, t: nat)
    requires queue != []
    ensures IsQueued(queue, t) <==> t == queue[0].ticket || IsQueued(queue[1..], t)
  {
    assert queue == [queue[0]] + queue[1..];
  }

  /** The tickets of a queue are all different. */
  lemma TicketsDiffer(l: Limits, w: World, i: nat, j: nat)
    requires SlotsFit(l, w) && i < j < |w.slots.queue|
    ensures w.slots.queue[i].ticket < w.slots.queue[j].ticket
  {
    var all := w.woken + Tickets(w.slots.queue);
    assert all[|w.woken| + i] < all[|w.woken| + j];
  }

  lemma FinishKeepsFates(l: Limits, w: World, ticket: nat)
    requires ValidLimits(l) && Inv(l, w) && ticket in w.holders
    ensures FatesMatch(CallStep(l, w, Finish(ticket)))
  {
    var v := CallStep(l, w, Finish(ticket));
    if w.slots.queue != [] {
      var head := w.slots.queue[0].ticket;
      assert IsQueued(w.slots.queue, head) && w.fates[head] == Waiting;
      forall k | 0 < k < |w.slots.queue| ensures w.slots.queue[k].ticket != head {
        TicketsDiffer(l, w, 0, k);
      }
      assert !IsQueued(w.slots.queue[1..], head);
      hide Increasing, SlotsFit;
      forall t | t in v.fates ensures v.fates[t] == Waiting <==> IsQueued(v.slots.queue, t) {
        QueuedBehind(w.slots.queue, t);
      }
    }
  }

  /** The waiters but one, in their order. */
  function Others(queue: seq<Waiter>, ticket: nat): seq<Waiter> {
    if queue == [] then []
    else (if queue[0].ticket == ticket then [] else [queue[0]]) + Others(queue[1..], ticket)
  }

  lemma {:induction false} OthersAreQueued(queue: seq<Waiter>, ticket: nat, t: nat)
    ensures IsQueued(Others(queue, ticket), t) <==> IsQueued(queue, t) && t != ticket
  {
    if queue != [] {
      OthersAreQueued(queue[1..], ticket, t);
      QueuedBehind(queue, t);
      var rest := Others(queue[1..], ticket);
      if queue[0].ticket != ticket {
        assert Others(queue, ticket) == [queue[0]] + rest;
        QueuedBehind([queue[0]] + rest, t);
      }
    }
  }

  lemma {:induction false} OthersOfNone(queue: seq<Waiter>, ticket: nat)
    requires forall q <- queue :: q.ticket != ticket
    ensures Others(queue, ticket) == queue
  {
    if queue != [] {
      OthersOfNone(queue[1..], ticket);
    }
  }

  lemma {:induction false} OthersOnce(queue: seq<Waiter>, ticket: nat, k: nat)
    requires k < |queue| && queue[k].ticket == ticket && forall i, j :: 0 <= i < j < |queue| ==> queue[i].ticket != queue[j].ticket
    ensures Others(queue, ticket) == queue[..k] + queue[k + 1..]
  {
    if k == 0 {
      OthersOfNone(queue[1..], ticket);
    } else {
      OthersOnce(queue[1..], ticket, k - 1);
      assert queue[..k] == [queue[0]] + queue[1..][..k - 1] && queue[1..][k..] == queue[k + 1..];
    }
  }

  /** A waiter that gives up leaves the queue, and all others stay in their order; a call that does not wait changes nothing. */
  lemma GivingUpLeavesOthers(l: Limits, w: World, ticket: nat)
    requires ValidLimits(l) && Inv(l, w)
    ensures CallStep(l, w, GiveUp(ticket)).slots == Slots(w.slots.active, Others(w.slots.queue, ticket))
  {
    var queue := w.slots.queue;
    var k := PositionOf(queue, ticket);
    if k < |queue| {
      forall i, j | 0 <= i < j < |queue| ensures queue[i].ticket != queue[j].ticket {
        TicketsDiffer(l, w, i, j);
      }
      OthersOnce(queue, ticket, k);
    } else {
      OthersOfNone(queue, ticket);
    }
  }

  lemma GiveUpKeepsFates(l: Limits, w: World, ticket: nat)
    requires ValidLimits(l) && Inv(l, w)
    ensures FatesMatch(CallStep(l, w, GiveUp(ticket)))
  {
    GivingUpLeavesOthers(l, w, ticket);
    hide SlotsFit, AfterLeave, Others;
    var v := CallStep(l, w, GiveUp(ticket));
    forall t | t in v.fates ensures v.fates[t] == Waiting <==> IsQueued(v.slots.queue, t) {
      OthersAreQueued(w.slots.queue, ticket, t);
    }
  }

  lemma ShutDownKeepsInv(l: Limits, w: World)
    requires ValidLimits(l) && Inv(l, w)
    ensures Inv(l, CallStep(l, w, ShutDown))
  {
    ShutDownKeepsSlots(l, w);
    hide SlotsFit;
  }

  lemma ShutDownKeepsSlots(l: Limits, w: World)
    requires ValidLimits(l) && SlotsFit(l, w)
    ensures SlotsFit(l, CallStep(l, w, ShutDown))
  {
    var all := w.woken + Tickets(w.slots.queue);
    assert forall i :: 0 <= i < |w.woken| ==> w.woken[i] == all[i];
  }

  /** Every step of every call keeps the invariant, and giving a slot back never meets an empty counter: the clamp does not fire. */
  lemma CallStepKeepsInv(l: Limits, w: World, e: CallEvent)
    requires ValidLimits(l) && Inv(l, w) && CallEnabled(w, e)
    ensures Inv(l, CallStep(l, w, e))
    ensures e.Finish? ==> w.slots.active >= 1
  {
    hide SlotsFit, FatesMatch, CallStep;
    match e
    case Arrive(wanted, aborted) =>
      ArriveKeepsSlots(l, w, wanted, aborted);
      ArriveKeepsFates(l, w, wanted, aborted);
    case Finish(ticket) =>
      FinishKeepsSlots(l, w, ticket);
      FinishKeepsFates(l, w, ticket);
    case GiveUp(ticket) =>
      GiveUpKeepsSlots(l, w, ticket);
      GiveUpKeepsFates(l, w, ticket);
    case ShutDown => ShutDownKeepsInv(l, w);
  }

  function CallsAfter(l: Limits, w: World, events: seq<CallEvent>): World
    requires ValidLimits(l)
    decreases |events|
  {
    if events == [] then w else CallsAfter(l, CallStep(l, w, events[0]), events[1..])
  }

  predicate CallsFeasible(l: Limits, w: World, events: seq<CallEvent>)
    requires ValidLimits(l)
    decreases |events|
  {
    events != [] ==> CallEnabled(w, events[0]) && CallsFeasible(l, CallStep(l, w, events[0]), events[1..])
  }

  lemma {:induction false} RunsKeepInv(l: Limits, w: World, events: seq<CallEvent>)
    requires ValidLimits(l) && Inv(l, w) && CallsFeasible(l, w, events)
    ensures Inv(l, CallsAfter(l, w, events))
    decreases |events|
  {
    hide Inv, CallStep, CallEnabled;
    if events != [] {
      CallStepKeepsInv(l, w, events[0]);
      RunsKeepInv(l, CallStep(l, w, events[0]), events[1..]);
    }
  }

  /**
   Work-conserving and fair: in every reachable state the counter is the number of calls holding a slot and is what was
   granted and not given back, within the registered concurrency; the queue is within its limit; no waiter is left behind that
   the counter would admit; and waiters were woken in the order in which they queued, before everyone still queued.
   */
  lemma SlotsAreAccountedFor(l: Limits, events: seq<CallEvent>)
    requires ValidLimits(l) && CallsFeasible(l, Opened(), events)
    ensures var w := CallsAfter(l, Opened(), events);
      && w.slots.active == |w.holders| == w.granted - w.released && 0 <= w.slots.active <= l.concurrency
      && |w.slots.queue| <= l.queueLimit
      && (forall q <- w.slots.queue :: !(w.slots.active < q.maximum))
      && Increasing(w.woken + Tickets(w.slots.queue))
  {
    OpenedFits(l);
    RunsKeepInv(l, Opened(), events);
  }

  /** A call is turned away only if it was aborted or finds no slot and a full queue; else it gets a slot, or waits behind everyone. */
  lemma ArrivalIff(l: Limits, w: World, wanted: Option<int>, aborted: bool)
    requires ValidLimits(l) && Inv(l, w)
    ensures var v, t := CallStep(l, w, Arrive(wanted, aborted)), w.nextTicket;
      var maximum := ResolveMaxConcurrent(l.concurrency, wanted);
      && t !in w.fates && v.nextTicket == t + 1 && t in v.fates
      && (v.fates[t] == TurnedAway <==> aborted || (w.slots.active >= maximum && |w.slots.queue| >= l.queueLimit))
      && (v.fates[t] == AdmittedAtOnce <==> !aborted && w.slots.active < maximum)
      && v.holders == (if v.fates[t] == AdmittedAtOnce then w.holders + {t} else w.holders)
      && v.slots == (
           match v.fates[t]
           case AdmittedAtOnce => Slots(w.slots.active + 1, w.slots.queue)
           case Waiting => Slots(w.slots.active, w.slots.queue + [Waiter(t, maximum)])
           case _ => w.slots)
  {
  }

  /**
   Nobody gets lost. After any run every ticket has one fate: it was admitted at once, turned away, waits, was woken, gave up, or was
   shut out. It waits exactly if it is queued, was woken exactly if it is among the woken, and who was let in holds a slot or is done.
   */
  lemma NobodyGetsLost(l: Limits, events: seq<CallEvent>, t: nat)
    requires ValidLimits(l) && CallsFeasible(l, Opened(), events)
    ensures var w := CallsAfter(l, Opened(), events);
      && (t in w.fates <==> t < w.nextTicket)
      && (t in w.fates ==>
            && (w.fates[t] == Waiting <==> IsQueued(w.slots.queue, t))
            && (w.fates[t] == Woken <==> t in w.woken)
            && (w.fates[t] == AdmittedAtOnce || w.fates[t] == Woken <==> t in w.holders || t in w.finished)
            && !(t in w.holders && t in w.finished))
  {
    hide CallsAfter, CallsFeasible, SlotsFit;
    OpenedFits(l);
    RunsKeepInv(l, Opened(), events);
  }

  lemma OpenedFits(l: Limits)
    requires ValidLimits(l)
    ensures Inv(l, Opened())
  {
  }

  /** Once settled, a fate stays: only who waits can still be woken, give up or be shut out, each by a step of its own. */
  lemma FatesAreFinal(l: Limits, w: World, e: CallEvent, t: nat)
    requires ValidLimits(l) && Inv(l, w) && CallEnabled(w, e) && t in w.fates
    ensures var v := CallStep(l, w, e);
      && t in v.fates
      && (v.fates[t] != w.fates[t] ==>
            && w.fates[t] == Waiting
            && (v.fates[t] == Woken || v.fates[t] == GaveUp || v.fates[t] == ShutOut)
            && (v.fates[t] == Woken <==> e.Finish? && w.slots.queue[0].ticket == t)
            && (v.fates[t] == GaveUp <==> e == GiveUp(t))
            && (v.fates[t] == ShutOut <==> e == ShutDown))
      && (w.fates[t] == Waiting && (e == GiveUp(t) || e == ShutDown || (e.Finish? && w.slots.queue[0].ticket == t)) ==> v.fates[t] != Waiting)
  {
    hide SlotsFit, ResolveMaxConcurrent, AfterAcquire, AfterLeave, AfterRelease;
    if e.Finish? && w.slots.queue != [] {
      assert IsQueued(w.slots.queue, w.slots.queue[0].ticket);
    }
  }

  /** A waiter is woken at the level the tool is running at, so its own maximum is respected only if that level equals it. */
  lemma WokenAboveItsMaximum(l: Limits, w: World, ticket: nat)
    requires ValidLimits(l) && Inv(l, w) && ticket in w.holders && w.slots.queue != []
    ensures var v := CallStep(l, w, Finish(ticket));
      && v.slots.active == w.slots.active && w.slots.queue[0].ticket in v.holders
      && (v.slots.active <= w.slots.queue[0].maximum <==> w.slots.active == w.slots.queue[0].maximum)
  {
    FinishKeepsSlots(l, w, ticket);
  }

  /** Such a state is reachable: two unrestricted calls run, a call that allows only itself waits, and starts beside one of them. */
  lemma PerCallMaximumIsNotACap()
    ensures var l := Limits(2, 8);
      var run := [Arrive(None, false), Arrive(None, false), Arrive(Some(1), false), Finish(0)];
      CallsFeasible(l, Opened(), run) && CallsAfter(l, Opened(), run).holders == {1, 2}
  {
    var l := Limits(2, 8);
    var run := [Arrive(None, false), Arrive(None, false), Arrive(Some(1), false), Finish(0)];
    var w1 := CallStep(l, Opened(), run[0]);
    var w2 := CallStep(l, w1, run[1]);
    var w3 := CallStep(l, w2, run[2]);
    var w4 := CallStep(l, w3, run[3]);
    assert w1.holders == {0} && w2.holders == {0, 1} && w3.slots.queue == [Waiter(2, 1)] && w4.holders == {1, 2};
    assert CallsAfter(l, w3, run[3..]) == CallsAfter(l, w4, run[4..]);
    assert CallsAfter(l, w2, run[2..]) == CallsAfter(l, w3, run[3..]);
    assert CallsAfter(l, w1, run[1..]) == CallsAfter(l, w2, run[2..]);
    assert CallsFeasible(l, w3, run[3..]) && CallsFeasible(l, w2, run[2..]) && CallsFeasible(l, w1, run[1..]);
  }
}
