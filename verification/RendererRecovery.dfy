/** The limiter of renderer recoveries: a pruned list of timestamps that must bound the whole history. */
module RendererRecovery {
  const WINDOW_MS := 60_000
  const LIMIT := 3

  /** The timestamps that are still inside the window at `now`. */
  function InWindow(stamps: seq<int>, now: int): seq<int> {
    if stamps == [] then []
    else (if now - stamps[0] < WINDOW_MS then [stamps[0]] else []) + InWindow(stamps[1..], now)
  }

  /** A call: when it comes and whether there is a live window in an application that is not quitting. */
  datatype Attempt = Attempt(now: int, usable: bool)

  /** The list after a call, and whether the call reloads the renderer. */
  function Recover(stamps: seq<int>, a: Attempt): (seq<int>, bool) {
    if !a.usable then (stamps, false)
    else
      var kept := InWindow(stamps, a.now);
      if |kept| >= LIMIT then (kept, false) else (kept + [a.now], true)
  }

  // ---------------------------------------------------------------- whole runs

  function Kept(attempts: seq<Attempt>): seq<int> {
    if attempts == [] then [] else Recover(Kept(attempts[..|attempts| - 1]), attempts[|attempts| - 1]).0
  }

  /** The times of all accepted recoveries, nothing pruned. */
  function Accepted(attempts: seq<Attempt>): seq<int> {
    if attempts == [] then []
    else
      var before, a := attempts[..|attempts| - 1], attempts[|attempts| - 1];
      Accepted(before) + (if Recover(Kept(before), a).1 then [a.now] else [])
  }

  predicate ClockIsMonotone(attempts: seq<Attempt>) {
    forall i, j :: 0 <= i < j < |attempts| ==> attempts[i].now <= attempts[j].now
  }

  predicate Ascending(s: seq<int>) {
    forall i, j :: 0 <= i < j < |s| ==> s[i] <= s[j]
  }

  predicate IsSuffix(s: seq<int>, t: seq<int>) {
    |s| <= |t| && s == t[|t| - |s|..]
  }

  /** The pruned list is a suffix of the history, and nothing inside the window at `now` was pruned. */
  predicate Remembers(kept: seq<int>, history: seq<int>, now: int) {
    && IsSuffix(kept, history)
    && Ascending(history)
    && (forall t <- history :: t <= now)
    && (forall i :: 0 <= i < |history| - |kept| ==> now - history[i] >= WINDOW_MS)
  }

  predicate Spaced(history: seq<int>) {
    forall i :: 0 <= i && i + LIMIT < |history| ==> history[i + LIMIT] - history[i] >= WINDOW_MS
  }

  /** Three accepted recoveries are less than a window old. */
  predicate Exhausted(history: seq<int>, now: int) {
    |history| >= LIMIT && now - history[|history| - LIMIT] < WINDOW_MS
  }

  /** On an ascending list, filtering by age drops a prefix. */
  lemma {:induction false} FilterIsSuffix(stamps: seq<int>, now: int)
    requires Ascending(stamps)
    ensures IsSuffix(InWindow(stamps, now), stamps)
    ensures forall i :: 0 <= i < |stamps| - |InWindow(stamps, now)| ==> now - stamps[i] >= WINDOW_MS
  {
    if stamps != [] {
      if now - stamps[0] < WINDOW_MS {
        AllRecent(stamps, now);
      } else {
        FilterIsSuffix(stamps[1..], now);
        assert forall i :: 1 <= i < |stamps| ==> stamps[i] == stamps[1..][i - 1];
      }
    }
  }

  lemma {:induction false} AllRecent(stamps: seq<int>, now: int)
    requires Ascending(stamps) && stamps != [] && now - stamps[0] < WINDOW_MS
    ensures InWindow(stamps, now) == stamps
  {
    if |stamps| > 1 {
      AllRecent(stamps[1..], now);
    }
  }

  lemma {:induction false} FilteredIsRecent(stamps: seq<int>, now: int, t: int)
    requires t in InWindow(stamps, now)
    ensures now - t < WINDOW_MS
  {
    if stamps != [] && (now - stamps[0] >= WINDOW_MS || t != stamps[0]) {
      FilteredIsRecent(stamps[1..], now, t);
    }
  }

  lemma PruningRemembers(kept: seq<int>, history: seq<int>, last: int, now: int)
    requires Remembers(kept, history, last) && last <= now
    ensures var recent := InWindow(kept, now);
      Remembers(recent, history, now) && (|recent| >= LIMIT <==> Exhausted(history, now))
  {
    hide InWindow;
    FilterIsSuffix(kept, now);
    var recent, gone := InWindow(kept, now), |history| - |kept|;
    forall i | 0 <= i < |history| - |recent| ensures now - history[i] >= WINDOW_MS {
      assert i >= gone ==> history[i] == kept[i - gone];
    }
    assert recent == history[|history| - |recent|..];
    if |recent| >= LIMIT {
      FilteredIsRecent(kept, now, recent[|recent| - LIMIT]);
    }
  }

  lemma PushingRemembers(recent: seq<int>, history: seq<int>, now: int)
    requires Remembers(recent, history, now) && Spaced(history) && !Exhausted(history, now)
    ensures Remembers(recent + [now], history + [now], now) && Spaced(history + [now])
  {
    var after := history + [now];
    assert forall i :: 0 <= i < |history| ==> history[i] in history;
    assert |after| - |recent + [now]| == |history| - |recent|;
    forall i | 0 <= i < |after| - |recent + [now]| ensures now - after[i] >= WINDOW_MS {
      assert after[i] == history[i];
    }
    forall i | 0 <= i && i + LIMIT < |after| ensures after[i + LIMIT] - after[i] >= WINDOW_MS {
      assert after[i] == history[i];
      assert i + LIMIT < |history| ==> after[i + LIMIT] == history[i + LIMIT];
    }
  }

  /** One call on any remembered history: it is refused exactly when three recoveries are still in the window. */
  lemma RecoverRemembers(kept: seq<int>, history: seq<int>, last: int, a: Attempt)
    requires Remembers(kept, history, last) && last <= a.now && Spaced(history) && |kept| <= LIMIT
    ensures var r := Recover(kept, a);
      var after := if r.1 then history + [a.now] else history;
      && (r.1 <==> a.usable && !Exhausted(history, a.now))
      && Remembers(r.0, after, a.now) && Spaced(after) && |r.0| <= LIMIT
  {
    hide InWindow, Spaced, Exhausted;
    PruningRemembers(kept, history, last, a.now);
    FilterIsShorter(kept, a.now);
    if !Exhausted(history, a.now) {
      PushingRemembers(InWindow(kept, a.now), history, a.now);
    }
  }

  lemma {:induction false} FilterIsShorter(stamps: seq<int>, now: int)
    ensures |InWindow(stamps, now)| <= |stamps|
  {
    if stamps != [] {
      FilterIsShorter(stamps[1..], now);
    }
  }

  lemma {:induction false} RunsRemember(attempts: seq<Attempt>)
    requires ClockIsMonotone(attempts)
    ensures attempts != [] ==> Remembers(Kept(attempts), Accepted(attempts), attempts[|attempts| - 1].now)
    ensures attempts == [] ==> Kept(attempts) == Accepted(attempts) == []
    ensures Spaced(Accepted(attempts)) && |Kept(attempts)| <= LIMIT
  {
    hide Remembers, Recover, Spaced;
    if attempts == [] {
      NothingIsRemembered(0);
    } else {
      var before, a := attempts[..|attempts| - 1], attempts[|attempts| - 1];
      RunsRemember(before);
      if before == [] {
        NothingIsRemembered(a.now);
        RecoverRemembers([], [], a.now, a);
      } else {
        RecoverRemembers(Kept(before), Accepted(before), before[|before| - 1].now, a);
      }
      assert Accepted(attempts) == if Recover(Kept(before), a).1 then Accepted(before) + [a.now] else Accepted(before);
    }
  }

  lemma NothingIsRemembered(now: int)
    ensures Remembers([], [], now) && Spaced([])
  {
  }

  /** Over the whole history, any four accepted recoveries span at least the window, although old timestamps are discarded. */
  lemma FourRecoveriesSpanTheWindow(attempts: seq<Attempt>, i: nat)
    requires ClockIsMonotone(attempts) && i + 3 < |Accepted(attempts)|
    ensures Accepted(attempts)[i + 3] - Accepted(attempts)[i] >= 60_000
  {
    RunsRemember(attempts);
  }

  /** A call is suppressed exactly when three recoveries were accepted in the last minute, counted in the unpruned history. */
  lemma SuppressedExactly(attempts: seq<Attempt>, a: Attempt)
    requires ClockIsMonotone(attempts + [a]) && a.usable
    ensures Accepted(attempts + [a]) ==
            Accepted(attempts) + (if Exhausted(Accepted(attempts), a.now) then [] else [a.now])
  {
    hide Kept, Accepted, Recover, Remembers, Spaced, Exhausted;
    var all := attempts + [a];
    assert ClockIsMonotone(attempts) by {
      assert forall i :: 0 <= i < |attempts| ==> all[i] == attempts[i];
    }
    RunsRemember(attempts);
    if attempts != [] {
      assert all[|attempts| - 1] == attempts[|attempts| - 1] && all[|attempts|] == a;
      RecoverRemembers(Kept(attempts), Accepted(attempts), attempts[|attempts| - 1].now, a);
    } else {
      NothingIsRemembered(a.now);
      RecoverRemembers([], [], a.now, a);
    }
    AcceptedLast(attempts, a);
  }

  lemma AcceptedLast(attempts: seq<Attempt>, a: Attempt)
    ensures Accepted(attempts + [a]) == Accepted(attempts) + (if Recover(Kept(attempts), a).1 then [a.now] else [])
    ensures Kept(attempts + [a]) == Recover(Kept(attempts), a).0
  {
    assert (attempts + [a])[..|attempts + [a]| - 1] == attempts;
  }

  /** A clock that steps back defeats the bound: the fourth recovery is two milliseconds after the first. */
  lemma SteppingBackDefeatsTheBound()
    ensures Accepted([Attempt(0, true), Attempt(70_000, true), Attempt(1, true), Attempt(2, true)]) == [0, 70_000, 1, 2]
  {
    hide Kept, Accepted, InWindow;
    var one := [Attempt(0, true)];
    EmptyRun();
    FilterTwo(0, 0, 70_000);
    AcceptedLast([], Attempt(0, true));
    assert [] + [Attempt(0, true)] == one && Kept(one) == [0] && Accepted(one) == [0];
    AcceptedLast(one, Attempt(70_000, true));
    var two := one + [Attempt(70_000, true)];
    assert Kept(two) == [70_000] && Accepted(two) == [0, 70_000];
    FilterTwo(70_000, 1, 1);
    AcceptedLast(two, Attempt(1, true));
    var three := two + [Attempt(1, true)];
    assert Kept(three) == [70_000, 1] && Accepted(three) == [0, 70_000, 1];
    FilterTwo(70_000, 1, 2);
    AcceptedLast(three, Attempt(2, true));
    assert three + [Attempt(2, true)] == [Attempt(0, true), Attempt(70_000, true), Attempt(1, true), Attempt(2, true)];
  }

  lemma EmptyRun()
    ensures Accepted([]) == [] && Kept([]) == [] && InWindow([], 0) == []
  {
  }

  lemma FilterTwo(a: int, b: int, now: int)
    ensures InWindow([a], now) == if now - a < WINDOW_MS then [a] else []
    ensures InWindow([a, b], now) == (if now - a < WINDOW_MS then [a] else []) + (if now - b < WINDOW_MS then [b] else [])
  {
    assert [a, b][1..] == [b] && InWindow([b], now) == (if now - b < WINDOW_MS then [b] else []);
  }

  // ---------------------------------------------------------------- the window manager

  class WindowManager {
    var rendererRecoveryTimestamps: seq<int>
    var appQuitting: bool
    var hasWindow: bool
    ghost var accepted: seq<int>
    ghost var lastCall: int

    ghost predicate Valid()
      reads this
    {
      && Remembers(rendererRecoveryTimestamps, accepted, lastCall)
      && Spaced(accepted)
      && |rendererRecoveryTimestamps| <= LIMIT
    }

    constructor ()
      ensures Valid() && accepted == []
    {
      rendererRecoveryTimestamps, appQuitting, hasWindow, accepted := [], false, true, [];
    }

    /** Returns whether a reload is scheduled. */
    method RecoverRenderer(now: int) returns (scheduled: bool)
      requires Valid() && lastCall <= now
      modifies this`rendererRecoveryTimestamps, this`accepted, this`lastCall
      ensures Valid() && lastCall == now
      ensures scheduled <==> !appQuitting && hasWindow && !Exhausted(old(accepted), now)
      ensures accepted == old(accepted) + (if scheduled then [now] else [])
      ensures (rendererRecoveryTimestamps, scheduled) == Recover(old(rendererRecoveryTimestamps), Attempt(now, !appQuitting && hasWindow))
    {
      RecoverRemembers(rendererRecoveryTimestamps, accepted, lastCall, Attempt(now, !appQuitting && hasWindow));
      lastCall := now;
      if appQuitting || !hasWindow {
        return false;
      }
      rendererRecoveryTimestamps := InWindow(rendererRecoveryTimestamps, now);
      if |rendererRecoveryTimestamps| >= LIMIT {
        return false;
      }
      rendererRecoveryTimestamps := rendererRecoveryTimestamps + [now];
      accepted := accepted + [now];
      return true;
    }
  }
}
