/**
 Pending approvals after a change of policy. The rows stand in the order of their creation; a pass looks at the oldest fifty that
 are pending for one user and conversation. Policies do not change during a pass.
 */
module ApprovalReconcile {
  import opened Wrappers
  import opened ActionRisk
  import opened ApprovalProtocol

  type ApprovalId = nat
  type UserId = nat
  type ConversationId = nat
  type Scope = nat
  type WorkspaceId = nat

  const WINDOW := 50

  datatype Approval = Approval(
    id: ApprovalId,
    userId: UserId,
    conversationId: ConversationId,
    scope: Scope,
    riskLevel: RiskLevel,
    workspaceId: Option<WorkspaceId>,
    permissionMode: PermissionMode,
    row: Row)

  /** The policy of a task that is still open. */
  datatype Policy = Policy(permissionMode: PermissionMode, workspaceId: Option<WorkspaceId>)

  type Policies = map<Scope, Policy>

  predicate IsPending(a: Approval) { a.row.status == Pending }

  predicate Concerns(a: Approval, user: UserId, conversation: ConversationId) {
    a.userId == user && a.conversationId == conversation
  }

  /** What a pass does with a row: leave it, or decide it. */
  function Verdict(policies: Policies, a: Approval): Option<Decision> {
    if a.scope !in policies then None
    else if a.workspaceId != policies[a.scope].workspaceId then Some(Reject)
    else
      match Decide(policies[a.scope].permissionMode, a.riskLevel, true)
      case RequireApproval => None
      case Block => Some(Reject)
      case Allow => Some(ApproveOnce)
  }

  /** The decision a pass writes into a row that it resolves. */
  function Written(policies: Policies, a: Approval): Decision {
    match Verdict(policies, a)
    case Some(d) => d
    case None => Reject
  }

  predicate Keeps(policies: Policies, a: Approval) { Verdict(policies, a).None? }

  function Decided(a: Approval, d: Decision, mode: PermissionMode): Approval {
    if IsPending(a) then a.(row := DecideIfPending(a.row, d), permissionMode := mode) else a
  }

  function Settle(policies: Policies, a: Approval): Approval {
    if Keeps(policies, a) then a else Decided(a, Verdict(policies, a).value, policies[a.scope].permissionMode)
  }

  lemma VerdictIs(policies: Policies, a: Approval)
    ensures a.scope !in policies ==> Keeps(policies, a)
    ensures a.scope in policies && a.workspaceId != policies[a.scope].workspaceId ==> (
      !Keeps(policies, a) && Written(policies, a) == Reject)
    ensures a.scope in policies && a.workspaceId == policies[a.scope].workspaceId ==> (
      var decision := ActionRisk.Decide(policies[a.scope].permissionMode, a.riskLevel, true);
      && (Keeps(policies, a) <==> decision == RequireApproval)
      && (!Keeps(policies, a) ==> Written(policies, a) == if decision == Block then Reject else ApproveOnce))
  {
  }

  // ---------------------------------------------------------------- the query and the pass

  function PendingOf(rows: seq<Approval>, user: UserId, conversation: ConversationId): seq<Approval> {
    if rows == [] then []
    else (if IsPending(rows[0]) && Concerns(rows[0], user, conversation) then [rows[0]] else [])
         + PendingOf(rows[1..], user, conversation)
  }

  function Oldest(pending: seq<Approval>): seq<Approval> {
    if |pending| <= WINDOW then pending else pending[..WINDOW]
  }

  /** The table after the rows of the window were settled. */
  function SettleAll(policies: Policies, rows: seq<Approval>, window: seq<Approval>): (r: seq<Approval>)
    ensures |r| == |rows|
    ensures forall i :: 0 <= i < |rows| ==> r[i] == if rows[i] in window then Settle(policies, rows[i]) else rows[i]
  {
    if rows == [] then []
    else [if rows[0] in window then Settle(policies, rows[0]) else rows[0]] + SettleAll(policies, rows[1..], window)
  }

  function Pass(policies: Policies, rows: seq<Approval>, user: UserId, conversation: ConversationId): seq<Approval> {
    SettleAll(policies, rows, Oldest(PendingOf(rows, user, conversation)))
  }

  predicate UniqueIds(rows: seq<Approval>) {
    forall i, j :: 0 <= i < j < |rows| ==> rows[i].id != rows[j].id
  }

  lemma {:induction false} PendingOfIff(rows: seq<Approval>, user: UserId, conversation: ConversationId, a: Approval)
    ensures a in PendingOf(rows, user, conversation) <==> a in rows && IsPending(a) && Concerns(a, user, conversation)
  {
    if rows != [] {
      PendingOfIff(rows[1..], user, conversation, a);
      assert rows == [rows[0]] + rows[1..];
    }
  }

  lemma SettleIff(policies: Policies, a: Approval)
    requires IsPending(a)
    ensures IsPending(Settle(policies, a)) <==> Keeps(policies, a)
    ensures Keeps(policies, a) <==>
      (a.scope in policies ==>
         a.workspaceId == policies[a.scope].workspaceId
         && a.riskLevel != Forbidden
         && (policies[a.scope].permissionMode == ConfirmRequired
             || (policies[a.scope].permissionMode == AuditAutorun && a.riskLevel == High)))
  {
  }

  /** With at most fifty rows pending, the rows left pending are exactly those whose task is closed or still needs to be asked. */
  lemma PassIsExact(policies: Policies, rows: seq<Approval>, user: UserId, conversation: ConversationId, i: nat)
    requires i < |rows| && |PendingOf(rows, user, conversation)| <= WINDOW
    ensures var after := Pass(policies, rows, user, conversation);
      |after| == |rows|
      && (IsPending(after[i]) <==> IsPending(rows[i]) && (Concerns(rows[i], user, conversation) ==> Keeps(policies, rows[i])))
      && (IsPending(after[i]) || !IsPending(rows[i]) || !Concerns(rows[i], user, conversation) ==> after[i] == rows[i])
  {
    hide Verdict, Written;
    PendingOfIff(rows, user, conversation, rows[i]);
  }

  /**
   What a pass makes of a pending row that it looks at, in full. It is left alone while its task is closed, or must still ask: confirming
   every action, or auditing and the risk is high. Otherwise it is rejected if it belongs to another workspace or is forbidden, and
   approved once if not; and it takes the mode of its task.
   */
  lemma PassDecides(policies: Policies, rows: seq<Approval>, user: UserId, conversation: ConversationId, i: nat)
    requires i < |rows| && |PendingOf(rows, user, conversation)| <= WINDOW && IsPending(rows[i])
    requires rows[i].userId == user && rows[i].conversationId == conversation
    ensures var a, after := rows[i], Pass(policies, rows, user, conversation);
      && |after| == |rows|
      && (a.scope !in policies ==> after[i] == a)
      && (a.scope in policies ==>
            var mode := policies[a.scope].permissionMode;
            if a.workspaceId != policies[a.scope].workspaceId || a.riskLevel == Forbidden then
              after[i] == a.(row := Row(Rejected, Some(Reject)), permissionMode := mode)
            else if mode == ConfirmRequired || (mode == AuditAutorun && a.riskLevel == High) then after[i] == a
            else after[i] == a.(row := Row(Approved, Some(ApproveOnce)), permissionMode := mode))
  {
    PendingOfIff(rows, user, conversation, rows[i]);
    hide PendingOf;
  }

  /** A pass leaves alone what is decided and what belongs to another user or conversation. */
  lemma PassSparesOthers(policies: Policies, rows: seq<Approval>, user: UserId, conversation: ConversationId, i: nat)
    requires i < |rows| && (rows[i].row.status != Pending || rows[i].userId != user || rows[i].conversationId != conversation)
    ensures var after := Pass(policies, rows, user, conversation); |after| == |rows| && after[i] == rows[i]
  {
    PendingOfIff(rows, user, conversation, rows[i]);
    hide PendingOf;
  }

  /** A pass approves nothing that the current policy does not allow outright, and never invents a standing permission. */
  lemma AutoApprovalNeedsAllow(policies: Policies, rows: seq<Approval>, user: UserId, conversation: ConversationId, i: nat)
    requires i < |rows| && IsPending(rows[i])
    ensures var a := Pass(policies, rows, user, conversation)[i];
      a.row.status == Approved ==>
        && a.row.decision == Some(ApproveOnce)
        && a.scope in policies
        && rows[i].workspaceId == policies[a.scope].workspaceId
        && a.permissionMode == policies[a.scope].permissionMode
        && Decide(policies[a.scope].permissionMode, a.riskLevel, true) == Allow
  {
  }

  // ---------------------------------------------------------------- a pass, seen on the pending rows alone

  function Kept(policies: Policies, pending: seq<Approval>): (r: seq<Approval>)
    ensures |r| <= |pending|
  {
    if pending == [] then []
    else (if Keeps(policies, pending[0]) then [pending[0]] else []) + Kept(policies, pending[1..])
  }

  /** What a pass leaves pending. */
  function Left(policies: Policies, pending: seq<Approval>): seq<Approval> {
    Kept(policies, Oldest(pending)) + pending[|Oldest(pending)|..]
  }

  /** The pending rows outside the window, and those in it that are kept. */
  function Remaining(policies: Policies, pending: seq<Approval>, window: seq<Approval>): seq<Approval> {
    if pending == [] then []
    else (if pending[0] in window && !Keeps(policies, pending[0]) then [] else [pending[0]])
         + Remaining(policies, pending[1..], window)
  }

  lemma {:induction false} SettleAllRemains(policies: Policies, rows: seq<Approval>, window: seq<Approval>, user: UserId,
                                            conversation: ConversationId)
    ensures PendingOf(SettleAll(policies, rows, window), user, conversation)
         == Remaining(policies, PendingOf(rows, user, conversation), window)
  {
    if rows != [] {
      SettleAllRemains(policies, rows[1..], window, user, conversation);
      SettledHead(policies, rows, window);
      var head := if IsPending(rows[0]) && Concerns(rows[0], user, conversation) then [rows[0]] else [];
      RemainingAppends(policies, head, PendingOf(rows[1..], user, conversation), window);
      if head != [] {
        SettleIff(policies, rows[0]);
      }
    }
  }

  lemma SettledHead(policies: Policies, rows: seq<Approval>, window: seq<Approval>)
    requires rows != []
    ensures SettleAll(policies, rows, window)[0] == if rows[0] in window then Settle(policies, rows[0]) else rows[0]
    ensures SettleAll(policies, rows, window)[1..] == SettleAll(policies, rows[1..], window)
  {
  }

  lemma RemainingHead(policies: Policies, s: seq<Approval>, window: seq<Approval>)
    ensures Remaining(policies, [], window) == []
    ensures s != [] ==> (
      Remaining(policies, s, window) ==
      (if s[0] in window && !Keeps(policies, s[0]) then [] else [s[0]]) + Remaining(policies, s[1..], window))
  {
  }

  lemma {:induction false} RemainingAppends(policies: Policies, s: seq<Approval>, t: seq<Approval>, window: seq<Approval>)
    ensures Remaining(policies, s + t, window) == Remaining(policies, s, window) + Remaining(policies, t, window)
  {
    hide Keeps, Remaining;
    RemainingHead(policies, s, window);
    if s == [] {
      assert s + t == t;
    } else {
      RemainingAppends(policies, s[1..], t, window);
      RemainingHead(policies, s + t, window);
      assert (s + t)[1..] == s[1..] + t;
      var head := if s[0] in window && !Keeps(policies, s[0]) then [] else [s[0]];
      assert head + (Remaining(policies, s[1..], window) + Remaining(policies, t, window))
          == (head + Remaining(policies, s[1..], window)) + Remaining(policies, t, window);
    }
  }

  lemma {:induction false} RemainingInside(policies: Policies, s: seq<Approval>, window: seq<Approval>)
    requires forall a <- s :: a in window
    ensures Remaining(policies, s, window) == Kept(policies, s)
  {
    hide Keeps;
    if s != [] {
      RemainingInside(policies, s[1..], window);
    }
  }

  lemma {:induction false} RemainingOutside(policies: Policies, s: seq<Approval>, window: seq<Approval>)
    requires forall a <- s :: a !in window
    ensures Remaining(policies, s, window) == s
  {
    hide Keeps;
    if s != [] {
      RemainingOutside(policies, s[1..], window);
      assert s == [s[0]] + s[1..];
    }
  }

  lemma {:induction false} PendingAreDistinct(rows: seq<Approval>, user: UserId, conversation: ConversationId)
    requires UniqueIds(rows)
    ensures Distinct(PendingOf(rows, user, conversation))
  {
    if rows != [] {
      PendingAreDistinct(rows[1..], user, conversation);
      PendingOfIff(rows[1..], user, conversation, rows[0]);
    }
  }

  /** A pass over the table is a pass over the list of pending rows. */
  lemma PassLeaves(policies: Policies, rows: seq<Approval>, user: UserId, conversation: ConversationId)
    requires UniqueIds(rows)
    ensures PendingOf(Pass(policies, rows, user, conversation), user, conversation)
         == Left(policies, PendingOf(rows, user, conversation))
    ensures UniqueIds(Pass(policies, rows, user, conversation))
  {
    hide Keeps, PendingOf, Kept, Remaining, Verdict;
    var pending := PendingOf(rows, user, conversation);
    var window, rest := Oldest(pending), pending[|Oldest(pending)|..];
    PendingAreDistinct(rows, user, conversation);
    SettleAllRemains(policies, rows, window, user, conversation);
    assert pending == window + rest;
    RemainingAppends(policies, window, rest, window);
    RemainingInside(policies, window, window);
    RemainingOutside(policies, rest, window);
  }

  // ---------------------------------------------------------------- repeated passes

  lemma {:induction false} KeptIsFull(policies: Policies, s: seq<Approval>)
    ensures |Kept(policies, s)| == |s| <==> forall a <- s :: Keeps(policies, a)
    ensures |Kept(policies, s)| == |s| ==> Kept(policies, s) == s
  {
    hide Keeps;
    if s != [] {
      KeptIsFull(policies, s[1..]);
      assert s == [s[0]] + s[1..];
    }
  }

  /**
   A pass resolves nothing exactly when each of the oldest fifty pending rows is one to keep; in particular a second pass over at
   most fifty.
   */
  lemma PassIsIdleIff(policies: Policies, pending: seq<Approval>)
    ensures Left(policies, pending) == pending <==> forall a <- Oldest(pending) :: Keeps(policies, a)
    ensures |pending| <= WINDOW ==> Left(policies, Left(policies, pending)) == Left(policies, pending)
  {
    hide Keeps, Kept;
    var window, rest := Oldest(pending), pending[|Oldest(pending)|..];
    assert pending == window + rest;
    KeptIsFull(policies, window);
    if |pending| <= WINDOW {
      assert Left(policies, pending) == Kept(policies, pending);
      KeptTwice(policies, pending);
      var once := Kept(policies, pending);
      assert Left(policies, once) == Kept(policies, once);
    }
  }

  lemma {:induction false} KeptTwice(policies: Policies, s: seq<Approval>)
    ensures Kept(policies, Kept(policies, s)) == Kept(policies, s)
    ensures forall a <- Kept(policies, s) :: a in s && Keeps(policies, a)
  {
    hide Keeps;
    if s != [] {
      KeptTwice(policies, s[1..]);
      KeptAppends(policies, if Keeps(policies, s[0]) then [s[0]] else [], Kept(policies, s[1..]));
    }
  }

  lemma KeptHead(policies: Policies, s: seq<Approval>)
    ensures Kept(policies, []) == []
    ensures s != [] ==> Kept(policies, s) == (if Keeps(policies, s[0]) then [s[0]] else []) + Kept(policies, s[1..])
  {
  }

  lemma {:induction false} KeptAppends(policies: Policies, s: seq<Approval>, t: seq<Approval>)
    ensures Kept(policies, s + t) == Kept(policies, s) + Kept(policies, t)
  {
    hide Keeps, Kept;
    KeptHead(policies, s);
    if s == [] {
      assert s + t == t;
    } else {
      KeptAppends(policies, s[1..], t);
      KeptHead(policies, s + t);
      assert (s + t)[1..] == s[1..] + t;
      var head := if Keeps(policies, s[0]) then [s[0]] else [];
      assert head + (Kept(policies, s[1..]) + Kept(policies, t)) == (head + Kept(policies, s[1..])) + Kept(policies, t);
    }
  }

  function LeftAfter(policies: Policies, pending: seq<Approval>, passes: nat): seq<Approval>
    decreases passes
  {
    if passes == 0 then pending else LeftAfter(policies, Left(policies, pending), passes - 1)
  }

  /** How many rows to keep were created before a row. */
  function KeepersBefore(policies: Policies, pending: seq<Approval>, a: Approval): nat {
    if pending == [] || pending[0] == a then 0
    else (if Keeps(policies, pending[0]) then 1 else 0) + KeepersBefore(policies, pending[1..], a)
  }

  lemma {:induction false} KeepersInFront(policies: Policies, s: seq<Approval>, t: seq<Approval>, a: Approval)
    requires a !in s
    ensures KeepersBefore(policies, s + t, a) == |Kept(policies, s)| + KeepersBefore(policies, t, a)
  {
    hide Keeps;
    if s == [] {
      assert s + t == t;
    } else {
      KeepersInFront(policies, s[1..], t, a);
      assert (s + t)[1..] == s[1..] + t;
    }
  }

  lemma {:induction false} FewKeepersInside(policies: Policies, s: seq<Approval>, t: seq<Approval>, a: Approval)
    requires a in s
    ensures KeepersBefore(policies, s + t, a) < |s|
  {
    hide Keeps;
    if s[0] != a {
      FewKeepersInside(policies, s[1..], t, a);
      assert (s + t)[1..] == s[1..] + t;
    }
  }

  /** One pass on a row that is not to be kept. */
  lemma PassOnOneRow(policies: Policies, pending: seq<Approval>, a: Approval)
    requires Distinct(pending) && a in pending && !Keeps(policies, a)
    ensures KeepersBefore(policies, pending, a) >= WINDOW ==> a in Left(policies, pending)
    ensures a in Left(policies, pending) ==>
      KeepersBefore(policies, Left(policies, pending), a) == KeepersBefore(policies, pending, a)
    ensures a in Left(policies, pending) && KeepersBefore(policies, pending, a) < WINDOW ==> |Left(policies, pending)| < |pending|
  {
    hide Keeps, Kept, KeepersBefore;
    var window, rest := Oldest(pending), pending[|Oldest(pending)|..];
    assert pending == window + rest;
    KeptTwice(policies, window);
    assert a !in Kept(policies, window);
    if a in window {
      FewKeepersInside(policies, window, rest, a);
      assert a !in rest;
    } else {
      KeepersInFront(policies, window, rest, a);
      KeepersInFront(policies, Kept(policies, window), rest, a);
    }
  }

  lemma TailIsDistinct(a: Approval, rest: seq<Approval>)
    requires Distinct([a] + rest)
    ensures Distinct(rest)
  {
    assert ([a] + rest)[1..] == rest;
  }

  lemma {:induction false} KeptIsDistinct(policies: Policies, s: seq<Approval>, t: seq<Approval>)
    requires Distinct(s + t)
    ensures Distinct(Kept(policies, s) + t)
  {
    hide Keeps, Kept, Distinct;
    KeptHead(policies, s);
    if s == [] {
      assert [] + t == s + t;
    } else {
      assert [s[0]] + (s[1..] + t) == s + t;
      TailIsDistinct(s[0], s[1..] + t);
      KeptIsDistinct(policies, s[1..], t);
      KeptTwice(policies, s[1..]);
      var tail := Kept(policies, s[1..]) + t;
      if Keeps(policies, s[0]) {
        HeadIsNew(s[0], s[1..] + t, tail);
        assert ([s[0]] + Kept(policies, s[1..])) + t == [s[0]] + tail;
      } else {
        assert ([] + Kept(policies, s[1..])) + t == tail;
      }
    }
  }

  lemma HeadIsNew(a: Approval, whole: seq<Approval>, part: seq<Approval>)
    requires Distinct([a] + whole) && Distinct(part) && forall b <- part :: b in whole
    ensures Distinct([a] + part)
  {
    var all := [a] + whole;
    forall i | 0 <= i < |whole| ensures whole[i] != a {
      assert all[0] != all[i + 1];
    }
    forall i | 0 <= i < |part| ensures part[i] != a {
      assert part[i] in part;
    }
  }

  lemma LeftIsDistinct(policies: Policies, pending: seq<Approval>)
    requires Distinct(pending)
    ensures Distinct(Left(policies, pending))
    ensures forall a <- Left(policies, pending) :: a in pending
  {
    hide Keeps, Kept;
    assert pending == Oldest(pending) + pending[|Oldest(pending)|..];
    KeptIsDistinct(policies, Oldest(pending), pending[|Oldest(pending)|..]);
    KeptTwice(policies, Oldest(pending));
  }

  lemma {:induction false} GoneStaysGone(policies: Policies, pending: seq<Approval>, a: Approval, passes: nat)
    requires Distinct(pending) && a !in pending
    ensures a !in LeftAfter(policies, pending, passes)
    decreases passes
  {
    hide Left, Distinct;
    if passes > 0 {
      LeftIsDistinct(policies, pending);
      GoneStaysGone(policies, Left(policies, pending), a, passes - 1);
    }
  }

  lemma {:induction false} StarvesForEver(policies: Policies, pending: seq<Approval>, a: Approval, passes: nat)
    requires Distinct(pending) && a in pending && !Keeps(policies, a) && KeepersBefore(policies, pending, a) >= WINDOW
    ensures a in LeftAfter(policies, pending, passes)
    decreases passes
  {
    hide Left, Distinct, Keeps, KeepersBefore;
    if passes > 0 {
      LeftIsDistinct(policies, pending);
      PassOnOneRow(policies, pending, a);
      StarvesForEver(policies, Left(policies, pending), a, passes - 1);
    }
  }

  /**
   However often the pass is repeated under a fixed policy, a row that should be resolved stays pending for ever exactly when fifty
   rows to keep were created before it.
   */
  lemma {:induction false} StarvedIff(policies: Policies, pending: seq<Approval>, a: Approval, passes: nat)
    requires Distinct(pending) && a in pending && !Keeps(policies, a) && passes >= |pending|
    ensures a in LeftAfter(policies, pending, passes) <==> KeepersBefore(policies, pending, a) >= WINDOW
    decreases passes
  {
    hide Keeps, KeepersBefore, Distinct, Left;
    var left := Left(policies, pending);
    LeftIsDistinct(policies, pending);
    PassOnOneRow(policies, pending, a);
    if KeepersBefore(policies, pending, a) >= WINDOW {
      StarvesForEver(policies, pending, a, passes);
    } else if a in left {
      StarvedIff(policies, left, a, passes - 1);
    } else {
      GoneStaysGone(policies, left, a, passes - 1);
    }
  }

  function Passes(policies: Policies, rows: seq<Approval>, user: UserId, conversation: ConversationId, n: nat): seq<Approval>
    decreases n
  {
    if n == 0 then rows else Passes(policies, Pass(policies, rows, user, conversation), user, conversation, n - 1)
  }

  lemma {:induction false} PassesLeave(policies: Policies, rows: seq<Approval>, user: UserId, conversation: ConversationId, n: nat)
    requires UniqueIds(rows)
    ensures PendingOf(Passes(policies, rows, user, conversation, n), user, conversation)
         == LeftAfter(policies, PendingOf(rows, user, conversation), n)
    decreases n
  {
    hide Pass, PendingOf, Left, UniqueIds;
    if n > 0 {
      PassLeaves(policies, rows, user, conversation);
      PassesLeave(policies, Pass(policies, rows, user, conversation), user, conversation, n - 1);
    }
  }

  /** The same on the table: which rows no number of passes will ever resolve. */
  lemma StarvedRowsIff(policies: Policies, rows: seq<Approval>, user: UserId, conversation: ConversationId, a: Approval, n: nat)
    requires UniqueIds(rows) && n >= |PendingOf(rows, user, conversation)|
    requires a in rows && IsPending(a) && Concerns(a, user, conversation) && !Keeps(policies, a)
    ensures a in Passes(policies, rows, user, conversation, n)
      <==> KeepersBefore(policies, PendingOf(rows, user, conversation), a) >= WINDOW
  {
    hide Keeps, KeepersBefore, PendingOf, UniqueIds, Distinct, LeftAfter, Passes;
    var pending := PendingOf(rows, user, conversation);
    PendingOfIff(rows, user, conversation, a);
    PendingAreDistinct(rows, user, conversation);
    StarvedIff(policies, pending, a, n);
    PassesLeave(policies, rows, user, conversation, n);
    PendingOfIff(Passes(policies, rows, user, conversation, n), user, conversation, a);
  }

  // ---------------------------------------------------------------- the service, in place

  datatype Refusal = UnknownApproval | ConversationRecycled | TaskScopeMismatch | TaskScopeNotActive

  /** A row after resolvePendingRow on `id`. */
  function Resolve(a: Approval, id: ApprovalId, d: Decision, mode: PermissionMode): Approval {
    if a.id == id then Decided(a, d, mode) else a
  }

  function ResolveAll(rows: seq<Approval>, id: ApprovalId, d: Decision, mode: PermissionMode): (r: seq<Approval>)
    ensures |r| == |rows| && forall i :: 0 <= i < |rows| ==> r[i] == Resolve(rows[i], id, d, mode)
  {
    seq(|rows|, i requires 0 <= i < |rows| => Resolve(rows[i], id, d, mode))
  }

  predicate KnownId(rows: seq<Approval>, id: ApprovalId) {
    exists i :: 0 <= i < |rows| && rows[i].id == id
  }

  function Find(rows: seq<Approval>, id: ApprovalId): (i: nat)
    ensures i <= |rows| && (i < |rows| ==> rows[i].id == id) && (i == |rows| <==> !KnownId(rows, id))
  {
    if rows == [] || rows[0].id == id then 0
    else
      assert forall i :: 0 <= i < |rows| - 1 ==> rows[1..][i] == rows[i + 1];
      1 + Find(rows[1..], id)
  }

  /** The rows a pass resolves. */
  function Resolvable(policies: Policies, window: seq<Approval>): seq<Approval> {
    if window == [] then []
    else Resolvable(policies, window[..|window| - 1])
         + if Keeps(policies, window[|window| - 1]) then [] else [window[|window| - 1]]
  }

  function Ids(s: seq<Approval>): set<ApprovalId> {
    set i | 0 <= i < |s| :: s[i].id
  }

  function Events(policies: Policies, gone: seq<Approval>): seq<(ApprovalId, Decision)> {
    if gone == [] then []
    else Events(policies, gone[..|gone| - 1]) + [(gone[|gone| - 1].id, Written(policies, gone[|gone| - 1]))]
  }

  /** The answers after the calls that waited for the resolved rows were answered. */
  function Answered(policies: Policies, answers: map<ApprovalId, Decision>, waiters: set<ApprovalId>, gone: seq<Approval>)
    : map<ApprovalId, Decision>
  {
    if gone == [] then answers
    else
      var last := gone[|gone| - 1];
      var before := Answered(policies, answers, waiters, gone[..|gone| - 1]);
      if last.id in waiters then before[last.id := Written(policies, last)] else before
  }

  /** A pass answers the calls that wait for a row it resolves, with the decision it writes, and no others. */
  lemma {:induction false} AnsweredIff(policies: Policies, answers: map<ApprovalId, Decision>, waiters: set<ApprovalId>,
                                       gone: seq<Approval>, a: Approval)
    requires UniqueIds(gone)
    ensures var r := Answered(policies, answers, waiters, gone);
      && (a in gone && a.id in waiters ==> a.id in r && r[a.id] == Written(policies, a))
      && (a.id !in Ids(gone) || a.id !in waiters ==> (a.id in r <==> a.id in answers) && (a.id in r ==> r[a.id] == answers[a.id]))
  {
    hide Verdict, Written;
    if gone != [] {
      var init, last := gone[..|gone| - 1], gone[|gone| - 1];
      AnsweredIff(policies, answers, waiters, init, a);
      assert gone == init + [last];
      assert a in init ==> a.id != last.id;
      assert last.id in Ids(gone) by {
        assert gone[|gone| - 1].id in Ids(gone);
      }
      assert a.id in Ids(init) ==> a.id in Ids(gone) by {
        if a.id in Ids(init) {
          var i :| 0 <= i < |init| && init[i].id == a.id;
          assert gone[i].id == a.id;
        }
      }
    }
  }

  lemma ResolvableNext(policies: Policies, window: seq<Approval>, k: nat)
    requires k < |window|
    ensures Resolvable(policies, window[..k + 1])
         == if Keeps(policies, window[k]) then Resolvable(policies, window[..k]) else Resolvable(policies, window[..k]) + [window[k]]
    ensures |Resolvable(policies, window[..k + 1])| == |Resolvable(policies, window[..k])| + if Keeps(policies, window[k]) then 0 else 1
  {
    assert window[..k + 1][..k] == window[..k];
  }

  lemma GoneNext(policies: Policies, answers: map<ApprovalId, Decision>, waiters: set<ApprovalId>,
                 published: seq<(ApprovalId, Decision)>, gone: seq<Approval>, a: Approval)
    ensures published + Events(policies, gone + [a]) == (published + Events(policies, gone)) + [(a.id, Written(policies, a))]
    ensures waiters - Ids(gone + [a]) == if a.id in waiters then waiters - Ids(gone) - {a.id} else waiters - Ids(gone)
    ensures Answered(policies, answers, waiters, gone + [a]) ==
      var before := Answered(policies, answers, waiters, gone);
      if a.id in waiters then before[a.id := Written(policies, a)] else before
  {
    hide Verdict, Written;
    var all := gone + [a];
    assert all[..|all| - 1] == gone;
    assert Events(policies, all) == Events(policies, gone) + [(a.id, Written(policies, a))];
    forall id ensures id in Ids(all) <==> id in Ids(gone) + {a.id} {
      if id in Ids(gone) {
        var i :| 0 <= i < |gone| && gone[i].id == id;
        assert all[i].id == id;
      }
      assert all[|gone|].id == a.id;
    }
    assert Ids(all) == Ids(gone) + {a.id};
  }

  lemma {:induction false} ResolvableMembers(policies: Policies, window: seq<Approval>, a: Approval)
    ensures a in Resolvable(policies, window) <==> a in window && !Keeps(policies, a)
  {
    hide Keeps;
    if window != [] {
      ResolvableMembers(policies, window[..|window| - 1], a);
      assert window == window[..|window| - 1] + [window[|window| - 1]];
    }
  }

  lemma ResolvedIsDecided(a: Approval)
    requires IsPending(a)
    ensures forall d, mode :: Resolve(a, a.id, d, mode).row.decision == Some(d)
  {
  }

  /** Where a row of the window stands in the table, before its turn. */
  lemma NextStands(policies: Policies, table: seq<Approval>, window: seq<Approval>, k: nat) returns (at: nat)
    requires UniqueIds(table) && k < |window| && Distinct(window) && forall a <- window :: a in table
    ensures at < |table| && table[at] == window[k]
    ensures SettleAll(policies, table, window[..k])[at] == window[k]
    ensures forall i :: 0 <= i < |table| && i != at ==> table[i].id != window[k].id
  {
    hide Settle, SettleAll;
    assert window[k] in table;
    at :| 0 <= at < |table| && table[at] == window[k];
    assert window[k] !in window[..k];
  }

  lemma SettleNextAt(policies: Policies, table: seq<Approval>, window: seq<Approval>, k: nat, i: nat)
    requires k < |window| && i < |table|
    ensures SettleAll(policies, table, window[..k + 1])[i]
         == if table[i] == window[k] then Settle(policies, window[k]) else SettleAll(policies, table, window[..k])[i]
  {
    hide Settle;
    assert window[..k + 1] == window[..k] + [window[k]];
  }

  lemma SettleIsResolve(policies: Policies, a: Approval)
    ensures !Keeps(policies, a) ==>
      Settle(policies, a) == Resolve(a, a.id, Written(policies, a), policies[a.scope].permissionMode)
    ensures Keeps(policies, a) ==> Settle(policies, a) == a
  {
  }

  lemma FindUnique(rows: seq<Approval>, at: nat)
    requires at < |rows| && forall i :: 0 <= i < |rows| && i != at ==> rows[i].id != rows[at].id
    ensures KnownId(rows, rows[at].id) && Find(rows, rows[at].id) == at
  {
  }

  /** One row of the table, after one more row of the window. */
  lemma SettleOneRow(policies: Policies, table: seq<Approval>, window: seq<Approval>, k: nat, at: nat, i: nat)
    requires k < |window| && at < |table| && i < |table| && table[at] == window[k]
    requires SettleAll(policies, table, window[..k])[at] == window[k] && SettleAll(policies, table, window[..k])[i].id == table[i].id
    requires i != at ==> table[i].id != window[k].id
    ensures var now, next, a := SettleAll(policies, table, window[..k])[i], SettleAll(policies, table, window[..k + 1])[i], window[k];
      next == if Keeps(policies, a) then now else Resolve(now, a.id, Written(policies, a), policies[a.scope].permissionMode)
  {
    SettleIsResolve(policies, window[k]);
    hide Keeps, Settle, SettleAll, Decided, Written;
    SettleNextAt(policies, table, window, k, i);
  }

  /** The table after one more row of the window. */
  lemma SettleOneMore(policies: Policies, table: seq<Approval>, window: seq<Approval>, k: nat)
    requires UniqueIds(table) && k < |window| && Distinct(window) && forall a <- window :: a in table
    ensures var now, a := SettleAll(policies, table, window[..k]), window[k];
      && KnownId(now, a.id) && now[Find(now, a.id)] == a
      && SettleAll(policies, table, window[..k + 1]) ==
         if Keeps(policies, a) then now
         else ResolveAll(now, a.id, Written(policies, a), policies[a.scope].permissionMode)
  {
    KeptHasScope(policies, window[k]);
    hide Keeps, SettleAll, Find, UniqueIds, KnownId, Resolve, ResolveAll, Written, Distinct, Settle, Decided;
    var now, a := SettleAll(policies, table, window[..k]), window[k];
    var at := NextStands(policies, table, window, k);
    SettleKeepsIds(policies, table, window[..k]);
    FindUnique(now, at);
    forall i | 0 <= i < |table|
      ensures SettleAll(policies, table, window[..k + 1])[i] ==
        if Keeps(policies, a) then now[i] else Resolve(now[i], a.id, Written(policies, a), policies[a.scope].permissionMode)
    {
      SettleOneRow(policies, table, window, k, at, i);
    }
    SettledPointwise(policies, now, SettleAll(policies, table, window[..k + 1]), a);
  }

  lemma SettledPointwise(policies: Policies, now: seq<Approval>, next: seq<Approval>, a: Approval)
    requires |next| == |now| && (!Keeps(policies, a) ==> a.scope in policies)
    requires forall i :: 0 <= i < |now| ==> (
      next[i] == if Keeps(policies, a) then now[i] else Resolve(now[i], a.id, Written(policies, a), policies[a.scope].permissionMode))
    ensures next ==
      if Keeps(policies, a) then now else ResolveAll(now, a.id, Written(policies, a), policies[a.scope].permissionMode)
  {
    hide Keeps, Resolve, Written;
  }

  lemma KeptHasScope(policies: Policies, a: Approval)
    ensures !Keeps(policies, a) ==> a.scope in policies
  {
  }

  lemma NotYetGone(policies: Policies, table: seq<Approval>, window: seq<Approval>, k: nat)
    requires UniqueIds(table) && k < |window| && Distinct(window) && forall a <- window :: a in table
    ensures window[k].id !in Ids(Resolvable(policies, window[..k]))
  {
    var gone := Resolvable(policies, window[..k]);
    forall i | 0 <= i < |gone| ensures gone[i].id != window[k].id {
      ResolvableMembers(policies, window[..k], gone[i]);
      var j :| 0 <= j < k && window[j] == gone[i];
      assert window[j] in table && window[k] in table && window[j] != window[k];
    }
  }

  lemma SettleKeepsIds(policies: Policies, table: seq<Approval>, window: seq<Approval>)
    ensures forall i :: 0 <= i < |table| ==> SettleAll(policies, table, window)[i].id == table[i].id
    ensures UniqueIds(table) ==> UniqueIds(SettleAll(policies, table, window))
    ensures SettleAll(policies, table, []) == table
  {
    hide Verdict, Written;
  }

  lemma NothingGone(policies: Policies, answers: map<ApprovalId, Decision>, waiters: set<ApprovalId>)
    ensures Resolvable(policies, []) == [] && Events(policies, []) == [] && Ids([]) == {}
    ensures Answered(policies, answers, waiters, []) == answers
  {
  }

  /** The rows of the window are pending rows of the table, each once. */
  lemma WindowOf(rows: seq<Approval>, user: UserId, conversation: ConversationId)
    requires UniqueIds(rows)
    ensures var window := Oldest(PendingOf(rows, user, conversation));
      Distinct(window) && forall a <- window :: a in rows && IsPending(a)
  {
    hide PendingOf, UniqueIds;
    var pending := PendingOf(rows, user, conversation);
    PendingAreDistinct(rows, user, conversation);
    forall a | a in Oldest(pending) ensures a in rows && IsPending(a) {
      PendingOfIff(rows, user, conversation, a);
    }
  }

  // ---------------------------------------------------------------- a user's decision

  predicate IsGrant(d: Decision) { d == AuditOnly || d == FullAccessForTask }

  function GrantedMode(d: Decision): PermissionMode {
    if d == AuditOnly then AuditAutorun else FullAccess
  }

  /** What a decision for this approval does: refuses, finds nothing to do, or decides. */
  function DecideOutcome(rows: seq<Approval>, policies: Policies, id: ApprovalId, user: UserId, d: Decision, task: Option<Scope>,
                         live: bool): Result<bool, Refusal>
  {
    var i := Find(rows, id);
    if i == |rows| || rows[i].userId != user then Ok(false)
    else if !live then Err(ConversationRecycled)
    else if task.Some? && task.value != rows[i].scope then Err(TaskScopeMismatch)
    else if !IsPending(rows[i]) then Ok(false)
    else if IsGrant(d) && rows[i].scope !in policies then Err(TaskScopeNotActive)
    else Ok(true)
  }

  function PoliciesAfter(policies: Policies, a: Approval, d: Decision): Policies {
    if IsGrant(d) && a.scope in policies then policies[a.scope := policies[a.scope].(permissionMode := GrantedMode(d))] else policies
  }

  function RowsAfter(rows: seq<Approval>, policies: Policies, a: Approval, d: Decision): seq<Approval> {
    var resolved := ResolveAll(rows, a.id, d, if IsGrant(d) then GrantedMode(d) else a.permissionMode);
    if IsGrant(d) then Pass(PoliciesAfter(policies, a, d), resolved, a.userId, a.conversationId) else resolved
  }

  /** Which decisions are refused, which have nothing to decide, and which are made. */
  lemma DecisionIff(rows: seq<Approval>, policies: Policies, id: ApprovalId, user: UserId, d: Decision, task: Option<Scope>, live: bool, i: nat)
    requires UniqueIds(rows) && i < |rows| && rows[i].id == id
    ensures var r, a := DecideOutcome(rows, policies, id, user, d, task, live), rows[i];
      var mine, fits := a.userId == user && live, task == None || task == Some(a.scope);
      var grants := d == AuditOnly || d == FullAccessForTask;
      && (r == Err(ConversationRecycled) <==> a.userId == user && !live)
      && (r == Err(TaskScopeMismatch) <==> mine && !fits)
      && (r == Err(TaskScopeNotActive) <==> mine && fits && a.row.status == Pending && grants && a.scope !in policies)
      && (r == Ok(true) <==> mine && fits && a.row.status == Pending && (grants ==> a.scope in policies))
      && (r == Ok(false) <==> a.userId != user || (mine && fits && a.row.status != Pending))
  {
    FindUnique(rows, i);
  }

  /** Nothing happens to an approval that is not there. */
  lemma UnknownIsNotDecided(rows: seq<Approval>, policies: Policies, id: ApprovalId, user: UserId, d: Decision, task: Option<Scope>, live: bool)
    requires forall a <- rows :: a.id != id
    ensures DecideOutcome(rows, policies, id, user, d, task, live) == Ok(false)
  {
  }

  /** The mode that a grant sets; every other decision leaves the mode as it is. */
  lemma GrantSetsTheMode(policies: Policies, a: Approval, d: Decision)
    ensures var after := PoliciesAfter(policies, a, d);
      && after.Keys == policies.Keys
      && (forall s <- policies :: s != a.scope ==> after[s] == policies[s])
      && (a.scope in policies ==>
            && after[a.scope].workspaceId == policies[a.scope].workspaceId
            && after[a.scope].permissionMode == (
                 if d == AuditOnly then AuditAutorun else if d == FullAccessForTask then FullAccess
                 else policies[a.scope].permissionMode))
  {
  }

  /** The decided row records the decision and the mode that it sets; unless it is a grant, no other row changes. */
  lemma DecisionIsRecorded(rows: seq<Approval>, policies: Policies, d: Decision, i: nat)
    requires UniqueIds(rows) && i < |rows| && IsPending(rows[i])
    ensures var after := RowsAfter(rows, policies, rows[i], d);
      && |after| == |rows|
      && after[i] == rows[i].(
           row := Row(if d == Reject then Rejected else Approved, Some(d)),
           permissionMode := if d == AuditOnly then AuditAutorun else if d == FullAccessForTask then FullAccess else rows[i].permissionMode)
      && (d == ApproveOnce || d == Reject ==> forall j :: 0 <= j < |rows| && j != i ==> after[j] == rows[j])
  {
    hide Pass, PendingOf, UniqueIds;
    var a := rows[i];
    var resolved := ResolveAll(rows, a.id, d, if IsGrant(d) then GrantedMode(d) else a.permissionMode);
    assert !IsPending(resolved[i]);
    PassSparesOthers(PoliciesAfter(policies, a, d), resolved, a.userId, a.conversationId, i);
    forall j | 0 <= j < |rows| && j != i ensures rows[j].id != a.id {
      OtherId(rows, i, j);
    }
  }

  lemma OtherId(rows: seq<Approval>, i: nat, j: nat)
    requires UniqueIds(rows) && i < |rows| && j < |rows| && i != j
    ensures rows[i].id != rows[j].id
  {
  }

  /**
   What a grant makes of every other pending approval of its task, with at most fifty of them. It is rejected if it belongs to another
   workspace or is forbidden. Of the rest, granting audited runs leaves exactly those of high risk pending and as they were, and granting
   full access leaves none; everything that is not left is approved once.
   */
  lemma GrantDrainsTheTask(rows: seq<Approval>, policies: Policies, a: Approval, d: Decision, i: nat)
    requires i < |rows| && a.scope in policies && (d == AuditOnly || d == FullAccessForTask)
    requires |PendingOf(ResolveAll(rows, a.id, d, GrantedMode(d)), a.userId, a.conversationId)| <= WINDOW
    requires rows[i].scope == a.scope && rows[i].userId == a.userId && rows[i].conversationId == a.conversationId
    requires rows[i].id != a.id && IsPending(rows[i])
    ensures var other, after := rows[i], RowsAfter(rows, policies, a, d);
      var sameWorkspace, mode := other.workspaceId == policies[a.scope].workspaceId, if d == AuditOnly then AuditAutorun else FullAccess;
      && |after| == |rows|
      && (IsPending(after[i]) <==> d == AuditOnly && other.riskLevel == High && sameWorkspace)
      && (IsPending(after[i]) ==> after[i] == other)
      && (after[i].row.status == Rejected <==> !sameWorkspace || other.riskLevel == Forbidden)
      && (after[i].row.status == Rejected ==> after[i] == other.(row := Row(Rejected, Some(Reject)), permissionMode := mode))
      && (!IsPending(after[i]) && after[i].row.status != Rejected ==>
            after[i] == other.(row := Row(Approved, Some(ApproveOnce)), permissionMode := mode))
  {
    hide PendingOf, Pass;
    var resolved := ResolveAll(rows, a.id, d, GrantedMode(d));
    assert resolved[i] == rows[i];
    GrantSetsTheMode(policies, a, d);
    PassDecides(PoliciesAfter(policies, a, d), resolved, a.userId, a.conversationId, i);
  }

  /** The rows that the pass after a grant resolves. */
  function GoneAfter(rows: seq<Approval>, policies: Policies, a: Approval, d: Decision): seq<Approval> {
    if IsGrant(d) then
      Resolvable(PoliciesAfter(policies, a, d), Oldest(PendingOf(ResolveAll(rows, a.id, d, GrantedMode(d)), a.userId, a.conversationId)))
    else []
  }

  /** A row that is decided stays as it is, whoever resolves it again: decision, status and mode. */
  lemma SecondResolutionIsIdle(rows: seq<Approval>, id: ApprovalId, d: Decision, mode: PermissionMode, i: nat)
    requires i < |rows| && rows[i].row.status != Pending
    ensures ResolveAll(rows, id, d, mode)[i] == rows[i]
  {
  }

  /** What is published and answered after a grant concerns exactly the rows that it made a pass decide. */
  lemma GoneAfterIff(rows: seq<Approval>, policies: Policies, i: nat, d: Decision, j: nat)
    requires UniqueIds(rows) && i < |rows| && j < |rows| && j != i && IsPending(rows[i])
    ensures rows[j] in GoneAfter(rows, policies, rows[i], d) <==> IsPending(rows[j]) && !IsPending(RowsAfter(rows, policies, rows[i], d)[j])
    ensures forall g <- GoneAfter(rows, policies, rows[i], d) :: g in rows && g.id != rows[i].id
  {
    var a := rows[i];
    OtherId(rows, i, j);
    if IsGrant(d) {
      var granted, resolved := PoliciesAfter(policies, a, d), ResolveAll(rows, a.id, d, GrantedMode(d));
      var pending := PendingOf(resolved, a.userId, a.conversationId);
      assert resolved[j] == rows[j] && !IsPending(resolved[i]);
      GoneIff(granted, resolved, a.userId, a.conversationId, j);
      forall g | g in Resolvable(granted, Oldest(pending)) ensures g in rows && g.id != a.id {
        ResolvableMembers(granted, Oldest(pending), g);
        PendingOfIff(resolved, a.userId, a.conversationId, g);
        var m :| 0 <= m < |resolved| && resolved[m] == g;
        assert m != i;
        OtherId(rows, i, m);
      }
    }
  }

  lemma GoneIff(policies: Policies, rows: seq<Approval>, user: UserId, conversation: ConversationId, j: nat)
    requires j < |rows|
    ensures rows[j] in Resolvable(policies, Oldest(PendingOf(rows, user, conversation))) <==>
      IsPending(rows[j]) && !IsPending(Pass(policies, rows, user, conversation)[j])
  {
    ResolvableMembers(policies, Oldest(PendingOf(rows, user, conversation)), rows[j]);
    PendingOfIff(rows, user, conversation, rows[j]);
    hide PendingOf;
  }

  class RuntimeApprovalService {
    var rows: seq<Approval>
    var policies: Policies
    /** Calls that wait, and what was answered to calls that waited. */
    var waiters: set<ApprovalId>
    var answers: map<ApprovalId, Decision>
    /** Resolution events, in order. */
    var published: seq<(ApprovalId, Decision)>

    constructor (table: seq<Approval>, tasks: Policies)
      ensures rows == table && policies == tasks && waiters == {} && answers == map[] && published == []
    {
      rows, policies, waiters, answers, published := table, tasks, {}, map[], [];
    }

    /** Decides the row if it is still pending; whoever waits for it gets the decision that the row now holds. */
    method ResolvePendingRow(id: ApprovalId, d: Decision, mode: PermissionMode)
      requires UniqueIds(rows) && KnownId(rows, id)
      modifies this`rows, this`waiters, this`answers, this`published
      ensures rows == ResolveAll(old(rows), id, d, mode) && UniqueIds(rows)
      ensures var before, now := old(rows)[Find(old(rows), id)], ResolveAll(old(rows), id, d, mode)[Find(old(rows), id)];
        && published == (if IsPending(before) then old(published) + [(id, d)] else old(published))
        && (if id in old(waiters) && now.row.decision.Some? then
              waiters == old(waiters) - {id} && answers == old(answers)[id := now.row.decision.value]
            else waiters == old(waiters) && answers == old(answers))
    {
      var i := Find(rows, id);
      var waiting := id in waiters;
      var changed := IsPending(rows[i]);
      if changed {
        rows := rows[i := rows[i].(row := Row(DecidedStatus(d), Some(d)), permissionMode := mode)];
      }
      assert rows == ResolveAll(old(rows), id, d, mode);
      var updated := rows[i];
      if waiting && updated.row.decision.Some? {
        waiters := waiters - {id};
        answers := answers[id := updated.row.decision.value];
      }
      if changed {
        published := published + [(id, d)];
      }
    }

    /** One pass; the answer is the number of rows it resolved. */
    method ReconcilePendingForConversation(user: UserId, conversation: ConversationId) returns (resolved: nat)
      requires UniqueIds(rows)
      modifies this`rows, this`waiters, this`answers, this`published
      ensures rows == Pass(policies, old(rows), user, conversation) && UniqueIds(rows)
      ensures var gone := Resolvable(policies, Oldest(PendingOf(old(rows), user, conversation)));
        && resolved == |gone|
        && published == old(published) + Events(policies, gone)
        && waiters == old(waiters) - Ids(gone)
        && answers == Answered(policies, old(answers), old(waiters), gone)
    {
      hide Events, Ids, Answered, Resolvable, ResolveAll, SettleAll, Find, KnownId, PendingOf, UniqueIds, Distinct, Decided, Settle;
      hide Verdict, Keeps, Written, ActionRisk.Decide;
      var window := Oldest(PendingOf(rows, user, conversation));
      WindowOf(rows, user, conversation);
      NothingGone(policies, answers, waiters);
      ghost var table := rows;
      SettleKeepsIds(policies, table, []);
      resolved := 0;
      var k := 0;
      assert window[..k] == [];
      while k < |window|
        invariant k <= |window|
        invariant rows == SettleAll(policies, table, window[..k])
        invariant var gone := Resolvable(policies, window[..k]);
          && resolved == |gone|
          && published == old(published) + Events(policies, gone)
          && waiters == old(waiters) - Ids(gone)
          && answers == Answered(policies, old(answers), old(waiters), gone)
      {
        var a := window[k];
        SettleKeepsIds(policies, table, window[..k]);
        SettleOneMore(policies, table, window, k);
        ResolvableNext(policies, window, k);
        GoneNext(policies, old(answers), old(waiters), old(published), Resolvable(policies, window[..k]), a);
        NotYetGone(policies, table, window, k);
        assert a in window;
        ResolvedIsDecided(a);
        VerdictIs(policies, a);
        if a.scope in policies {
          var policy := policies[a.scope];
          if a.workspaceId != policy.workspaceId {
            ResolvePendingRow(a.id, Reject, policy.permissionMode);
            resolved := resolved + 1;
          } else {
            var decision := ActionRisk.Decide(policy.permissionMode, a.riskLevel, true);
            if decision != RequireApproval {
              ResolvePendingRow(a.id, if decision == Block then Reject else ApproveOnce, policy.permissionMode);
              resolved := resolved + 1;
            }
          }
        }
        k := k + 1;
      }
      assert window[..k] == window;
      SettleKeepsIds(policies, table, window);
    }

    /** A user's decision. The answer is the row, unless there is none for this user. */
    method Decide(id: ApprovalId, user: UserId, d: Decision, task: Option<Scope>, live: bool) returns (r: Result<Option<Approval>, Refusal>)
      requires UniqueIds(rows)
      modifies this
      ensures var outcome, i := DecideOutcome(old(rows), old(policies), id, user, d, task, live), Find(old(rows), id);
        && UniqueIds(rows)
        && (r.Err? <==> outcome.Err?)
        && (outcome.Err? ==> r.error == outcome.error)
        && (outcome == Ok(true) ==>
              && rows == RowsAfter(old(rows), old(policies), old(rows)[i], d)
              && policies == PoliciesAfter(old(policies), old(rows)[i], d)
              && r == Ok(Some(Resolve(old(rows)[i], id, d, if IsGrant(d) then GrantedMode(d) else old(rows)[i].permissionMode))))
        && (outcome == Ok(true) ==>
              var a := old(rows)[i];
              && |rows| == |old(rows)|
              && rows[i] == a.(
                   row := Row(if d == Reject then Rejected else Approved, Some(d)),
                   permissionMode := if d == AuditOnly then AuditAutorun else if d == FullAccessForTask then FullAccess else a.permissionMode)
              && policies == (
                   if d == AuditOnly then old(policies)[a.scope := old(policies)[a.scope].(permissionMode := AuditAutorun)]
                   else if d == FullAccessForTask then old(policies)[a.scope := old(policies)[a.scope].(permissionMode := FullAccess)]
                   else old(policies)))
        && (outcome == Ok(true) ==>
              var after, gone := PoliciesAfter(old(policies), old(rows)[i], d), GoneAfter(old(rows), old(policies), old(rows)[i], d);
              && published == old(published) + [(id, d)] + Events(after, gone)
              && waiters == old(waiters) - {id} - Ids(gone)
              && answers == Answered(after, if id in old(waiters) then old(answers)[id := d] else old(answers), old(waiters) - {id}, gone))
        && (outcome != Ok(true) ==>
              && rows == old(rows) && policies == old(policies) && waiters == old(waiters) && answers == old(answers)
              && published == old(published))
        && (outcome == Ok(false) ==> r == Ok(if i < |old(rows)| && old(rows)[i].userId == user then Some(old(rows)[i]) else None))
    {
      hide PendingOf, Resolvable, Oldest, Pass, UniqueIds, KnownId, Find, Events, Ids, Answered;
      var i := Find(rows, id);
      if i == |rows| || rows[i].userId != user {
        return Ok(None);
      }
      var a := rows[i];
      if !live {
        return Err(ConversationRecycled);
      }
      if task.Some? && task.value != a.scope {
        return Err(TaskScopeMismatch);
      }
      if !IsPending(a) {
        return Ok(Some(a));
      }
      var mode := a.permissionMode;
      if d == AuditOnly || d == FullAccessForTask {
        mode := if d == AuditOnly then AuditAutorun else FullAccess;
        if a.scope !in policies {
          return Err(TaskScopeNotActive);
        }
        policies := policies[a.scope := policies[a.scope].(permissionMode := mode)];
      }
      DecisionIsRecorded(rows, old(policies), d, i);
      ResolvePendingRow(id, d, mode);
      assert waiters == old(waiters) - {id};
      var updated := rows[i];
      if d == AuditOnly || d == FullAccessForTask {
        var _ := ReconcilePendingForConversation(user, a.conversationId);
      } else {
        NothingGone(policies, answers, waiters);
      }
      return Ok(Some(updated));
    }
  }
}
