/** How risky a tool call is, and what the permission mode of its task makes of that. */
module ActionRisk {
  import opened Wrappers

  datatype RiskLevel = Low | Medium | High | Forbidden

  /** A tool that declares no side effect is treated as one without. */
  datatype SideEffect = NoEffect | ReadOnly | ObjectCreate | WorkspaceWrite | ExternalEffect | IrreversibleWrite | ProcessExecution

  datatype PermissionMode = ConfirmRequired | AuditAutorun | FullAccess

  datatype AccessDecision = Allow | RequireApproval | Block

  function ResolveRiskLevel(declared: Option<RiskLevel>, effect: SideEffect, requiresApproval: bool): RiskLevel {
    if declared.Some? then declared.value
    else if effect == IrreversibleWrite || effect == ProcessExecution then High
    else if effect == WorkspaceWrite || effect == ExternalEffect || requiresApproval then Medium
    else Low
  }

  function Decide(mode: PermissionMode, risk: RiskLevel, requiresApproval: bool): AccessDecision {
    if risk == Forbidden then Block
    else if mode == FullAccess then Allow
    else if mode == AuditAutorun then if risk == High then RequireApproval else Allow
    else if requiresApproval || risk == Medium || risk == High then RequireApproval
    else Allow
  }

  /** From allowing least to allowing most. */
  function Rank(d: AccessDecision): nat {
    match d case Block => 0 case RequireApproval => 1 case Allow => 2
  }

  function ModeRank(m: PermissionMode): nat {
    match m case ConfirmRequired => 0 case AuditAutorun => 1 case FullAccess => 2
  }

  function RiskRank(r: RiskLevel): nat {
    match r case Low => 0 case Medium => 1 case High => 2 case Forbidden => 3
  }

  /** A freer mode, a lower risk and a waived confirmation never allow less; no mode lifts a ban, and only a ban blocks. */
  lemma DecideIsMonotone(m: PermissionMode, n: PermissionMode, r: RiskLevel, s: RiskLevel, p: bool, q: bool)
    requires ModeRank(m) <= ModeRank(n) && RiskRank(s) <= RiskRank(r) && (q ==> p)
    ensures Rank(Decide(m, r, p)) <= Rank(Decide(n, s, q))
    ensures Decide(m, r, p) == Block <==> r == Forbidden
  {
  }

  predicate IsHarmless(e: SideEffect) {
    e == NoEffect || e == ReadOnly || e == ObjectCreate
  }

  /**
   Tools that declare no risk level are judged by what they do. Asking for each action, only harmless tools that want no
   confirmation run unasked; auditing, everything but irreversible writes and processes does; and none is ever banned.
   */
  lemma UndeclaredToolsAreJudgedByEffect(e: SideEffect, requiresApproval: bool)
    ensures var risk := ResolveRiskLevel(None, e, requiresApproval);
      && (Decide(ConfirmRequired, risk, requiresApproval) == Allow <==> IsHarmless(e) && !requiresApproval)
      && (Decide(AuditAutorun, risk, requiresApproval) == RequireApproval <==> e == IrreversibleWrite || e == ProcessExecution)
      && (forall m :: Decide(m, risk, requiresApproval) != Block)
  {
  }

  /**
   Tools that declare a level are judged by it, whatever they do: a tool declared low that wants no confirmation runs unasked in every
   mode, even if it starts processes; one declared high is asked for unless access is full; one declared forbidden never runs.
   */
  lemma DeclaredToolsAreJudgedByLevel(m: PermissionMode, r: RiskLevel, e: SideEffect, f: SideEffect, requiresApproval: bool)
    ensures var d := Decide(m, ResolveRiskLevel(Some(r), e, requiresApproval), requiresApproval);
      && d == Decide(m, ResolveRiskLevel(Some(r), f, requiresApproval), requiresApproval)
      && (r == Low && !requiresApproval ==> d == Allow)
      && (r == High ==> (d == Allow <==> m == FullAccess))
      && (d == Block <==> r == Forbidden)
  {
  }
}
