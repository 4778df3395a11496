/** The stages of a call of src/extensions/lifecycle.ts: the first that fails ends it. */
module LifecycleStages {
  import opened Text
  import opened Lifecycle
  import opened LifecycleGuards

  // External calls in their order. Each may fail: then the call reports `failure` and the row is at `back`; when it
  // succeeds the row is at `to`, and the next one follows. None stands for the status the row had.
  datatype Plan =
    | End
    | Then(ok: bool, failure: Outcome, to: Option<Status>, back: Option<Status>, rest: Plan)

  function Check(ok: bool, failure: Outcome, rest: Plan): Plan {
    Then(ok, failure, None, None, rest)
  }

  function Move(ok: bool, failure: Outcome, to: Status, rest: Plan): Plan {
    Then(ok, failure, Some(to), None, rest)
  }

  function Reported(p: Plan): Outcome {
    if p.End? then Done else if !p.ok then p.failure else Reported(p.rest)
  }

  function Or(o: Option<Status>, s: Status): Status {
    match o case None => s case Some(t) => t
  }

  function Reached(s: Status, p: Plan): Status
    decreases p
  {
    if p.End? then s else if !p.ok then Or(p.back, s) else Reached(Or(p.to, s), p.rest)
  }

  // ---------------------------------------------------------------- replace

  function CleanupPlan(env: ReplaceEnv): Plan {
    Check(env.revokeRetiring.Revoked?, CleanupFailed,
      Check(env.auditRevoked, Threw,
        Move(env.finish, Threw, Active,
          Check(env.auditActive, Threw, End))))
  }

  function SwitchPlan(env: ReplaceEnv): Plan {
    var undone := env.revokePending.Revoked? && env.rollback;
    Then(env.prepare, if undone then RolledBack else RollbackFailed, None, if undone then Some(Active) else None,
      Check(env.auditReady, Threw,
        Move(env.commit, if env.undoBoundary then CommitFailed else CommitAndUndoFailed, CleanupPending,
          Check(env.auditSwitched, Threw, CleanupPlan(env)))))
  }

  function StagePlan(env: ReplaceEnv): Plan {
    Check(env.provision.Provisioned?, ProvisionFailed,
      Move(env.begin, if env.revokeStaged.Revoked? then BeginRejected else BeginRejectedCleanupFailed, Replacing,
        Check(env.auditDenied, Threw, SwitchPlan(env))))
  }

  function ReplacePlan(s: Status, env: ReplaceEnv): Plan {
    if s == CleanupPending then CleanupPlan(env)
    else Check(env.knownProvider, UnknownProvider, if s == Active then StagePlan(env) else SwitchPlan(env))
  }

  // The last two calls of both: the move to the final status, and its audit.
  lemma LastCalls(s: Status, move: bool, to: Status, audit: bool)
    ensures var p := Move(move, Threw, to, Check(audit, Threw, End));
            Reported(p) == (if move && audit then Done else Threw) && Reached(s, p) == if move then to else s
  {
    var q := Check(audit, Threw, End);
    assert Reported(End) == Done && Reached(to, End) == to;
    assert Reported(q) == (if audit then Done else Threw) && Reached(to, q) == to;
  }

  lemma CleanupGoes(w: World, env: ReplaceEnv)
    requires w.row.status == CleanupPending && w.row.retiring.Some?
    ensures var (o, w') := FinishCleanup(w, env);
            o == Reported(CleanupPlan(env)) && w'.row.status == Reached(CleanupPending, CleanupPlan(env))
  {
    LastCalls(CleanupPending, env.finish, Active, env.auditActive);
  }

  lemma SwitchGoes(w: World, env: ReplaceEnv)
    requires Inv(w) && w.row.status == Replacing
    ensures var (o, w') := Switch(w, w.row.revision, env);
            o == Reported(SwitchPlan(env)) && w'.row.status == Reached(Replacing, SwitchPlan(env))
  {
    var p := SwitchPlan(env).rest.rest;
    hide CleanupPlan, FinishCleanup;
    assert Reported(p) == if !env.commit then p.failure else if env.auditSwitched then Reported(p.rest.rest) else Threw;
    assert Reached(Replacing, p) ==
           if !env.commit then Replacing
           else if env.auditSwitched then Reached(CleanupPending, p.rest.rest) else CleanupPending;
    if env.commit { CleanupGoes(CommitReplacement(w, w.row.revision, true).value, env); }
  }

  // A replace that passes the checks makes its external calls in this order, reports the first that fails, and leaves
  // the row at the status it had come to; when none fails it is done and the row active.
  lemma ReplaceGoes(w: World, actor: string, env: ReplaceEnv)
    requires Inv(w) && Authorized(w.row, w.row.revision, actor, env.approved) && Replaceable(w.row.status)
    ensures var (o, w') := Replace(w, w.row.revision, actor, env);
            var p := ReplacePlan(w.row.status, env);
            o == Reported(p) && w'.row.status == Reached(w.row.status, p)
  {
    hide SwitchPlan, CleanupPlan, Switch, FinishCleanup;
    match w.row.status {
      case CleanupPending => CleanupGoes(w, env);
      case Replacing => SwitchGoes(w, env);
      case _ => StageGoes(w, actor, env);
    }
  }

  lemma StageGoes(w: World, actor: string, env: ReplaceEnv)
    requires Inv(w) && Authorized(w.row, w.row.revision, actor, env.approved) && w.row.status == Active
    ensures var (o, w') := Replace(w, w.row.revision, actor, env);
            var p := ReplacePlan(Active, env);
            o == Reported(p) && w'.row.status == Reached(Active, p)
  {
    hide SwitchPlan, CleanupPlan, Switch, FinishCleanup;
    var p := StagePlan(env);
    var q := p.rest;
    assert Reported(q) == if !env.begin then q.failure else if env.auditDenied then Reported(q.rest.rest) else Threw;
    assert Reached(Active, q) ==
           if !env.begin then Active else if env.auditDenied then Reached(Replacing, q.rest.rest) else Replacing;
    var w1 := Provision(w);
    if env.begin {
      var w2 := BeginReplacement(w1, w.row.revision, w.next, true).value;
      assert Inv(w2);
      SwitchGoes(w2, env);
    }
  }

  // ---------------------------------------------------------------- disconnect

  function RevokePlan(env: DisconnectEnv): Plan {
    Check(env.revoke.Revoked?, RevokeFailed,
      Check(env.auditRevoked, Threw,
        Move(env.finish, Threw, Disconnected,
          Check(env.auditDone, Threw, End))))
  }

  function BoundaryPlan(env: DisconnectEnv): Plan {
    Check(env.boundary, BoundaryFailed,
      Check(env.auditCleared, Threw,
        Move(env.toAuthority, Threw, DisconnectingAuthority, RevokePlan(env))))
  }

  function DisconnectPlan(s: Status, env: DisconnectEnv): Plan {
    match s
    case Active =>
      Move(env.begin, BeginRejected, DisconnectingBoundary, Check(env.auditDenied, Threw, BoundaryPlan(env)))
    case DisconnectingBoundary => BoundaryPlan(env)
    case DisconnectingAuthority => RevokePlan(env)
    case _ => End
  }

  lemma RevokeGoes(w: World, env: DisconnectEnv)
    requires w.row.status == DisconnectingAuthority
    ensures var (o, w') := FinishDisconnect(w, env);
            o == Reported(RevokePlan(env)) && w'.row.status == Reached(DisconnectingAuthority, RevokePlan(env))
  {
    LastCalls(DisconnectingAuthority, env.finish, Disconnected, env.auditDone);
  }

  lemma BoundaryGoes(w: World, env: DisconnectEnv)
    requires w.row.status == DisconnectingBoundary
    ensures var (o, w') := ClearBoundary(w, env);
            o == Reported(BoundaryPlan(env)) && w'.row.status == Reached(DisconnectingBoundary, BoundaryPlan(env))
  {
    var p := BoundaryPlan(env).rest.rest;
    hide RevokePlan, FinishDisconnect;
    assert Reported(p) == if env.toAuthority then Reported(p.rest) else Threw;
    assert Reached(DisconnectingBoundary, p) ==
           if env.toAuthority then Reached(DisconnectingAuthority, p.rest) else DisconnectingBoundary;
    if env.toAuthority {
      RevokeGoes(Transition(w, DisconnectingBoundary, DisconnectingAuthority, false, true).value, env);
    }
  }

  // The same for a disconnect; one that is already disconnected has nothing to do.
  lemma DisconnectGoes(w: World, actor: string, env: DisconnectEnv)
    requires Inv(w) && Authorized(w.row, w.row.revision, actor, env.approved)
    requires w.row.status != Replacing && w.row.status != CleanupPending
    ensures var (o, w') := Disconnect(w, w.row.revision, actor, env);
            var p := DisconnectPlan(w.row.status, env);
            o == Reported(p) && w'.row.status == Reached(w.row.status, p)
  {
    match w.row.status {
      case Active => if env.begin { BoundaryGoes(BeginDisconnect(w, w.row.revision, true).value, env); }
      case DisconnectingBoundary => BoundaryGoes(w, env);
      case DisconnectingAuthority => RevokeGoes(w, env);
      case _ =>
    }
    hide BoundaryPlan, RevokePlan, FinishDisconnect;
  }

  // The compare-and-swap of the row: it moves exactly from the expected status, and touches the retiring authority only
  // when asked to.
  lemma TransitionExact(w: World, from: Status, to: Status, clearRetiring: bool, ok: bool)
    ensures var r := Transition(w, from, to, clearRetiring, ok);
            && (r.Some? <==> ok && w.row.status == from)
            && (r.Some? ==>
                  && r.value.row.status == to && r.value.row.(status := from, retiring := w.row.retiring) == w.row
                  && r.value.row.retiring == (if clearRetiring then None else w.row.retiring)
                  && r.value.live == w.live && r.value.next == w.next && r.value.orphans == w.orphans)
  {
  }
}
