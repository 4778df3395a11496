/** A call of src/extensions/lifecycle.ts that runs alone, step by step, does what it does in one go. */
module OverlapAlone {
  import opened Text
  import opened Lifecycle
  import opened LifecycleGuards
  import opened LifecycleOverlap

  function Went(ok: bool): Io {
    if ok then Ok else Fails
  }

  function Took(r: Revocation): Io {
    match r
    case Revoked => Ok
    case RevokedThenFailed => ThenFails
    case NotRevoked => Fails
  }

  // How the thing that a replacing call awaits ends.
  function ReplaceIo(c: Call, env: ReplaceEnv): Io {
    match c
    case Provisioning(_) =>
      (match env.provision
       case Provisioned => Ok
       case ProvisionedThenFailed => ThenFails
       case NotProvisioned => Fails)
    case Beginning(_, _) => Went(env.begin)
    case TakingBack(_) => Took(env.revokeStaged)
    case Preparing(_, _) => Went(env.prepare)
    case Undoing(_, _) => Took(env.revokePending)
    case RollingBack(_, _) => Went(env.rollback)
    case Committing(_, _) => Went(env.commit)
    case RevokingOld(_) => Took(env.revokeRetiring)
    case _ => Went(env.finish)
  }

  function DisconnectIo(c: Call, env: DisconnectEnv): Io {
    match c
    case BeginningDisconnect(_) => Went(env.begin)
    case Clearing => Went(env.boundary && env.toAuthority)
    case RevokingCurrent(_) => Took(env.revoke)
    case _ => Went(env.finish)
  }

  // How many steps a call has left at most.
  function Left(c: Call): nat {
    match c
    case Provisioning(_) => 6
    case Beginning(_, _) => 5
    case Preparing(_, _) => 4
    case Undoing(_, _) => 3
    case Committing(_, _) => 3
    case RevokingOld(_) => 2
    case BeginningDisconnect(_) => 4
    case Clearing => 3
    case RevokingCurrent(_) => 2
    case _ => 1
  }

  lemma StepsRunOut(w: World, c: Call, io: Io)
    ensures var next := Act(w, c, io).1; next.Some? ==> Left(next.value) < Left(c)
  {
  }

  // The call taken to its end with nothing else in between.
  function ReplaceAlone(w: World, call: Option<Call>, env: ReplaceEnv): World
    decreases if call.None? then 0 else Left(call.value)
  {
    match call
    case None => w
    case Some(c) =>
      StepsRunOut(w, c, ReplaceIo(c, env));
      var (w', next) := Act(w, c, ReplaceIo(c, env));
      ReplaceAlone(w', next, env)
  }

  function DisconnectAlone(w: World, call: Option<Call>, env: DisconnectEnv): World
    decreases if call.None? then 0 else Left(call.value)
  {
    match call
    case None => w
    case Some(c) =>
      StepsRunOut(w, c, DisconnectIo(c, env));
      var (w', next) := Act(w, c, DisconnectIo(c, env));
      DisconnectAlone(w', next, env)
  }

  // ---------------------------------------------------------------- replace

  lemma AloneStep(w: World, c: Call, env: ReplaceEnv)
    ensures var (w', next) := Act(w, c, ReplaceIo(c, env));
            ReplaceAlone(w, Some(c), env) == ReplaceAlone(w', next, env)
    ensures ReplaceAlone(w, None, env) == w
  {
  }

  lemma CleanupAlone(w: World, env: ReplaceEnv)
    requires w.row.status == CleanupPending && w.row.retiring.Some? && env.auditRevoked
    ensures ReplaceAlone(w, Some(RevokingOld(w.row.retiring.value)), env) == FinishCleanup(w, env).1
  {
    hide ReplaceAlone;
    var c := RevokingOld(w.row.retiring.value);
    AloneStep(w, c, env);
    var (w1, next) := Act(w, c, ReplaceIo(c, env));
    if next.Some? { AloneStep(w1, next.value, env); }
    AloneStep(Act(w1, Finishing(w.row.retiring.value), Went(env.finish)).0, c, env);
    AloneStep(w1, c, env);
  }

  lemma SwitchAlone(w: World, env: ReplaceEnv)
    requires w.row.status == Replacing && w.row.pending.Some?
    requires env.auditReady && env.auditSwitched && env.auditRevoked
    ensures ReplaceAlone(w, Some(Preparing(w.row.revision, w.row.pending.value)), env)
         == Switch(w, w.row.revision, env).1
  {
    hide ReplaceAlone;
    var r, p := w.row.revision, w.row.pending.value;
    AloneStep(w, Preparing(r, p), env);
    if env.prepare {
      AloneStep(w, Committing(r, p), env);
      var commit := CommitReplacement(w, r, env.commit);
      if commit.Some? { CleanupAlone(commit.value, env); }
    } else {
      AloneStep(w, Undoing(r, p), env);
      var w1 := Revoke(w, p, env.revokePending);
      AloneStep(w1, RollingBack(r, p), env);
      AloneStep(Act(w1, RollingBack(r, p), Went(env.rollback)).0, Clearing, env);
    }
  }

  // Alone, and with its audits written, a replacing call reaches the world that the whole call does.
  lemma ReplacesAlone(w: World, actor: string, env: ReplaceEnv)
    requires Shape(w.row) && Authorized(w.row, w.row.revision, actor, env.approved) && env.knownProvider
    requires env.auditDenied && env.auditReady && env.auditSwitched && env.auditRevoked
    ensures ReplaceAlone(w, ReplaceFrom(w.row), env) == Replace(w, w.row.revision, actor, env).1
  {
    hide ReplaceAlone, Switch, FinishCleanup;
    var r := w.row.revision;
    AloneStep(w, Clearing, env);
    match w.row.status {
      case CleanupPending => CleanupAlone(w, env);
      case Replacing => SwitchAlone(w, env);
      case Active => StageAlone(w, env);
      case _ =>
    }
  }

  lemma StageAlone(w: World, env: ReplaceEnv)
    requires w.row.status == Active && env.auditReady && env.auditSwitched && env.auditRevoked
    ensures ReplaceAlone(w, Some(Provisioning(w.row.revision)), env) ==
            match env.provision
            case NotProvisioned => w
            case ProvisionedThenFailed => Provision(w).(orphans := w.orphans + {w.next})
            case Provisioned =>
              var w1 := Provision(w);
              if env.begin then Switch(BeginReplacement(w1, w.row.revision, w.next, true).value, w.row.revision, env).1
              else
                var w2 := Revoke(w1, w.next, env.revokeStaged);
                if env.revokeStaged.NotRevoked? then w2.(orphans := w2.orphans + {w.next}) else w2
  {
    hide ReplaceAlone, Switch;
    var r, id, w1 := w.row.revision, w.next, Provision(w);
    AloneStep(w, Provisioning(r), env);
    AloneStep(w1, Beginning(r, id), env);
    AloneStep(w1.(orphans := w1.orphans + {id}), Clearing, env);
    if env.provision.Provisioned? {
      if env.begin {
        SwitchAlone(BeginReplacement(w1, r, id, true).value, env);
      } else {
        AloneStep(w1, TakingBack(id), env);
        AloneStep(Act(w1, TakingBack(id), Took(env.revokeStaged)).0, Clearing, env);
      }
    }
  }

  // ---------------------------------------------------------------- disconnect

  lemma DisconnectStep(w: World, c: Call, env: DisconnectEnv)
    ensures var (w', next) := Act(w, c, DisconnectIo(c, env));
            DisconnectAlone(w, Some(c), env) == DisconnectAlone(w', next, env)
    ensures DisconnectAlone(w, None, env) == w
  {
  }

  lemma RevokeAlone(w: World, env: DisconnectEnv)
    requires w.row.status == DisconnectingAuthority && env.auditRevoked
    ensures DisconnectAlone(w, Some(RevokingCurrent(w.row.current)), env) == FinishDisconnect(w, env).1
  {
    hide DisconnectAlone;
    var id := w.row.current;
    DisconnectStep(w, RevokingCurrent(id), env);
    var w1 := Revoke(w, id, env.revoke);
    DisconnectStep(w1, Disconnecting(id), env);
    DisconnectStep(Act(w1, Disconnecting(id), Went(env.finish)).0, Clearing, env);
  }

  lemma ClearAlone(w: World, env: DisconnectEnv)
    requires w.row.status == DisconnectingBoundary && env.auditCleared && env.auditRevoked
    ensures DisconnectAlone(w, Some(Clearing), env) == ClearBoundary(w, env).1
  {
    hide DisconnectAlone, FinishDisconnect;
    DisconnectStep(w, Clearing, env);
    var (w1, next) := Act(w, Clearing, DisconnectIo(Clearing, env));
    if next.Some? { RevokeAlone(w1, env); }
  }

  // The same for a disconnecting call.
  lemma DisconnectsAlone(w: World, actor: string, env: DisconnectEnv)
    requires Authorized(w.row, w.row.revision, actor, env.approved)
    requires env.auditDenied && env.auditCleared && env.auditRevoked
    ensures DisconnectAlone(w, DisconnectFrom(w.row), env) == Disconnect(w, w.row.revision, actor, env).1
  {
    hide DisconnectAlone, FinishDisconnect;
    DisconnectStep(w, Clearing, env);
    match w.row.status {
      case Active =>
        DisconnectStep(w, BeginningDisconnect(w.row.revision), env);
        var begun := BeginDisconnect(w, w.row.revision, env.begin);
        if begun.Some? { ClearAlone(begun.value, env); }
      case DisconnectingBoundary => ClearAlone(w, env);
      case DisconnectingAuthority => RevokeAlone(w, env);
      case _ =>
    }
  }
}
