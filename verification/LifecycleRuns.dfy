/** Runs of src/extensions/lifecycle.ts: the status automata, retries, the credential ladder, and overlapping calls. */
module LifecycleRuns {
  import opened Text
  import opened Lifecycle

  // ---------------------------------------------------------------- status and revision

  predicate Disconnecting(s: Status) {
    s == DisconnectingBoundary || s == DisconnectingAuthority || s == Disconnected
  }

  // Status only moves along the automata, and a begun disconnect is never taken back.
  lemma StatusMoves(scope: Scope, id: Id, ops: seq<Op>, i: nat, j: nat)
    requires i < j < |Run(Connected(scope, id), ops).trail|
    ensures var t := Run(Connected(scope, id), ops).trail;
            && Edge(t[j - 1], t[j])
            && (Disconnecting(t[i]) ==> t[j] == DisconnectingAuthority || t[j] == Disconnected)
            && t[i] != Disconnected
  {
    RunKeeps(Connected(scope, id), ops);
    StaysDisconnecting(Run(Connected(scope, id), ops).trail, i, j);
  }

  lemma {:induction false} StaysDisconnecting(t: seq<Status>, i: nat, j: nat)
    requires TrailOk(t) && i < j < |t|
    ensures Disconnecting(t[i]) ==> t[j] == DisconnectingAuthority || t[j] == Disconnected
    ensures t[i] != Disconnected
    decreases j - i
  {
    assert Edge(t[i], t[i + 1]) by { assert Edge(t[i + 1 - 1], t[i + 1]); }
    if i + 1 < j { StaysDisconnecting(t, i + 1, j); }
  }

  // The revision counts the switches and the begun disconnects, so a stale call is refused.
  function Bumps(t: seq<Status>): nat {
    if t == [] then 0
    else Bumps(t[..|t| - 1]) + if t[|t| - 1] == CleanupPending || t[|t| - 1] == DisconnectingBoundary then 1 else 0
  }

  predicate Counted(w: World) {
    w.row.revision == 1 + Bumps(w.trail)
  }

  lemma WriteCounts(w: World, row: Row)
    requires Counted(w)
    requires row.revision == w.row.revision
                          + if row.status == CleanupPending || row.status == DisconnectingBoundary then 1 else 0
    ensures Counted(Write(w, row))
  {
    var t := w.trail + [row.status];
    assert t[..|t| - 1] == w.trail;
  }

  lemma ReplaceCounts(w: World, expected: nat, actor: string, env: ReplaceEnv)
    requires Inv(w) && Counted(w)
    ensures Counted(Replace(w, expected, actor, env).1)
  {
    if w.row.status == CleanupPending { CleanupCounts(w, env); }
    if w.row.status == Replacing { SwitchCounts(w, expected, env); }
    if w.row.status == Active {
      var w1 := Provision(w);
      var begun := BeginReplacement(w1, expected, w.next, env.begin);
      if begun.Some? {
        WriteCounts(w1, begun.value.row);
        SwitchCounts(begun.value, expected, env);
      }
    }
  }

  lemma SwitchCounts(w: World, expected: nat, env: ReplaceEnv)
    requires Counted(w)
    ensures Counted(Switch(w, expected, env).1)
  {
    if w.row.pending.Some? && w.row.status == Replacing {
      var w1 := Revoke(w, w.row.pending.value, env.revokePending);
      WriteCounts(w1, w1.row.(status := Active, pending := None));
      var commit := CommitReplacement(w, expected, env.commit);
      if commit.Some? {
        WriteCounts(w, commit.value.row);
        CleanupCounts(commit.value, env);
      }
    }
  }

  lemma CleanupCounts(w: World, env: ReplaceEnv)
    requires Counted(w)
    ensures Counted(FinishCleanup(w, env).1)
  {
    if w.row.retiring.Some? {
      var w1 := Revoke(w, w.row.retiring.value, env.revokeRetiring);
      WriteCounts(w1, w1.row.(status := Active, retiring := None));
    }
  }

  lemma DisconnectCounts(w: World, expected: nat, actor: string, env: DisconnectEnv)
    requires Counted(w)
    ensures Counted(Disconnect(w, expected, actor, env).1)
  {
    var begun := BeginDisconnect(w, expected, env.begin);
    if begun.Some? {
      WriteCounts(w, begun.value.row);
      BoundaryCounts(begun.value, env);
    }
    BoundaryCounts(w, env);
  }

  lemma BoundaryCounts(w: World, env: DisconnectEnv)
    requires Counted(w)
    ensures Counted(ClearBoundary(w, env).1)
  {
    var w1 := Write(w, w.row.(status := DisconnectingAuthority));
    WriteCounts(w, w1.row);
    DoneCounts(w1, env);
    DoneCounts(w, env);
  }

  lemma DoneCounts(w: World, env: DisconnectEnv)
    requires Counted(w)
    ensures Counted(FinishDisconnect(w, env).1)
  {
    var w1 := Revoke(w, w.row.current, env.revoke);
    WriteCounts(w1, w1.row.(status := Disconnected));
  }

  lemma {:induction false} RevisionCounts(w: World, ops: seq<Op>)
    requires Inv(w) && Counted(w)
    ensures Counted(Run(w, ops))
    decreases |ops|
  {
    if ops != [] {
      match ops[0] {
        case ReplaceOp(expected, actor, env) =>
          ReplaceKeeps(w, expected, actor, env);
          ReplaceCounts(w, expected, actor, env);
        case DisconnectOp(expected, actor, env) =>
          DisconnectKeeps(w, expected, actor, env);
          DisconnectCounts(w, expected, actor, env);
      }
      RevisionCounts(Apply(w, ops[0]).1, ops[1..]);
    }
  }

  // ---------------------------------------------------------------- retries

  predicate ReplaceSucceeds(e: ReplaceEnv) {
    && e.approved && e.knownProvider && e.provision.Provisioned? && e.begin && e.auditDenied && e.prepare &&
        e.auditReady && e.commit
    && e.auditSwitched && e.revokeRetiring.Revoked? && e.auditRevoked && e.finish && e.auditActive
  }

  predicate DisconnectSucceeds(e: DisconnectEnv) {
    && e.approved && e.begin && e.auditDenied && e.boundary && e.auditCleared && e.toAuthority && e.revoke.Revoked?
    && e.auditRevoked && e.finish && e.auditDone
  }

  // From every intermediate status of a replacement, one retry at the current revision whose external calls succeed
  // ends it: active on the new authority, the old one revoked. The new one is live exactly if it was before.
  lemma RetryReplace(w: World, actor: string, env: ReplaceEnv)
    requires Inv(w) && Visible(w.row, actor) && ReplaceSucceeds(env)
    requires w.row.status == Replacing || w.row.status == CleanupPending
    ensures var (o, w') := Replace(w, w.row.revision, actor, env);
            && o == Done && w'.row.status == Active && (w'.row.current in w'.live <==> w'.row.current in w.live)
            && if w.row.status == Replacing
               then w'.row.current == w.row.pending.value && w'.row.revision == w.row.revision + 1
                    && w'.live == w.live - {w.row.current}
               else w'.row.current == w.row.current && w'.row.revision == w.row.revision
                    && w'.live == w.live - {w.row.retiring.value}
  {
  }

  lemma RetryDisconnect(w: World, actor: string, env: DisconnectEnv)
    requires Inv(w) && Visible(w.row, actor) && DisconnectSucceeds(env)
    requires Disconnecting(w.row.status)
    ensures var (o, w') := Disconnect(w, w.row.revision, actor, env);
            o == Done && w'.row.status == Disconnected && w'.row.revision == w.row.revision && w'.live <= w.orphans
  {
    DisconnectKeeps(w, w.row.revision, actor, env);
  }

  // ---------------------------------------------------------------- when the current authority is live

  // A call switches to a staged authority that is not live any more. The boundary may prepare one: the 1Password
  // resolver goes by provider and identity key.
  predicate DeadSwitch(w: World, op: Op) {
    && op.ReplaceOp? && w.row.status == Replacing && w.row.pending.Some? && w.row.pending.value !in w.live
    && var env := op.replaceEnv;
       && Refusal(w, op.expected, op.actor, env.approved).None?
       && env.knownProvider && env.prepare && env.auditReady && env.commit
  }

  // However a call fails, it keeps the connection's current authority live, except exactly when it is such a switch.
  lemma CallServesExactly(w: World, op: Op)
    requires Inv(w) && Serving(w)
    ensures Serving(Apply(w, op).1) <==> !DeadSwitch(w, op)
  {
    if op.ReplaceOp? {
      ReplaceServes(w, op.expected, op.actor, op.replaceEnv);
    }
  }

  lemma ReplaceServes(w: World, expected: nat, actor: string, env: ReplaceEnv)
    requires Inv(w) && Serving(w)
    ensures Serving(Replace(w, expected, actor, env).1) <==> !DeadSwitch(w, ReplaceOp(expected, actor, env))
  {
    if w.row.status == Replacing {
      SwitchServes(w, expected, env);
    } else if w.row.status == Active {
      var begun := BeginReplacement(Provision(w), expected, w.next, env.begin);
      if begun.Some? { SwitchServes(begun.value, expected, env); }
    }
  }

  lemma SwitchServes(w: World, expected: nat, env: ReplaceEnv)
    requires Shape(w.row) && w.row.status == Replacing && w.row.current in w.live
    ensures Serving(Switch(w, expected, env).1) <==>
            w.row.pending.value in w.live || !env.prepare || !env.auditReady
            || CommitReplacement(w, expected, env.commit).None?
  {
  }

  // The call gets to preparing the staged authority.
  predicate ReachesPrepare(w: World, expected: nat, actor: string, env: ReplaceEnv) {
    && Refusal(w, expected, actor, env.approved).None? && env.knownProvider
    && (w.row.status == Replacing
        || (w.row.status == Active && env.provision.Provisioned? && env.begin && env.auditDenied))
  }

  // How a staged authority comes to be dead while the row still names it: exactly when preparing fails, the revocation
  // takes effect, and the roll-back does not follow.
  lemma StagedDiesExactly(w: World, expected: nat, actor: string, env: ReplaceEnv)
    requires Inv(w) && (w.row.pending.Some? ==> w.row.pending.value in w.live)
    ensures var w' := Replace(w, expected, actor, env).1;
            w'.row.pending.Some? && w'.row.pending.value !in w'.live
            <==> ReachesPrepare(w, expected, actor, env) && !env.prepare
                 && (env.revokePending.RevokedThenFailed? || (env.revokePending.Revoked? && !env.rollback))
  {
  }

  predicate SomeDeadSwitch(w: World, ops: seq<Op>)
    decreases |ops|
  {
    ops != [] && (DeadSwitch(w, ops[0]) || SomeDeadSwitch(Apply(w, ops[0]).1, ops[1..]))
  }

  // Over any run: the current authority is live in every state up to a disconnect exactly when no call is such a
  // switch.
  lemma {:induction false} CurrentStaysLive(w: World, ops: seq<Op>)
    requires Inv(w) && Serving(w)
    ensures (forall i :: 0 <= i <= |ops| ==> Serving(Run(w, ops[..i]))) <==> !SomeDeadSwitch(w, ops)
    decreases |ops|
  {
    if ops == [] {
      assert ops[..0] == [];
    } else {
      var w1 := Apply(w, ops[0]).1;
      CallServesExactly(w, ops[0]);
      match ops[0] {
        case ReplaceOp(expected, actor, env) => ReplaceKeeps(w, expected, actor, env);
        case DisconnectOp(expected, actor, env) => DisconnectKeeps(w, expected, actor, env);
      }
      hide Inv, Serving, DeadSwitch, Apply;
      var rest := ops[1..];
      assert Run(w, ops[..0]) == w && Run(w, ops[..1]) == w1 by { assert ops[..1] == [ops[0]] && [ops[0]][1..] == []; }
      forall i | 0 <= i <= |rest| ensures Run(w, ops[..i + 1]) == Run(w1, rest[..i]) {
        assert ops[..i + 1][1..] == rest[..i];
      }
      if !DeadSwitch(w, ops[0]) {
        CurrentStaysLive(w1, rest);
        forall i | 0 < i <= |ops| ensures Run(w, ops[..i]) == Run(w1, rest[..i - 1]) {}
      }
    }
  }

  // The failing case: preparing fails, the staged authority is revoked, and rolling the row back fails. The call
  // reports that and asks for a retry at the same revision. The retry succeeds, and the connection is active on the
  // revoked authority: nothing it stands for is live.
  lemma RetryAfterFailedRollBack(w: World, actor: string, first: ReplaceEnv, retry: ReplaceEnv)
    requires Inv(w) && Visible(w.row, actor) && w.row.status == Active && ReplaceSucceeds(retry)
    requires ReplaceSucceeds(first.(prepare := true)) && !first.prepare
    requires first.revokePending.Revoked? && !first.rollback
    ensures var (o1, w1) := Replace(w, w.row.revision, actor, first);
            var (o2, w2) := Replace(w1, w.row.revision, actor, retry);
            && o1 == RollbackFailed && o2 == Done
            && w2.row.status == Active && w2.row.current !in w2.live && w2.live <= w2.orphans
  {
    ReplaceKeeps(w, w.row.revision, actor, first);
    var w1 := Replace(w, w.row.revision, actor, first).1;
    assert w1.row == w.row.(status := Replacing, pending := Some(w.next)) && w1.live == w.live;
    ReplaceKeeps(w1, w.row.revision, actor, retry);
  }

  // ---------------------------------------------------------------- the credential ladder

  datatype CallScope = ForOrg | ForMe | Auto

  datatype Resolution = Credential(row: Row) | Ask | NotConnected

  // `org` and `personal` are what the registry finds for the provider and the caller.
  function ResolveCredential(callScope: CallScope, orgAllowed: bool, org: Option<Row>,
          personal: Option<Row>): Resolution
  {
    match callScope
    case ForOrg => if org.None? || org.value.status != Active then NotConnected else Credential(org.value)
    case ForMe => if personal.None? || personal.value.status != Active then NotConnected else Credential(personal.value)
    case Auto =>
      if orgAllowed && org.Some? && org.value.status == Active then Credential(org.value)
      else if personal.Some? && personal.value.status == Active then Credential(personal.value)
      else Ask
  }

  function FindOrg(row: Row): Option<Row> {
    if row.scope.Org? then Some(row) else None
  }

  function FindPersonal(row: Row, caller: string): Option<Row> {
    if row.scope == Personal(caller) then Some(row) else None
  }

  // After any run, the ladder hands out the connection exactly while it is active and in scope.
  lemma LadderExact(scope: Scope, id: Id, ops: seq<Op>, callScope: CallScope, caller: string, orgAllowed: bool)
    ensures var row := Run(Connected(scope, id), ops).row;
            var r := ResolveCredential(callScope, orgAllowed, FindOrg(row), FindPersonal(row, caller));
            && (r == Credential(row) <==>
                  row.status == Active && if scope.Org? then callScope.ForOrg? || (callScope.Auto? && orgAllowed)
                                          else scope.owner == caller && !callScope.ForOrg?)
            && (r.Credential? ==> r.row == row)
  {
    ScopeFixed(Connected(scope, id), ops);
  }

  // The status trail between a begin, at place i, and the transition that ended it, at place j.
  predicate Ends(t: seq<Status>, i: nat, j: nat) {
    && i < j < |t| && t[j] == Active && (t[j - 1] == Replacing || t[j - 1] == CleanupPending)
    && forall k :: i <= k < j ==> t[k] != Active
  }

  // So from a begin on, the ladder hands out the connection only once a roll-back or the last transition of that
  // replacement has ended it; and from the begin of a disconnect on, never again.
  lemma NotHandedOutBetween(scope: Scope, id: Id, ops: seq<Op>, callScope: CallScope, caller: string, orgAllowed: bool,
          i: nat)
    requires 0 < i < |Run(Connected(scope, id), ops).trail|
    requires var t := Run(Connected(scope, id), ops).trail; t[i - 1] == Active
    ensures var w := Run(Connected(scope, id), ops);
            var r := ResolveCredential(callScope, orgAllowed, FindOrg(w.row), FindPersonal(w.row, caller));
            && (w.trail[i] == Replacing || w.trail[i] == DisconnectingBoundary)
            && (r.Credential? ==> w.trail[i] == Replacing && exists j :: Ends(w.trail, i, j))
  {
    var w := Run(Connected(scope, id), ops);
    var t := w.trail;
    RunKeeps(Connected(scope, id), ops);
    assert TrailOk(t) && t != [] && t[|t| - 1] == w.row.status;
    LadderExact(scope, id, ops, callScope, caller, orgAllowed);
    if w.row.status == Active {
      if i < |t| - 1 { StatusMoves(scope, id, ops, i, |t| - 1); }
      hide Run, Inv;
      var j := FirstActive(t, i);
      BackToActive(t, i, j);
    }
  }

  lemma BackToActive(t: seq<Status>, i: nat, j: nat)
    requires TrailOk(t) && 0 < i <= j < |t| && t[i - 1] == Active && t[j] == Active
    requires forall k :: i <= k < j ==> t[k] != Active
    ensures Ends(t, i, j)
  {
    assert Edge(t[i - 1], t[i]) && Edge(t[j - 1], t[j]);
  }

  lemma {:induction false} FirstActive(t: seq<Status>, i: nat) returns (j: nat)
    requires i < |t| && t[|t| - 1] == Active
    ensures i <= j < |t| && t[j] == Active && forall k :: i <= k < j ==> t[k] != Active
    decreases |t| - i
  {
    if t[i] == Active { j := i; } else { j := FirstActive(t, i + 1); }
  }

  lemma {:induction false} ScopeFixed(w: World, ops: seq<Op>)
    ensures Run(w, ops).row.scope == w.row.scope
    decreases |ops|
  {
    if ops != [] {
      match ops[0] {
        case ReplaceOp(expected, actor, env) => ReplaceScope(w, expected, actor, env);
        case DisconnectOp(expected, actor, env) => DisconnectScope(w, expected, actor, env);
      }
      hide Replace;
      hide Disconnect;
      ScopeFixed(Apply(w, ops[0]).1, ops[1..]);
    }
  }

  lemma ReplaceScope(w: World, expected: nat, actor: string, env: ReplaceEnv)
    ensures Replace(w, expected, actor, env).1.row.scope == w.row.scope
  {
  }

  lemma DisconnectScope(w: World, expected: nat, actor: string, env: DisconnectEnv)
    ensures Disconnect(w, expected, actor, env).1.row.scope == w.row.scope
  {
  }

  // ---------------------------------------------------------------- overlapping calls

  // The last transition of a replacement keeps every authority referenced exactly when the retiring authority the
  // row names is no longer live.
  lemma FinishKeepsExactly(w: World)
    requires Inv(w) && w.row.status == CleanupPending
    ensures Inv(Transition(w, CleanupPending, Active, true, true).value)
            <==> w.row.retiring.value !in w.live || w.row.retiring.value in w.orphans
  {
    var w1 := Transition(w, CleanupPending, Active, true, true).value;
    if w.row.retiring.value !in w.live || w.row.retiring.value in w.orphans { WriteKeeps(w, w1.row); }
  }

  // One of the two ways in which overlapping calls lose an authority; LifecycleOverlap.dfy has both, and when exactly a
  // step does. A transition checks the status and not the revision. Call A revokes the retiring authority; a second
  // call finishes the same cleanup and a third replaces the connection again up to a failed cleanup; A's transition
  // then drops the new retiring authority, live and unreferenced.
  lemma OverlapStrandsAuthority(w: World, actor: string, second: ReplaceEnv, third: ReplaceEnv)
    requires Inv(w) && w.row.status == CleanupPending && Visible(w.row, actor) && w.row.current in w.live
    requires ReplaceSucceeds(second) && ReplaceSucceeds(third.(revokeRetiring := Revoked))
    requires third.revokeRetiring.NotRevoked?
    ensures var a1 := Revoke(w, w.row.retiring.value, Revoked);
            var w2 := Replace(a1, a1.row.revision, actor, second).1;
            var w3 := Replace(w2, w2.row.revision, actor, third).1;
            var a2 := Transition(w3, CleanupPending, Active, true, true);
            a2.Some? && w.row.current in a2.value.live && w.row.current !in Held(a2.value.row) && !Inv(a2.value)
  {
    RevokeKeeps(w, w.row.retiring.value, Revoked);
    var a1 := Revoke(w, w.row.retiring.value, Revoked);
    ReplaceKeeps(a1, a1.row.revision, actor, second);
  }
}
