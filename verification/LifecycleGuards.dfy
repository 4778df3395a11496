/** Who may change a connection: the checks of src/extensions/lifecycle.ts. */
module LifecycleGuards {
  import opened Text
  import opened Lifecycle
  import opened LifecycleRuns

  // A caller sees the connections of the organization and its own.
  predicate Hidden(row: Row, actor: string) {
    row.scope.Personal? && row.scope.owner != actor
  }

  // A call passes the checks: its caller sees the connection, at its revision, and a change to a connection of the
  // organization was approved.
  predicate Authorized(row: Row, expected: nat, actor: string, approved: bool) {
    !Hidden(row, actor) && row.revision == expected && (row.scope.Personal? || approved)
  }

  // The statuses from which a replacement can start or go on.
  predicate Replaceable(s: Status) {
    s == Active || s == Replacing || s == CleanupPending
  }

  // A replace that does not pass the checks says why, in this order, and changes nothing; one that passes is never
  // refused for those reasons.
  lemma ReplaceChecks(w: World, expected: nat, actor: string, env: ReplaceEnv)
    ensures var (o, w') := Replace(w, expected, actor, env);
            && (o.NotFound? <==> Hidden(w.row, actor))
            && (o.StaleRevision? <==> !Hidden(w.row, actor) && w.row.revision != expected)
            && (o.Denied? <==>
                !Hidden(w.row, actor) && w.row.revision == expected && w.row.scope.Org? && !env.approved)
            && (!Authorized(w.row, expected, actor, env.approved) ==> w' == w && o != Done)
            && (Authorized(w.row, expected, actor, env.approved) ==>
                (o.WrongStatus? <==> !Replaceable(w.row.status))
                && (o.UnknownProvider? <==>
                    Replaceable(w.row.status) && w.row.status != CleanupPending && !env.knownProvider))
            && (o.WrongStatus? || o.UnknownProvider? ==> w' == w)
            && (o.ProvisionFailed? && env.provision.NotProvisioned? ==> w' == w)
  {
  }

  // The same for a disconnect. One that is already disconnected is done.
  lemma DisconnectChecks(w: World, expected: nat, actor: string, env: DisconnectEnv)
    ensures var (o, w') := Disconnect(w, expected, actor, env);
            && (o.NotFound? <==> Hidden(w.row, actor))
            && (o.StaleRevision? <==> !Hidden(w.row, actor) && w.row.revision != expected)
            && (o.Denied? <==>
                !Hidden(w.row, actor) && w.row.revision == expected && w.row.scope.Org? && !env.approved)
            && (!Authorized(w.row, expected, actor, env.approved) ==> w' == w && o != Done)
            && (Authorized(w.row, expected, actor, env.approved) ==>
                (o.WrongStatus? <==> w.row.status == Replacing || w.row.status == CleanupPending)
                && (w.row.status == Disconnected ==> o == Done))
            && (o.WrongStatus? || w.row.status == Disconnected ==> w' == w)
  {
  }

  predicate MayChange(w: World, op: Op) {
    match op
    case ReplaceOp(expected, actor, env) => Authorized(w.row, expected, actor, env.approved)
    case DisconnectOp(expected, actor, env) => Authorized(w.row, expected, actor, env.approved)
  }

  // Over any run, each call that changed the connection or an authority was visible to its caller, at the revision the
  // caller expected, and approved or personal.
  lemma ChangesAuthorized(scope: Scope, id: Id, ops: seq<Op>, i: nat)
    requires i < |ops|
    ensures var w, w' := Run(Connected(scope, id), ops[..i]), Run(Connected(scope, id), ops[..i + 1]);
            w' != w ==> MayChange(w, ops[i]) && (scope.Personal? ==> ops[i].actor == scope.owner)
  {
    var w := Run(Connected(scope, id), ops[..i]);
    assert ops[..i + 1] == ops[..i] + [ops[i]];
    RunOnce(Connected(scope, id), ops[..i], ops[i]);
    ScopeFixed(Connected(scope, id), ops[..i]);
    hide Run;
    match ops[i] {
      case ReplaceOp(expected, actor, env) => ReplaceChecks(w, expected, actor, env);
      case DisconnectOp(expected, actor, env) => DisconnectChecks(w, expected, actor, env);
    }
  }

  lemma {:induction false} RunOnce(w: World, ops: seq<Op>, op: Op)
    ensures Run(w, ops + [op]) == Apply(Run(w, ops), op).1
    decreases |ops|
  {
    hide Apply;
    if ops == [] {
      assert ops + [op] == [op] && [op][1..] == [];
    } else {
      assert (ops + [op])[1..] == ops[1..] + [op];
      RunOnce(Apply(w, ops[0]).1, ops[1..], op);
    }
  }

  // ---------------------------------------------------------------- what a call that is done has done

  // A replace that reports success has ended a replacement: the row is active with nothing staged or retiring, and the
  // authority that was replaced is revoked. From an active row the authority in use is a new one.
  lemma ReplaceDone(w: World, expected: nat, actor: string, env: ReplaceEnv)
    requires Inv(w) && Replace(w, expected, actor, env).0 == Done
    ensures var w' := Replace(w, expected, actor, env).1;
            && w'.row.status == Active && w'.row.pending.None? && w'.row.retiring.None?
            && w'.row.scope == w.row.scope
            && match w.row.status
               case Active =>
                 && w'.row.current == w.next && w'.row.revision == expected + 1
                 && w'.live == w.live - {w.row.current} + {w.next}
               case Replacing =>
                 && w.row.pending == Some(w'.row.current) && w'.row.revision == expected + 1
                 && w'.live == w.live - {w.row.current}
               case _ =>
                 && w'.row.current == w.row.current && w'.row.revision == expected
                 && w'.live == w.live - Ids(w.row.retiring)
  {
  }

  // A disconnect that reports success leaves the row disconnected and its authority revoked.
  lemma DisconnectDone(w: World, expected: nat, actor: string, env: DisconnectEnv)
    requires Inv(w) && Disconnect(w, expected, actor, env).0 == Done
    ensures var w' := Disconnect(w, expected, actor, env).1;
            && w'.row.status == Disconnected && w'.row.current == w.row.current && w'.row.scope == w.row.scope
            && w'.row.revision == expected + (if w.row.status == Active then 1 else 0)
            && w'.live == (if w.row.status == Disconnected then w.live else w.live - {w.row.current})
  {
  }

  // From an active connection a replace whose external calls all succeed is done, and so is a disconnect.
  lemma CallsSucceed(w: World, actor: string, env: ReplaceEnv, off: DisconnectEnv)
    requires Inv(w) && w.row.status == Active && !Hidden(w.row, actor)
    requires ReplaceSucceeds(env) && DisconnectSucceeds(off)
    ensures Replace(w, w.row.revision, actor, env).0 == Done
    ensures Disconnect(w, w.row.revision, actor, off).0 == Done
  {
  }

  // ---------------------------------------------------------------- the credential ladder

  predicate Usable(row: Option<Row>) {
    row.Some? && row.value.status == Active
  }

  // The ladder hands out the organization's connection only while it is active, asked for by name or allowed; the
  // caller's own only while it is active, asked for by name, or in place of the organization's. It asks only when it
  // may choose and can use neither, and reports nothing to be connected only when told which one to use.
  lemma LadderChoice(callScope: CallScope, orgAllowed: bool, org: Option<Row>, personal: Option<Row>)
    ensures var r := ResolveCredential(callScope, orgAllowed, org, personal);
            var mayOrg := callScope.ForOrg? || (callScope.Auto? && orgAllowed);
            var useOrg := mayOrg && Usable(org);
            var useOwn := !callScope.ForOrg? && Usable(personal) && !useOrg;
            && (r.Credential? <==> useOrg || useOwn)
            && (useOrg ==> r.row == org.value) && (useOwn ==> r.row == personal.value)
            && (r.Ask? <==> callScope.Auto? && !useOrg && !useOwn)
  {
  }
}
