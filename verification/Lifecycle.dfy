/** Replacing and disconnecting a connection: src/extensions/lifecycle.ts. */
module Lifecycle {
  // The store's compare-and-swap updates are those of src/store/db.ts. Every external call may fail, and its outcome is
  // an input. A rejected audit or store call outside a `try` ends the call where it stands, which is also what a crash
  // there leaves behind.

  import opened Text

  datatype Status =
    | Active
    | Replacing
    | CleanupPending
    | DisconnectingBoundary
    | DisconnectingAuthority
    | Disconnected

  datatype Scope = Org | Personal(owner: string)

  // An authority is a broker credential id.
  type Id = nat

  datatype Row = Row(scope: Scope, status: Status, revision: nat, current: Id, pending: Option<Id>,
          retiring: Option<Id>)

  // `live`: authorities provisioned and not revoked. `orphans`: those whose provisioning answered with an error, and
  // those a rejected begin could not take back.
  // `trail`: every status the row has had, oldest first.
  datatype World = World(row: Row, live: set<Id>, next: Id, orphans: set<Id>, trail: seq<Status>)

  // ---------------------------------------------------------------- the store

  function Write(w: World, row: Row): World {
    w.(row := row, trail := w.trail + [row.status])
  }

  // `ok` says whether the store could be reached; a failed update changes nothing.
  function BeginReplacement(w: World, expected: nat, id: Id, ok: bool): Option<World> {
    if ok && w.row.revision == expected && w.row.status == Active
    then Some(Write(w, w.row.(status := Replacing, pending := Some(id)))) else None
  }

  function CommitReplacement(w: World, expected: nat, ok: bool): Option<World> {
    if ok && w.row.revision == expected && w.row.status == Replacing && w.row.pending.Some?
    then Some(Write(w, w.row.(status := CleanupPending, revision := w.row.revision + 1, current := w.row.pending.value,
                              retiring := Some(w.row.current), pending := None)))
    else None
  }

  function RollbackReplacement(w: World, expected: nat, ok: bool): Option<World> {
    if ok && w.row.revision == expected && w.row.status == Replacing
    then Some(Write(w, w.row.(status := Active, pending := None))) else None
  }

  function BeginDisconnect(w: World, expected: nat, ok: bool): Option<World> {
    if ok && w.row.revision == expected && w.row.status == Active
    then Some(Write(w, w.row.(status := DisconnectingBoundary, revision := w.row.revision + 1))) else None
  }

  // Checks the source status only: neither the revision nor the authorities.
  function Transition(w: World, from: Status, to: Status, clearRetiring: bool, ok: bool): Option<World> {
    if ok && w.row.status == from
    then Some(Write(w, w.row.(status := to, retiring := if clearRetiring then None else w.row.retiring))) else None
  }

  // ---------------------------------------------------------------- the authority

  datatype Revocation = Revoked | RevokedThenFailed | NotRevoked

  function Revoke(w: World, id: Id, r: Revocation): World {
    if r.NotRevoked? then w else w.(live := w.live - {id})
  }

  // A provisioning may take effect and then fail, for instance when its answer is lost.
  datatype Provisioning = Provisioned | ProvisionedThenFailed | NotProvisioned

  // Every provision makes an id never made before.
  function Provision(w: World): World {
    w.(live := w.live + {w.next}, next := w.next + 1)
  }

  // ---------------------------------------------------------------- calls

  // The outcome of each external call a replacement may make, in call order.
  datatype ReplaceEnv = ReplaceEnv(
    approved: bool, knownProvider: bool, provision: Provisioning, begin: bool, revokeStaged: Revocation,
    auditDenied: bool,
    prepare: bool, revokePending: Revocation, rollback: bool, auditReady: bool, commit: bool, undoBoundary: bool,
    auditSwitched: bool, revokeRetiring: Revocation, auditRevoked: bool, finish: bool, auditActive: bool)

  datatype DisconnectEnv = DisconnectEnv(
    approved: bool, begin: bool, auditDenied: bool, boundary: bool, auditCleared: bool, toAuthority: bool,
    revoke: Revocation, auditRevoked: bool, finish: bool, auditDone: bool)

  datatype Outcome =
    | Done
    | NotFound
    | StaleRevision
    | Denied
    | WrongStatus
    | UnknownProvider
    | ProvisionFailed
    | BeginRejected
    | BeginRejectedCleanupFailed
    | MissingStaged
    | RolledBack
    | RollbackFailed
    | CommitFailed
    | CommitAndUndoFailed
    | MissingRetiring
    | CleanupFailed
    | BoundaryFailed
    | RevokeFailed
    | Threw

  predicate Visible(row: Row, actor: string) {
    row.scope.Org? || row.scope.owner == actor
  }

  // The checks both calls start with.
  function Refusal(w: World, expected: nat, actor: string, approved: bool): Option<Outcome> {
    if !Visible(w.row, actor) then Some(NotFound)
    else if w.row.revision != expected then Some(StaleRevision)
    else if w.row.scope.Org? && !approved then Some(Denied)
    else None
  }

  function FinishCleanup(w: World, env: ReplaceEnv): (Outcome, World) {
    if w.row.retiring.None? then (MissingRetiring, w)
    else
      var w1 := Revoke(w, w.row.retiring.value, env.revokeRetiring);
      if !env.revokeRetiring.Revoked? then (CleanupFailed, w1)
      else if !env.auditRevoked then (Threw, w1)
      else
        match Transition(w1, CleanupPending, Active, true, env.finish)
        case None => (Threw, w1)
        case Some(w2) => (if env.auditActive then Done else Threw, w2)
  }

  // From the staged authority to the switch.
  function Switch(w: World, expected: nat, env: ReplaceEnv): (Outcome, World) {
    if w.row.pending.None? then (MissingStaged, w)
    else if !env.prepare then
      var w1 := Revoke(w, w.row.pending.value, env.revokePending);
      if !env.revokePending.Revoked? then (RollbackFailed, w1)
      else
        match RollbackReplacement(w1, expected, env.rollback)
        case None => (RollbackFailed, w1)
        case Some(w2) => (RolledBack, w2)
    else if !env.auditReady then (Threw, w)
    else
      match CommitReplacement(w, expected, env.commit)
      case None => (if env.undoBoundary then CommitFailed else CommitAndUndoFailed, w)
      case Some(w1) => if env.auditSwitched then FinishCleanup(w1, env) else (Threw, w1)
  }

  function Replace(w: World, expected: nat, actor: string, env: ReplaceEnv): (Outcome, World) {
    var refusal := Refusal(w, expected, actor, env.approved);
    if refusal.Some? then (refusal.value, w)
    else if w.row.status == CleanupPending then FinishCleanup(w, env)
    else if w.row.status != Active && w.row.status != Replacing then (WrongStatus, w)
    else if !env.knownProvider then (UnknownProvider, w)
    else if w.row.status == Replacing then Switch(w, expected, env)
    else if env.provision.NotProvisioned? then (ProvisionFailed, w)
    else if env.provision.ProvisionedThenFailed? then (ProvisionFailed, Provision(w).(orphans := w.orphans + {w.next}))
    else
      var id, w1 := w.next, Provision(w);
      match BeginReplacement(w1, expected, id, env.begin)
      case None =>
        var w2 := Revoke(w1, id, env.revokeStaged);
        (if env.revokeStaged.Revoked? then BeginRejected else BeginRejectedCleanupFailed,
         if env.revokeStaged.NotRevoked? then w2.(orphans := w2.orphans + {id}) else w2)
      case Some(w2) => if env.auditDenied then Switch(w2, expected, env) else (Threw, w2)
  }

  function FinishDisconnect(w: World, env: DisconnectEnv): (Outcome, World) {
    var w1 := Revoke(w, w.row.current, env.revoke);
    if !env.revoke.Revoked? then (RevokeFailed, w1)
    else if !env.auditRevoked then (Threw, w1)
    else
      match Transition(w1, DisconnectingAuthority, Disconnected, false, env.finish)
      case None => (Threw, w1)
      case Some(w2) => (if env.auditDone then Done else Threw, w2)
  }

  function ClearBoundary(w: World, env: DisconnectEnv): (Outcome, World) {
    if w.row.status == DisconnectingBoundary then
      if !env.boundary then (BoundaryFailed, w)
      else if !env.auditCleared then (Threw, w)
      else
        match Transition(w, DisconnectingBoundary, DisconnectingAuthority, false, env.toAuthority)
        case None => (Threw, w)
        case Some(w1) => FinishDisconnect(w1, env)
    else if w.row.status == DisconnectingAuthority then FinishDisconnect(w, env)
    else (WrongStatus, w)
  }

  function Disconnect(w: World, expected: nat, actor: string, env: DisconnectEnv): (Outcome, World) {
    var refusal := Refusal(w, expected, actor, env.approved);
    if refusal.Some? then (refusal.value, w)
    else if w.row.status == Disconnected then (Done, w)
    else if w.row.status == Active then
      match BeginDisconnect(w, expected, env.begin)
      case None => (BeginRejected, w)
      case Some(w1) => if env.auditDenied then ClearBoundary(w1, env) else (Threw, w1)
    else ClearBoundary(w, env)
  }

  // ---------------------------------------------------------------- runs

  datatype Op =
    | ReplaceOp(expected: nat, actor: string, replaceEnv: ReplaceEnv)
    | DisconnectOp(expected: nat, actor: string, disconnectEnv: DisconnectEnv)

  function Apply(w: World, op: Op): (Outcome, World) {
    match op
    case ReplaceOp(expected, actor, env) => Replace(w, expected, actor, env)
    case DisconnectOp(expected, actor, env) => Disconnect(w, expected, actor, env)
  }

  function Run(w: World, ops: seq<Op>): World
    decreases |ops|
  {
    if ops == [] then w else Run(Apply(w, ops[0]).1, ops[1..])
  }

  // The outcomes reported along a run.
  function Outcomes(w: World, ops: seq<Op>): seq<Outcome>
    decreases |ops|
  {
    if ops == [] then [] else var (o, w') := Apply(w, ops[0]); [o] + Outcomes(w', ops[1..])
  }

  // ---------------------------------------------------------------- what every call keeps

  function Ids(o: Option<Id>): set<Id> {
    match o
    case None => {}
    case Some(id) => {id}
  }

  // The authorities the row refers to; a disconnected row stands for none.
  function Held(row: Row): set<Id> {
    if row.status == Disconnected then {} else {row.current} + Ids(row.pending) + Ids(row.retiring)
  }

  predicate Shape(row: Row) {
    && (row.pending.Some? <==> row.status == Replacing)
    && (row.retiring.Some? <==> row.status == CleanupPending)
    && (row.pending.Some? ==> row.pending.value != row.current)
    && (row.retiring.Some? ==> row.retiring.value != row.current)
  }

  predicate Edge(a: Status, b: Status) {
    match a
    case Active => b == Replacing || b == DisconnectingBoundary
    case Replacing => b == Active || b == CleanupPending
    case CleanupPending => b == Active
    case DisconnectingBoundary => b == DisconnectingAuthority
    case DisconnectingAuthority => b == Disconnected
    case Disconnected => false
  }

  predicate TrailOk(trail: seq<Status>) {
    forall i :: 0 < i < |trail| ==> Edge(trail[i - 1], trail[i])
  }

  predicate Inv(w: World) {
    && Shape(w.row)
    && w.live <= Held(w.row) + w.orphans
    && w.orphans !! {w.row.current} + Ids(w.row.pending)
    && (forall id <- w.live :: id < w.next) && (forall id <- w.orphans :: id < w.next)
    && w.row.current < w.next && (w.row.pending.Some? ==> w.row.pending.value < w.next)
    && w.trail != [] && w.trail[|w.trail| - 1] == w.row.status && TrailOk(w.trail)
  }

  lemma WriteKeeps(w: World, row: Row)
    requires Inv(w) && Shape(row) && Edge(w.row.status, row.status)
    requires w.live <= Held(row) + w.orphans && w.orphans !! {row.current} + Ids(row.pending)
    requires row.current < w.next && (row.pending.Some? ==> row.pending.value < w.next)
    ensures Inv(Write(w, row))
  {
    var t := w.trail + [row.status];
    forall i | 0 < i < |t| ensures Edge(t[i - 1], t[i]) {
      if i < |w.trail| { assert t[i] == w.trail[i] && t[i - 1] == w.trail[i - 1]; }
    }
  }

  lemma RevokeKeeps(w: World, id: Id, r: Revocation)
    requires Inv(w)
    ensures Inv(Revoke(w, id, r)) && Revoke(w, id, r).row == w.row && Revoke(w, id, r).orphans == w.orphans
    ensures !r.NotRevoked? ==> id !in Revoke(w, id, r).live
  {
  }

  // The current authority is live, as long as no disconnect has come to revoking it.
  predicate Serving(w: World) {
    w.row.status == DisconnectingAuthority || w.row.status == Disconnected || w.row.current in w.live
  }

  // The outcomes that may hide an authority left behind.
  predicate Strays(o: Outcome) {
    o.BeginRejectedCleanupFailed? || o.ProvisionFailed?
  }

  lemma FinishCleanupKeeps(w: World, env: ReplaceEnv)
    requires Inv(w) && w.row.status == CleanupPending
    ensures var (o, w') := FinishCleanup(w, env); Inv(w') && w'.orphans == w.orphans && !Strays(o)
  {
    RevokeKeeps(w, w.row.retiring.value, env.revokeRetiring);
    var w1 := Revoke(w, w.row.retiring.value, env.revokeRetiring);
    if env.revokeRetiring.Revoked? { WriteKeeps(w1, w1.row.(status := Active, retiring := None)); }
  }

  lemma SwitchKeeps(w: World, expected: nat, env: ReplaceEnv)
    requires Inv(w) && w.row.status == Replacing
    ensures var (o, w') := Switch(w, expected, env); Inv(w') && w'.orphans == w.orphans && !Strays(o)
  {
    var p := w.row.pending.value;
    if !env.prepare {
      RevokeKeeps(w, p, env.revokePending);
      var w1 := Revoke(w, p, env.revokePending);
      if env.revokePending.Revoked? { WriteKeeps(w1, w1.row.(status := Active, pending := None)); }
    } else {
      var commit := CommitReplacement(w, expected, env.commit);
      if commit.Some? {
        WriteKeeps(w, commit.value.row);
        FinishCleanupKeeps(commit.value, env);
      }
    }
  }

  // The only authority a call can leave unreferenced is one whose provisioning failed after taking effect, or one a
  // rejected begin fails to take back; the call reports a failed provisioning or exactly that double failure.
  lemma ReplaceKeeps(w: World, expected: nat, actor: string, env: ReplaceEnv)
    requires Inv(w)
    ensures var (o, w') := Replace(w, expected, actor, env);
            Inv(w') && w'.orphans == if Orphans(o, env) then w.orphans + {w.next} else w.orphans
  {
    if Refusal(w, expected, actor, env.approved).None? {
      if w.row.status == CleanupPending { FinishCleanupKeeps(w, env); }
      if env.knownProvider && w.row.status == Replacing { SwitchKeeps(w, expected, env); }
      if env.knownProvider && w.row.status == Active && env.provision.Provisioned? { StageKeeps(w, expected, env); }
    }
  }

  predicate Orphans(o: Outcome, env: ReplaceEnv) {
    || (o.BeginRejectedCleanupFailed? && env.revokeStaged.NotRevoked?)
    || (o.ProvisionFailed? && env.provision.ProvisionedThenFailed?)
  }

  lemma StageKeeps(w: World, expected: nat, env: ReplaceEnv)
    requires Inv(w) && w.row.status == Active && w.row.revision == expected
    ensures var w1 := Provision(w);
            match BeginReplacement(w1, expected, w.next, env.begin)
            case None =>
              var w2 := Revoke(w1, w.next, env.revokeStaged);
              Inv(if env.revokeStaged.NotRevoked? then w2.(orphans := w2.orphans + {w.next}) else w2)
            case Some(w2) =>
              && Inv(w2) && w2.orphans == w.orphans
              && var (o, w3) := Switch(w2, expected, env);
                 Inv(w3) && w3.orphans == w.orphans && !Strays(o)
  {
    var w1 := Provision(w);
    var begun := BeginReplacement(w1, expected, w.next, env.begin);
    if begun.Some? {
      var w2 := begun.value;
      var t := w2.trail;
      forall i | 0 < i < |t| ensures Edge(t[i - 1], t[i]) {
        if i < |w.trail| { assert t[i] == w.trail[i] && t[i - 1] == w.trail[i - 1]; }
      }
      assert Inv(w2);
      SwitchKeeps(w2, expected, env);
    }
  }

  lemma DisconnectKeeps(w: World, expected: nat, actor: string, env: DisconnectEnv)
    requires Inv(w)
    ensures var w' := Disconnect(w, expected, actor, env).1; Inv(w') && w'.orphans == w.orphans
  {
    if Refusal(w, expected, actor, env.approved).None? && w.row.status != Disconnected {
      if w.row.status == Active {
        var begun := BeginDisconnect(w, expected, env.begin);
        if begun.Some? {
          WriteKeeps(w, begun.value.row);
          ClearBoundaryKeeps(begun.value, env);
        }
      } else {
        ClearBoundaryKeeps(w, env);
      }
    }
  }

  lemma ClearBoundaryKeeps(w: World, env: DisconnectEnv)
    requires Inv(w)
    ensures var w' := ClearBoundary(w, env).1; Inv(w') && w'.orphans == w.orphans
  {
    if w.row.status == DisconnectingBoundary && env.toAuthority {
      var w1 := Write(w, w.row.(status := DisconnectingAuthority));
      WriteKeeps(w, w1.row);
      FinishDisconnectKeeps(w1, env);
    } else if w.row.status == DisconnectingAuthority {
      FinishDisconnectKeeps(w, env);
    }
  }

  lemma FinishDisconnectKeeps(w: World, env: DisconnectEnv)
    requires Inv(w) && w.row.status == DisconnectingAuthority
    ensures var w' := FinishDisconnect(w, env).1; Inv(w') && w'.orphans == w.orphans
  {
    RevokeKeeps(w, w.row.current, env.revoke);
    var w1 := Revoke(w, w.row.current, env.revoke);
    if env.revoke.Revoked? { WriteKeeps(w1, w1.row.(status := Disconnected)); }
  }

  // The state right after a connection is made.
  function Connected(scope: Scope, id: Id): World {
    World(Row(scope, Active, 1, id, None, None), {id}, id + 1, {}, [Active])
  }

  // Some call of a run leaves an authority behind.
  predicate LeavesBehind(w: World, ops: seq<Op>)
    decreases |ops|
  {
    ops != [] &&
    (var (o, w') := Apply(w, ops[0]);
     (ops[0].ReplaceOp? && Orphans(o, ops[0].replaceEnv)) || LeavesBehind(w', ops[1..]))
  }

  lemma {:induction false} RunKeeps(w: World, ops: seq<Op>)
    requires Inv(w)
    ensures Inv(Run(w, ops)) && w.orphans <= Run(w, ops).orphans
    ensures Run(w, ops).orphans == w.orphans <==> !LeavesBehind(w, ops)
    ensures LeavesBehind(w, ops) ==> exists o <- Outcomes(w, ops) :: Strays(o)
    decreases |ops|
  {
    if ops != [] {
      var (o, w') := Apply(w, ops[0]);
      match ops[0] {
        case ReplaceOp(expected, actor, env) => ReplaceKeeps(w, expected, actor, env); assert w.next !in w.orphans;
        case DisconnectOp(expected, actor, env) => DisconnectKeeps(w, expected, actor, env);
      }
      hide Inv, Apply;
      RunKeeps(w', ops[1..]);
      assert o in Outcomes(w, ops) && forall q <- Outcomes(w', ops[1..]) :: q in Outcomes(w, ops);
    }
  }

  // Over any run from a fresh connection: an unrevoked authority is the current, the pending or the retiring one; only
  // the current one while active; none once disconnected. The exception is exact: an authority whose provisioning
  // failed after taking effect, or that a rejected begin could not take back, stays behind; and the call has reported a
  // failure.
  lemma NoStrayAuthority(scope: Scope, id: Id, ops: seq<Op>)
    ensures var w := Run(Connected(scope, id), ops);
            && w.live <= {w.row.current} + Ids(w.row.pending) + Ids(w.row.retiring) + w.orphans
            && (w.row.status == Active ==> w.live <= {w.row.current} + w.orphans)
            && (w.row.status == Disconnected ==> w.live <= w.orphans)
            && (w.orphans == {} <==> !LeavesBehind(Connected(scope, id), ops))
            && (LeavesBehind(Connected(scope, id), ops) ==>
                exists o <- Outcomes(Connected(scope, id), ops) :: Strays(o))
  {
    RunKeeps(Connected(scope, id), ops);
  }

  // When exactly one replacement leaves the authority it made live and unreferenced.
  lemma StrayAuthority(w: World, actor: string, env: ReplaceEnv)
    requires Inv(w) && w.row.status == Active && Refusal(w, w.row.revision, actor, env.approved).None? &&
        env.knownProvider
    ensures var (o, w') := Replace(w, w.row.revision, actor, env);
            w.next in w'.live && w.next !in Held(w'.row)
            <==> env.provision.ProvisionedThenFailed?
                 || (env.provision.Provisioned? && !env.begin && env.revokeStaged.NotRevoked?)
  {
    if env.provision.Provisioned? {
      StageKeeps(w, w.row.revision, env);
      if env.begin {
        SwitchHolds(BeginReplacement(Provision(w), w.row.revision, w.next, true).value, w.row.revision, env);
      }
    }
  }

  lemma SwitchHolds(w: World, expected: nat, env: ReplaceEnv)
    requires Inv(w) && w.row.status == Replacing
    ensures var w' := Switch(w, expected, env).1; w.row.pending.value in w'.live ==> w.row.pending.value in Held(w'.row)
  {
  }

  // ---------------------------------------------------------------- the service object

  class Connection {
    var row: Row
    var live: set<Id>
    var next: Id
    var orphans: set<Id>
    ghost var trail: seq<Status>

    ghost function State(): World
      reads this
    {
      World(row, live, next, orphans, trail)
    }

    constructor (scope: Scope, id: Id)
      ensures State() == Connected(scope, id)
    {
      row, live, next, orphans, trail := Row(scope, Active, 1, id, None, None), {id}, id + 1, {}, [Active];
    }

    method SetStatus(status: Status)
      modifies this`row, this`trail
      ensures State() == Write(old(State()), old(row).(status := status))
    {
      row := row.(status := status);
      trail := trail + [status];
    }

    // The compare-and-swap on the status that ends cleanups and disconnects.
    method MoveStatus(from: Status, to: Status, clearRetiring: bool, ok: bool) returns (moved: bool)
      modifies this`row, this`trail
      ensures moved <==> Transition(old(State()), from, to, clearRetiring, ok).Some?
      ensures State() == if moved then Transition(old(State()), from, to, clearRetiring, ok).value else old(State())
    {
      moved := ok && row.status == from;
      if moved {
        if clearRetiring { row := row.(retiring := None); }
        SetStatus(to);
      }
    }

    method RevokeAuthority(id: Id, r: Revocation) returns (ok: bool)
      modifies this`live
      ensures State() == Revoke(old(State()), id, r) && ok == r.Revoked?
    {
      if !r.NotRevoked? { live := live - {id}; }
      ok := r.Revoked?;
    }

    method FinishReplacementCleanup(env: ReplaceEnv) returns (o: Outcome)
      modifies this
      ensures (o, State()) == FinishCleanup(old(State()), env)
    {
      if row.retiring.None? { return MissingRetiring; }
      var revoked := RevokeAuthority(row.retiring.value, env.revokeRetiring);
      if !revoked { return CleanupFailed; }
      if !env.auditRevoked { return Threw; }
      var moved := MoveStatus(CleanupPending, Active, true, env.finish);
      if !moved { return Threw; }
      return if env.auditActive then Done else Threw;
    }

    method ReplaceConnection(expected: nat, actor: string, env: ReplaceEnv) returns (o: Outcome)
      modifies this
      ensures (o, State()) == Replace(old(State()), expected, actor, env)
    {
      hide FinishCleanup;
      if !Visible(row, actor) { return NotFound; }
      if row.revision != expected { return StaleRevision; }
      if row.scope.Org? && !env.approved { return Denied; }
      if row.status == CleanupPending {
        o := FinishReplacementCleanup(env);
        return;
      }
      if row.status != Active && row.status != Replacing { return WrongStatus; }
      if !env.knownProvider { return UnknownProvider; }
      if row.status == Active {
        if env.provision.NotProvisioned? { return ProvisionFailed; }
        var staged := next;
        live, next := live + {staged}, next + 1;
        if env.provision.ProvisionedThenFailed? {
          orphans := orphans + {staged};
          return ProvisionFailed;
        }
        if !env.begin {
          var cleaned := RevokeAuthority(staged, env.revokeStaged);
          if cleaned { return BeginRejected; }
          if env.revokeStaged.NotRevoked? { orphans := orphans + {staged}; }
          return BeginRejectedCleanupFailed;
        }
        row := row.(pending := Some(staged));
        SetStatus(Replacing);
        if !env.auditDenied { return Threw; }
      }
      if row.pending.None? { return MissingStaged; }
      if !env.prepare {
        var cleaned := RevokeAuthority(row.pending.value, env.revokePending);
        if !cleaned || !env.rollback { return RollbackFailed; }
        row := row.(pending := None);
        SetStatus(Active);
        return RolledBack;
      }
      if !env.auditReady { return Threw; }
      if !env.commit { return if env.undoBoundary then CommitFailed else CommitAndUndoFailed; }
      row := row.(revision := row.revision + 1, retiring := Some(row.current),
          current := row.pending.value, pending := None);
      SetStatus(CleanupPending);
      if !env.auditSwitched { return Threw; }
      o := FinishReplacementCleanup(env);
    }

    method DisconnectConnection(expected: nat, actor: string, env: DisconnectEnv) returns (o: Outcome)
      modifies this
      ensures (o, State()) == Disconnect(old(State()), expected, actor, env)
    {
      hide FinishDisconnect;
      if !Visible(row, actor) { return NotFound; }
      if row.revision != expected { return StaleRevision; }
      if row.scope.Org? && !env.approved { return Denied; }
      if row.status == Disconnected { return Done; }
      if row.status == Active {
        if !env.begin { return BeginRejected; }
        row := row.(revision := row.revision + 1);
        SetStatus(DisconnectingBoundary);
        if !env.auditDenied { return Threw; }
      }
      if row.status != DisconnectingBoundary && row.status != DisconnectingAuthority { return WrongStatus; }
      if row.status == DisconnectingBoundary {
        if !env.boundary { return BoundaryFailed; }
        if !env.auditCleared { return Threw; }
        var moved := MoveStatus(DisconnectingBoundary, DisconnectingAuthority, false, env.toAuthority);
        if !moved { return Threw; }
      }
      o := RevokeCurrent(env);
    }

    method RevokeCurrent(env: DisconnectEnv) returns (o: Outcome)
      modifies this
      ensures (o, State()) == FinishDisconnect(old(State()), env)
    {
      var revoked := RevokeAuthority(row.current, env.revoke);
      if !revoked { return RevokeFailed; }
      if !env.auditRevoked { return Threw; }
      var moved := MoveStatus(DisconnectingAuthority, Disconnected, false, env.finish);
      if !moved { return Threw; }
      return if env.auditDone then Done else Threw;
    }
  }
}
