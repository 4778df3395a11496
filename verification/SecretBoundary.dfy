/** Call-scoped authorizations: src/extensions/boundary.ts. */
module SecretBoundary {
  // First the locked operations on the boundary's state, then any number of overlapping calls that reach them through
  // the promise lock. File and proxy operations may fail; their outcomes are inputs.

  import opened Text
  import opened ScopedRegion
  import opened ScopedMarkers

  // A live call: the id of its secret file, and its rendered mapping in the proxy config.
  datatype Auth = Auth(id: nat, entry: string)

  // `active` in insertion order; `files` the secret files in the scoped directory.
  datatype Boundary = Boundary(active: seq<Auth>, files: set<nat>, config: string, initialized: bool)

  // ---------------------------------------------------------------- locked operations

  // Reading and writing the config, and the proxy reload after it.
  datatype ApplyIo = ApplyIo(config: bool, reload: bool)

  // `removed`: what a failed removal of the directory took with it.
  datatype InitIo = InitIo(remove: bool, removed: set<nat>, mkdir: bool, apply: ApplyIo)

  datatype ActivateIo = ActivateIo(init: InitIo, mkdir: bool, write: bool, apply: ApplyIo, remove: bool,
          applyAgain: ApplyIo)

  datatype RevokeIo = RevokeIo(remove: bool, apply: ApplyIo)

  function Entries(active: seq<Auth>): seq<string> {
    seq(|active|, k requires 0 <= k < |active| => active[k].entry)
  }

  function Ids(active: seq<Auth>): set<nat> {
    set a <- active :: a.id
  }

  function Without(active: seq<Auth>, id: nat): seq<Auth> {
    if active == [] then []
    else if active[0].id == id then Without(active[1..], id)
    else [active[0]] + Without(active[1..], id)
  }

  function Apply(b: Boundary, io: ApplyIo): (bool, Boundary) {
    var next := Splice(b.config, BEGIN, END, Join(Entries(b.active), "\n"));
    if !io.config || next.None? then (false, b) else (io.reload, b.(config := next.value))
  }

  function Initialize(b: Boundary, io: InitIo): (bool, Boundary) {
    if b.initialized then (true, b)
    else
      var b1 := b.(active := []);
      if !io.remove then (false, b1.(files := b1.files - io.removed))
      else
        var b2 := b1.(files := {});
        if !io.mkdir then (false, b2)
        else var (ok, b3) := Apply(b2, io.apply); (ok, if ok then b3.(initialized := true) else b3)
  }

  function Activate(b: Boundary, auth: Auth, io: ActivateIo): (bool, Boundary) {
    var (ready, b1) := Initialize(b, io.init);
    if !ready || !io.mkdir || !io.write then (false, b1)
    else
      var b2 := b1.(files := b1.files + {auth.id}, active := b1.active + [auth]);
      var (ok, b3) := Apply(b2, io.apply);
      if ok then (true, b3)
      else
        var b4 := b3.(active := Without(b3.active, auth.id));
        if !io.remove then (false, b4) else (false, Apply(b4.(files := b4.files - {auth.id}), io.applyAgain).1)
  }

  function Revoke(b: Boundary, id: nat, io: RevokeIo): (bool, Boundary) {
    if id !in Ids(b.active) then (true, b)
    else
      var b1 := b.(active := Without(b.active, id));
      if !io.remove then (false, b1) else Apply(b1.(files := b1.files - {id}), io.apply)
  }

  // ---------------------------------------------------------------- what they keep

  predicate DistinctIds(active: seq<Auth>) {
    forall i, j :: 0 <= i < j < |active| ==> active[i].id != active[j].id
  }

  // Secret files are exactly those of active calls, from the first initialization on; none is active before.
  predicate Good(b: Boundary) {
    && DistinctIds(b.active)
    && (if b.initialized then b.files == Ids(b.active) else b.active == [])
  }

  lemma IdsCons(a: Auth, rest: seq<Auth>)
    ensures Ids([a] + rest) == {a.id} + Ids(rest)
  {
  }

  lemma {:induction false} WithoutIds(active: seq<Auth>, id: nat)
    ensures Ids(Without(active, id)) == Ids(active) - {id}
    ensures forall a <- Without(active, id) :: a in active
    decreases |active|
  {
    if active != [] {
      var rest := Without(active[1..], id);
      WithoutIds(active[1..], id);
      assert active == [active[0]] + active[1..];
      IdsCons(active[0], active[1..]);
      IdsCons(active[0], rest);
      assert forall a <- rest :: a in active[1..];
    }
  }

  lemma {:induction false} WithoutDistinct(active: seq<Auth>, id: nat)
    requires DistinctIds(active)
    ensures DistinctIds(Without(active, id))
    decreases |active|
  {
    if active != [] {
      WithoutDistinct(active[1..], id);
      WithoutIds(active[1..], id);
      var w := Without(active[1..], id);
      forall j | 0 <= j < |w| ensures w[j].id != active[0].id {
        assert w[j] in active[1..];
        var k :| 0 <= k < |active| - 1 && active[1..][k] == w[j];
        assert active[k + 1] == w[j];
      }
    }
  }

  lemma {:induction false} WithoutNew(active: seq<Auth>, auth: Auth)
    requires auth.id !in Ids(active)
    ensures Without(active + [auth], auth.id) == active
    decreases |active|
  {
    if active == [] {
      assert active + [auth] == [auth];
    } else {
      assert active[0] in active && active[0].id in Ids(active);
      assert (active + [auth])[1..] == active[1..] + [auth];
      assert forall a <- active[1..] :: a in active;
      WithoutNew(active[1..], auth);
    }
  }

  lemma ApplyKeeps(b: Boundary, io: ApplyIo)
    ensures var b' := Apply(b, io).1; b'.active == b.active && b'.files == b.files && b'.initialized == b.initialized
  {
  }

  lemma InitializeKeeps(b: Boundary, io: InitIo)
    requires Good(b)
    ensures var (ok, b') := Initialize(b, io);
            Good(b') && (ok ==> b'.initialized) && (b.initialized ==> b' == b) && (!b.initialized ==> b'.active == [])
  {
  }

  // Activating keeps the files of active calls and no others exactly when the secret of a failed activation could be
  // removed.
  lemma ActivateKeeps(b: Boundary, auth: Auth, io: ActivateIo)
    requires Good(b) && auth.id !in Ids(b.active)
    ensures var (ok, b') := Activate(b, auth, io);
            && (Good(b') <==> !Strands(b, auth, io))
            && (ok ==> b'.initialized && auth in b'.active && Ids(b'.active) == Ids(b.active) + {auth.id})
            && (!ok ==> b'.active == b.active)
  {
    hide Apply;
    InitializeKeeps(b, io.init);
    var (ready, b1) := Initialize(b, io.init);
    hide Initialize;
    if ready && io.mkdir && io.write {
      var added := b1.active + [auth];
      var b2 := b1.(files := b1.files + {auth.id}, active := added);
      var (ok, b3) := Apply(b2, io.apply);
      ApplyKeeps(b2, io.apply);
      ApplyKeeps(b3.(active := b1.active, files := b1.files), io.applyAgain);
      assert b1.files + {auth.id} - {auth.id} == b1.files;
      assert Ids(added) == Ids(b1.active) + {auth.id};
      WithoutNew(b1.active, auth);
      if ok {
        assert added[|added| - 1] == auth;
        assert forall i :: 0 <= i < |b1.active| ==> b1.active[i].id in Ids(b1.active);
        assert DistinctIds(added);
      }
    }
  }

  // The activation wrote the secret, could not apply the config, and could not remove the secret again.
  predicate Strands(b: Boundary, auth: Auth, io: ActivateIo) {
    var (ready, b1) := Initialize(b, io.init);
    ready && io.mkdir && io.write && !io.remove &&
    !Apply(b1.(files := b1.files + {auth.id}, active := b1.active + [auth]), io.apply).0
  }

  lemma RevokeKeeps(b: Boundary, id: nat, io: RevokeIo)
    requires Good(b)
    ensures var (ok, b') := Revoke(b, id, io);
            && (Good(b') <==> io.remove || id !in Ids(b.active))
            && Ids(b'.active) == Ids(b.active) - {id} && b'.initialized == b.initialized
  {
    WithoutIds(b.active, id);
    WithoutDistinct(b.active, id);
    if id !in Ids(b.active) { assert Ids(b.active) == Ids(b.active) - {id}; }
  }

  // A successful apply makes the marked region list exactly the active calls, in insertion order, and changes
  // nothing else of the config.
  lemma ApplyLists(b: Boundary, io: ApplyIo)
    requires Apply(b, io).0 && forall a <- b.active :: !Occurs(a.entry, END)
    ensures var b' := Apply(b, io).1;
            && Region(b'.config, BEGIN, END) == Some(Body(Join(Entries(b'.active), "\n")))
            && b'.config[..Find(b'.config, BEGIN)] == b.config[..Find(b.config, BEGIN)]
            && b'.config[Find(b'.config, END)..] == b.config[Find(b.config, END)..]
  {
    hide Splice;
    hide Region;
    hide Find;
    MarkersApply();
    EndNoNewline();
    EndBlanks();
    var entries := Entries(b.active);
    forall t | t in entries ensures !Occurs(t, END) {
      var k :| 0 <= k < |entries| && entries[k] == t;
      assert b.active[k] in b.active;
    }
    hide Markers;
    hide Occurs;
    JoinHasNone(entries, END);
    SpliceKeepsOutside(b.config, BEGIN, END, Join(entries, "\n"));
  }

  // ---------------------------------------------------------------- overlapping calls behind the lock

  // A call waits on its predecessor's promise; a ticket is its place in the queue.
  datatype Phase =
    | WaitActivate(ticket: nat, entry: string)
    | InActivate(ticket: nat, entry: string)
    | Invoking
    | WaitRevoke(ticket: nat)
    | InRevoke(ticket: nat)
    | Finished

  // `next`: tickets handed out. `resolved`: tickets whose promise has resolved. `queue`: the calls that hold the
  // others, oldest first. `used`: ids of every secret file so far. `stranded`: calls of this process whose secret was
  // written and could not be removed again. The last three are history and never read.
  datatype System = System(b: Boundary, calls: map<nat, Phase>, next: nat, resolved: set<nat>, queue: seq<nat>,
          used: set<nat>, stranded: set<nat>)

  datatype Step =
    | Begin(id: nat, entry: string)
    | Enter(id: nat)
    | LeaveActivate(id: nat, activateIo: ActivateIo)
    | EndInvoke(id: nat)                                // return, failure, timeout and abort alike
    | LeaveRevoke(id: nat, revokeIo: RevokeIo)
    | Restart(left: set<nat>)                           // the files a killed process left behind

  predicate Free(s: System, ticket: nat) {
    ticket == 0 || ticket - 1 in s.resolved
  }

  predicate Enabled(s: System, step: Step) {
    match step
    case Begin(id, entry) => id !in s.used
    case Enter(id) => id in s.calls && Waits(s.calls[id]) && Free(s, s.calls[id].ticket)
    case LeaveActivate(id, io) => id in s.calls && s.calls[id].InActivate?
    case EndInvoke(id) => id in s.calls && s.calls[id].Invoking?
    case LeaveRevoke(id, io) => id in s.calls && s.calls[id].InRevoke?
    case Restart(left) => left <= s.used + s.b.files
  }

  predicate Waits(p: Phase) {
    p.WaitActivate? || p.WaitRevoke?
  }

  predicate Inside(p: Phase) {
    p.InActivate? || p.InRevoke?
  }

  function Enqueue(s: System, id: nat, p: Phase): System {
    s.(calls := s.calls[id := p], next := s.next + 1, queue := s.queue + [id])
  }

  // The lock's `finally`: the holder's promise resolves however its operation ended.
  function Release(s: System, id: nat, ticket: nat, p: Phase): System {
    s.(calls := s.calls[id := p], resolved := s.resolved + {ticket},
        queue := if s.queue == [] then [] else s.queue[1..])
  }

  // The step leaves behind the secret of call `id`: an activation or a revocation fails to remove it.
  predicate Leaves(s: System, step: Step, id: nat)
    requires Enabled(s, step)
  {
    match step
    case LeaveActivate(i, io) => i == id && Strands(s.b, Auth(id, s.calls[id].entry), io)
    case LeaveRevoke(i, io) => i == id && id in Ids(s.b.active) && !io.remove
    case _ => false
  }

  function Next(s: System, step: Step): System
    requires Enabled(s, step)
  {
    match step
    case Begin(id, entry) => Enqueue(s, id, WaitActivate(s.next, entry)).(used := s.used + {id})
    case Enter(id) =>
      s.(calls := s.calls[id := if s.calls[id].WaitActivate? then InActivate(s.calls[id].ticket, s.calls[id].entry)
                                else InRevoke(s.calls[id].ticket)])
    case LeaveActivate(id, io) =>
      var (ok, b) := Activate(s.b, Auth(id, s.calls[id].entry), io);
      var s1 := Release(s, id, s.calls[id].ticket, Invoking).(b := b, stranded := Stranded(s, step, id));
      if ok then s1 else Enqueue(s1, id, WaitRevoke(s1.next))
    case EndInvoke(id) => Enqueue(s, id, WaitRevoke(s.next))
    case LeaveRevoke(id, io) =>
      Release(s, id, s.calls[id].ticket, Finished).(b := Revoke(s.b, id, io).1, stranded := Stranded(s, step, id))
    case Restart(left) => System(Boundary([], left, s.b.config, false), map[], 0, {}, [], s.used + left, {})
  }

  function Stranded(s: System, step: Step, id: nat): set<nat>
    requires Enabled(s, step)
  {
    s.stranded + if Leaves(s, step, id) then {id} else {}
  }

  predicate Queued(p: Phase) {
    Waits(p) || Inside(p)
  }

  // Calls whose authorization may be active: activated, and not yet revoked.
  predicate MayBeActive(p: Phase) {
    p.Invoking? || p.WaitRevoke? || p.InRevoke?
  }

  ghost predicate Prefix(resolved: set<nat>) {
    forall t: nat :: t in resolved <==> t < |resolved|
  }

  // The queue: unresolved tickets are held by one call each, in the order they were handed out, and only the oldest
  // holder may be inside.
  ghost predicate Queue(s: System) {
    && Prefix(s.resolved)
    && s.next == |s.resolved| + |s.queue|
    && (forall k :: 0 <= k < |s.queue| ==> s.queue[k] in s.calls && HoldsAt(s, s.queue[k], k))
    && (forall id <- s.calls :: Queued(s.calls[id]) ==> exists k :: 0 <= k < |s.queue| && s.queue[k] == id)
  }

  predicate HoldsAt(s: System, id: nat, k: nat)
    requires id in s.calls
  {
    Queued(s.calls[id]) && s.calls[id].ticket == |s.resolved| + k && (k > 0 ==> Waits(s.calls[id]))
  }

  // Secret files are those of active calls and the stranded ones, from the first initialization on; before it no call
  // is active and this process has left no file.
  predicate Files(b: Boundary, stranded: set<nat>) {
    && DistinctIds(b.active)
    && (if b.initialized then b.files == Ids(b.active) + stranded && stranded !! Ids(b.active)
        else b.active == [] && stranded == {})
  }

  ghost predicate Inv(s: System) {
    Queue(s) && Files(s.b, s.stranded) && Phases(s)
  }

  // Which calls files, active authorizations and stranded secrets belong to.
  predicate Phases(s: System) {
    && s.calls.Keys <= s.used && s.b.files <= s.used
    && (!s.b.initialized ==> s.b.files !! s.calls.Keys)
    && (forall id <- Ids(s.b.active) :: id in s.calls && MayBeActive(s.calls[id]))
    && (forall id <- s.stranded :: id in s.calls && Ending(s.calls[id]))
  }

  // Past its activation, and not to be active again.
  predicate Ending(p: Phase) {
    p.WaitRevoke? || p.InRevoke? || p.Finished?
  }

  lemma PrefixGrows(resolved: set<nat>)
    requires Prefix(resolved)
    ensures Prefix(resolved + {|resolved|}) && |resolved + {|resolved|}| == |resolved| + 1
  {
    assert |resolved| !in resolved;
  }

  lemma EnqueueKeeps(s: System, id: nat, p: Phase)
    requires Queue(s) && (id in s.calls ==> !Queued(s.calls[id])) && Waits(p) && p.ticket == s.next
    ensures Queue(Enqueue(s, id, p))
  {
    var s' := Enqueue(s, id, p);
    forall k | 0 <= k < |s'.queue| ensures s'.queue[k] in s'.calls && HoldsAt(s', s'.queue[k], k) {
      if k < |s.queue| { assert HoldsAt(s, s.queue[k], k); }
    }
    forall i | i in s'.calls && Queued(s'.calls[i]) ensures exists k :: 0 <= k < |s'.queue| && s'.queue[k] == i {
      if i == id {
        assert s'.queue[|s.queue|] == i;
      } else {
        var k :| 0 <= k < |s.queue| && s.queue[k] == i;
        assert s'.queue[k] == i;
      }
    }
  }

  // The head of the queue leaves.
  lemma ReleaseKeeps(s: System, id: nat, p: Phase)
    requires Queue(s) && id in s.calls && Inside(s.calls[id]) && !Queued(p)
    ensures Queue(Release(s, id, s.calls[id].ticket, p))
  {
    var s' := Release(s, id, s.calls[id].ticket, p);
    InsideIsHead(s, id);
    PrefixGrows(s.resolved);
    forall k | 0 <= k < |s'.queue| ensures s'.queue[k] in s'.calls && HoldsAt(s', s'.queue[k], k) {
      assert s.queue[k + 1] == s'.queue[k] && HoldsAt(s, s.queue[k + 1], k + 1);
    }
    forall i | i in s'.calls && Queued(s'.calls[i]) ensures exists k :: 0 <= k < |s'.queue| && s'.queue[k] == i {
      var k :| 0 <= k < |s.queue| && s.queue[k] == i;
      assert k > 0 && s'.queue[k - 1] == i;
    }
  }

  lemma InsideIsHead(s: System, id: nat)
    requires Queue(s) && id in s.calls && Inside(s.calls[id])
    ensures s.queue != [] && s.queue[0] == id && s.calls[id].ticket == |s.resolved|
  {
    var k :| 0 <= k < |s.queue| && s.queue[k] == id;
    assert HoldsAt(s, s.queue[k], k);
  }

  // The lock is first come, first served and exclusive: a call may enter exactly when it waits at the head.
  lemma EnterExactly(s: System, id: nat)
    requires Inv(s)
    ensures Enabled(s, Enter(id)) <==> s.queue != [] && s.queue[0] == id && Waits(s.calls[id])
  {
    if s.queue != [] { assert HoldsAt(s, s.queue[0], 0); }
    if Enabled(s, Enter(id)) {
      var k :| 0 <= k < |s.queue| && s.queue[k] == id;
      assert HoldsAt(s, s.queue[k], k);
      assert s.calls[id].ticket > 0 ==> s.calls[id].ticket - 1 < |s.resolved|;
    }
  }

  lemma EnterKeeps(s: System, id: nat)
    requires Inv(s) && Enabled(s, Enter(id))
    ensures Inv(Next(s, Enter(id)))
  {
    EnterExactly(s, id);
    var s' := Next(s, Enter(id));
    forall k | 0 <= k < |s'.queue| ensures s'.queue[k] in s'.calls && HoldsAt(s', s'.queue[k], k) {
      assert HoldsAt(s, s.queue[k], k);
      assert HoldsAt(s, s.queue[0], 0);
    }
  }

  // What an activation does to files and active calls.
  lemma ActivateExact(b: Boundary, auth: Auth, io: ActivateIo)
    requires DistinctIds(b.active) && auth.id !in Ids(b.active) && (b.initialized ==> auth.id !in b.files) &&
        (!b.initialized ==> b.active == [])
    ensures var (ok, b') := Activate(b, auth, io);
            var mine := if ok || Strands(b, auth, io) then {auth.id} else {};
            && DistinctIds(b'.active) && (b.initialized ==> b'.initialized)
            && b'.active == (if ok then b.active + [auth] else b.active)
            && Ids(b'.active) == Ids(b.active) + (if ok then {auth.id} else {})
            && !(ok && Strands(b, auth, io))
            && (if b'.initialized then b'.files == (if b.initialized then b.files else {}) + mine
                else b'.files <= b.files && mine == {})
  {
    hide Apply;
    InitializeFiles(b, io.init);
    var (ready, b1) := Initialize(b, io.init);
    hide Initialize;
    if ready && io.mkdir && io.write {
      var added := b1.active + [auth];
      var b2 := b1.(files := b1.files + {auth.id}, active := added);
      var (ok, b3) := Apply(b2, io.apply);
      ApplyKeeps(b2, io.apply);
      ApplyKeeps(b3.(active := b1.active, files := b1.files), io.applyAgain);
      assert b1.files + {auth.id} - {auth.id} == b1.files;
      assert Ids(added) == Ids(b1.active) + {auth.id};
      WithoutNew(b1.active, auth);
      if ok {
        assert added[|added| - 1] == auth;
        assert forall i :: 0 <= i < |b1.active| ==> b1.active[i].id in Ids(b1.active);
        assert DistinctIds(added);
      }
    }
  }

  lemma InitializeFiles(b: Boundary, io: InitIo)
    requires !b.initialized ==> b.active == []
    ensures var (ok, b') := Initialize(b, io);
            && b'.active == b.active && (ok ==> b'.initialized) && (b.initialized ==> b' == b)
            && (!b.initialized ==> b'.files <= b.files && (ok ==> b'.files == {}) && (!ok ==> !b'.initialized))
  {
  }

  lemma LeaveActivateQueue(s: System, id: nat, io: ActivateIo)
    requires Queue(s) && Enabled(s, LeaveActivate(id, io))
    ensures Queue(Next(s, LeaveActivate(id, io)))
  {
    hide Activate, Leaves;
    ReleaseKeeps(s, id, Invoking);
    var (ok, b) := Activate(s.b, Auth(id, s.calls[id].entry), io);
    var s1 := Release(s, id, s.calls[id].ticket, Invoking).(b := b, stranded := Stranded(s, LeaveActivate(id, io), id));
    SameQueue(Release(s, id, s.calls[id].ticket, Invoking), s1);
    if !ok { EnqueueKeeps(s1, id, WaitRevoke(s1.next)); }
    hide Queue;
  }

  // The queue is a matter of tickets and phases only.
  lemma SameQueue(s: System, t: System)
    requires Queue(s) && t.calls == s.calls && t.next == s.next && t.resolved == s.resolved && t.queue == s.queue
    ensures Queue(t)
  {
    forall k | 0 <= k < |t.queue| ensures HoldsAt(t, t.queue[k], k) { assert HoldsAt(s, s.queue[k], k); }
  }

  lemma ActivatingIsNew(s: System, id: nat)
    requires Phases(s) && id in s.calls && s.calls[id].InActivate?
    ensures id !in s.stranded && id !in Ids(s.b.active)
  {
  }

  lemma LeaveActivateKeeps(s: System, id: nat, io: ActivateIo)
    requires Inv(s) && Enabled(s, LeaveActivate(id, io))
    ensures Inv(Next(s, LeaveActivate(id, io)))
  {
    hide Queue, Activate, Strands, DistinctIds, MayBeActive;
    LeaveActivateQueue(s, id, io);
    var auth, t := Auth(id, s.calls[id].entry), Next(s, LeaveActivate(id, io));
    assert id !in s.stranded && id !in Ids(s.b.active) by { ActivatingIsNew(s, id); }
    ActivateExact(s.b, auth, io);
    var ok, left := Activate(s.b, auth, io).0, Strands(s.b, auth, io);
    assert t.b == Activate(s.b, auth, io).1 && t.stranded == s.stranded + if left then {id} else {};
    assert t.used == s.used && t.calls.Keys == s.calls.Keys;
    assert t.calls[id] == if ok then Invoking else WaitRevoke(s.next);
    assert t.calls == s.calls[id := t.calls[id]];
    hide Next, Ids;
    ActivatedFiles(s, t, auth, ok, left);
    hide Files;
    ActivatedPhases(s, t, id, ok);
  }

  lemma ActivatedPhases(s: System, t: System, id: nat, ok: bool)
    requires Phases(s) && id in s.calls && id in t.calls && t.used == s.used && t.b.files <= s.b.files + {id}
    requires t.calls == s.calls[id := t.calls[id]] && (if ok then t.calls[id].Invoking? else t.calls[id].WaitRevoke?)
    requires Ids(t.b.active) == Ids(s.b.active) + (if ok then {id} else {}) && id !in Ids(s.b.active)
    requires t.stranded <= s.stranded + {id} && (ok ==> t.stranded == s.stranded) && id !in s.stranded
    requires !t.b.initialized ==> !s.b.initialized && t.b.files <= s.b.files
    ensures Phases(t)
  {
    hide Ids;
    assert id in s.calls.Keys;
    forall i <- Ids(t.b.active) ensures i in t.calls && MayBeActive(t.calls[i]) {
      if i != id { assert i in Ids(s.b.active); }
    }
    forall i <- t.stranded ensures i in t.calls && Ending(t.calls[i]) {
      if i != id { assert i in s.stranded; }
    }
  }

  lemma ActivatedFiles(s: System, s1: System, auth: Auth, ok: bool, left: bool)
    requires Files(s.b, s.stranded) && Phases(s) && auth.id in s.calls && s.calls[auth.id].InActivate?
    requires DistinctIds(s1.b.active) && Ids(s1.b.active) == Ids(s.b.active) + if ok then {auth.id} else {}
    requires s1.b.active == (if ok then s.b.active + [auth] else s.b.active) && !(ok && left) &&
        (s.b.initialized ==> s1.b.initialized)
    requires s1.stranded == s.stranded + if left then {auth.id} else {}
    requires if s1.b.initialized then
               s1.b.files == (if s.b.initialized then s.b.files else {}) + (if ok || left then {auth.id} else {})
             else s1.b.files <= s.b.files && !ok && !left
    ensures Files(s1.b, s1.stranded)
  {
    hide DistinctIds;
  }

  lemma StepKeeps(s: System, step: Step)
    requires Inv(s) && Enabled(s, step)
    ensures Inv(Next(s, step))
  {
    match step
    case Begin(id, entry) => EnqueueKeeps(s, id, WaitActivate(s.next, entry));
    case Enter(id) => EnterKeeps(s, id);
    case LeaveActivate(id, io) => LeaveActivateKeeps(s, id, io);
    case EndInvoke(id) => EnqueueKeeps(s, id, WaitRevoke(s.next));
    case LeaveRevoke(id, io) => LeaveRevokeKeeps(s, id, io);
    case Restart(left) =>
  }

  lemma LeaveRevokeQueue(s: System, id: nat, io: RevokeIo)
    requires Queue(s) && Enabled(s, LeaveRevoke(id, io))
    ensures Queue(Next(s, LeaveRevoke(id, io)))
  {
    hide Revoke, Leaves;
    ReleaseKeeps(s, id, Finished);
    SameQueue(Release(s, id, s.calls[id].ticket, Finished), Next(s, LeaveRevoke(id, io)));
  }

  lemma LeaveRevokeKeeps(s: System, id: nat, io: RevokeIo)
    requires Inv(s) && Enabled(s, LeaveRevoke(id, io))
    ensures Inv(Next(s, LeaveRevoke(id, io)))
  {
    hide Queue, Revoke, DistinctIds;
    LeaveRevokeQueue(s, id, io);
    var t := Next(s, LeaveRevoke(id, io));
    RevokeFiles(s.b, id, io);
    assert t.b == Revoke(s.b, id, io).1 && t.calls == s.calls[id := Finished] && id in s.calls.Keys && t.used == s.used;
    assert t.stranded == s.stranded + if id in Ids(s.b.active) && !io.remove then {id} else {};
    hide Next;
    assert Files(t.b, t.stranded);
    hide Files, Ids;
  }

  lemma RevokeFiles(b: Boundary, id: nat, io: RevokeIo)
    requires DistinctIds(b.active)
    ensures var b' := Revoke(b, id, io).1;
            && DistinctIds(b'.active) && Ids(b'.active) == Ids(b.active) - {id} && b'.initialized == b.initialized
            && b'.files == b.files - (if id in Ids(b.active) && io.remove then {id} else {})
            && (b.active == [] ==> b'.active == [])
  {
    WithoutIds(b.active, id);
    WithoutDistinct(b.active, id);
    if id !in Ids(b.active) { assert Ids(b.active) == Ids(b.active) - {id}; }
    hide Splice, Join;
  }

  predicate CanRun(s: System, steps: seq<Step>)
    decreases |steps|
  {
    steps == [] || (Enabled(s, steps[0]) && CanRun(Next(s, steps[0]), steps[1..]))
  }

  function Run(s: System, steps: seq<Step>): System
    requires CanRun(s, steps)
    decreases |steps|
  {
    if steps == [] then s else Run(Next(s, steps[0]), steps[1..])
  }

  // A new process over whatever an earlier one left in the scoped directory.
  function Fresh(config: string, stale: set<nat>): System {
    System(Boundary([], stale, config, false), map[], 0, {}, [], stale, {})
  }

  lemma {:induction false} RunKeeps(s: System, steps: seq<Step>)
    requires Inv(s) && CanRun(s, steps)
    ensures Inv(Run(s, steps))
    decreases |steps|
  {
    if steps != [] {
      StepKeeps(s, steps[0]);
      hide Inv;
      hide Next;
      RunKeeps(Next(s, steps[0]), steps[1..]);
    }
  }

  // Under any interleaving of calls and restarts, failed removals included: from initialization on, the secret files
  // are exactly those of the active calls and the stranded ones; each active call was activated and is not finished;
  // before it, no call is active; a finished call has a file exactly when it is stranded; and at most one call is
  // inside the lock.
  lemma OverlappingCallsSafe(config: string, stale: set<nat>, steps: seq<Step>)
    requires CanRun(Fresh(config, stale), steps)
    ensures var s := Run(Fresh(config, stale), steps);
            && (if s.b.initialized then s.b.files == Ids(s.b.active) + s.stranded
                else s.b.active == [] && s.stranded == {})
            && (forall id <- Ids(s.b.active) :: id in s.calls && MayBeActive(s.calls[id]) && id !in s.stranded)
            && (forall id <- s.calls :: s.calls[id].Finished? ==>
                id !in Ids(s.b.active) && (id in s.b.files <==> id in s.stranded))
            && (forall i <- s.calls, j <- s.calls :: Inside(s.calls[i]) && Inside(s.calls[j]) ==> i == j)
  {
    assert Prefix({});
    RunKeeps(Fresh(config, stale), steps);
    var s := Run(Fresh(config, stale), steps);
    hide Queue;
    forall i, j | i in s.calls && j in s.calls && Inside(s.calls[i]) && Inside(s.calls[j]) ensures i == j {
      InsideIsHead(s, i);
      InsideIsHead(s, j);
    }
  }

  predicate NoRestart(steps: seq<Step>) {
    forall step <- steps :: !step.Restart?
  }

  // Some step of the run failed to remove the secret of call `id`, and the process was not started again since.
  predicate LeftSince(s: System, steps: seq<Step>, id: nat)
    requires CanRun(s, steps)
    decreases |steps|
  {
    steps != [] && ((Leaves(s, steps[0], id) && NoRestart(steps[1..])) || LeftSince(Next(s, steps[0]), steps[1..], id))
  }

  lemma {:induction false} RunLeaves(s: System, steps: seq<Step>, id: nat)
    requires CanRun(s, steps)
    ensures id in Run(s, steps).stranded <==> LeftSince(s, steps, id) || (id in s.stranded && NoRestart(steps))
    decreases |steps|
  {
    if steps != [] {
      StepLeaves(s, steps[0], id);
      assert NoRestart(steps) <==> !steps[0].Restart? && NoRestart(steps[1..]) by {
        assert steps == [steps[0]] + steps[1..];
      }
      hide Next, Leaves, NoRestart;
      RunLeaves(Next(s, steps[0]), steps[1..], id);
    }
  }

  lemma StepLeaves(s: System, step: Step, id: nat)
    requires Enabled(s, step)
    ensures id in Next(s, step).stranded <==> Leaves(s, step, id) || (id in s.stranded && !step.Restart?)
  {
    hide Activate, Revoke, Strands;
  }

  // So a finished call has a secret file exactly when the removal of its own secret failed and the process was not
  // started again since; a start clears what was left.
  lemma FileLeftExactly(config: string, stale: set<nat>, steps: seq<Step>, id: nat)
    requires CanRun(Fresh(config, stale), steps)
    ensures var s := Run(Fresh(config, stale), steps);
            id in s.calls && s.calls[id].Finished? ==> (id in s.b.files <==> LeftSince(Fresh(config, stale), steps, id))
  {
    OverlappingCallsSafe(config, stale, steps);
    RunLeaves(Fresh(config, stale), steps, id);
  }

  // The first initialization after a start removes every file an earlier process left.
  lemma InitializeClears(b: Boundary, io: InitIo)
    requires !b.initialized && Initialize(b, io).0
    ensures Initialize(b, io).1.files == {} && Initialize(b, io).1.initialized
  {
  }

  // ---------------------------------------------------------------- the boundary object

  class SecretFileBoundary {
    var active: seq<Auth>
    var files: set<nat>
    var config: string
    var initialized: bool

    ghost function State(): Boundary
      reads this
    {
      Boundary(active, files, config, initialized)
    }

    constructor (config: string, stale: set<nat>)
      ensures State() == Fresh(config, stale).b
    {
      this.active, this.files, this.config, this.initialized := [], stale, config, false;
    }

    method ApplyConfig(io: ApplyIo) returns (ok: bool)
      modifies this`config
      ensures (ok, State()) == Apply(old(State()), io)
    {
      var next := Splice(config, BEGIN, END, Join(Entries(active), "\n"));
      if !io.config || next.None? { return false; }
      config := next.value;
      ok := io.reload;
    }

    method InitializeScoped(io: InitIo) returns (ok: bool)
      modifies this
      ensures (ok, State()) == Initialize(old(State()), io)
    {
      hide Apply;
      if initialized { return true; }
      active := [];
      if !io.remove {
        files := files - io.removed;
        return false;
      }
      files := {};
      if !io.mkdir { return false; }
      ok := ApplyConfig(io.apply);
      if ok { initialized := true; }
    }

    // The locked part of runWithAuthorization.
    method ActivateCall(auth: Auth, io: ActivateIo) returns (ok: bool)
      modifies this
      ensures (ok, State()) == Activate(old(State()), auth, io)
    {
      hide Apply;
      hide Initialize;
      var ready := InitializeScoped(io.init);
      if !ready || !io.mkdir || !io.write { return false; }
      files := files + {auth.id};
      active := active + [auth];
      ok := ApplyConfig(io.apply);
      if !ok {
        active := Without(active, auth.id);
        if !io.remove { return false; }
        files := files - {auth.id};
        var _ := ApplyConfig(io.applyAgain);
      }
    }

    method RevokeCall(id: nat, io: RevokeIo) returns (ok: bool)
      modifies this
      ensures (ok, State()) == Revoke(old(State()), id, io)
    {
      hide Apply;
      if id !in Ids(active) { return true; }
      active := Without(active, id);
      if !io.remove { return false; }
      files := files - {id};
      ok := ApplyConfig(io.apply);
    }
  }
}
