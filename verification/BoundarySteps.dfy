/** Each locked operation of src/extensions/boundary.ts, from the outcomes of its file and proxy calls. */
module BoundarySteps {
  import opened Text
  import opened ScopedRegion
  import opened ScopedMarkers
  import opened SecretBoundary

  // The config has the two markers in their order.
  predicate Marked(config: string) {
    0 <= Find(config, BEGIN) <= Find(config, END)
  }

  // What stands between the markers for some active calls: their entries, one after the other, on lines of their own.
  function Listing(active: seq<Auth>): string {
    var entries := Join(seq(|active|, k requires 0 <= k < |active| => active[k].entry), ['\n']);
    if entries == "" then ['\n'] else ['\n'] + entries + ['\n']
  }

  // The config with some text between its two markers and everything else as it was.
  function Rewritten(config: string, b: string, e: string, text: string): string {
    var from, to := Find(config, b) + |b|, Find(config, e);
    if !(|b| <= from <= |config| && 0 <= to <= |config|) then config else config[..from] + text + config[to..]
  }

  // The config with the listing of some calls.
  function Listed(config: string, active: seq<Auth>): string {
    if Marked(config) then Rewritten(config, BEGIN, END, Listing(active)) else config
  }

  predicate Applies(config: string, io: ApplyIo) {
    io.config && Marked(config) && io.reload
  }

  // Applying succeeds exactly when the config can be rewritten, has its markers, and is reloaded. Once it is rewritten
  // it stays so, reloaded or not; nothing else changes.
  lemma ApplyExact(b: Boundary, io: ApplyIo)
    ensures var (ok, b') := Apply(b, io);
            && (ok <==> Applies(b.config, io))
            && b' == b.(config := if io.config then Listed(b.config, b.active) else b.config)
  {
    hide Find, Splice, Body, Join, Rewritten;
    ListsEntries(b.active);
    SpliceRewrites(b.config, BEGIN, END, Join(Entries(b.active), "\n"));
  }

  lemma ListsEntries(active: seq<Auth>)
    ensures Body(Join(Entries(active), "\n")) == Listing(active)
  {
    hide Join;
    assert Entries(active) == seq(|active|, k requires 0 <= k < |active| => active[k].entry);
    assert "\n" == ['\n'];
  }

  lemma SpliceRewrites(config: string, b: string, e: string, entries: string)
    ensures Splice(config, b, e, entries).Some? <==> 0 <= Find(config, b) <= Find(config, e)
    ensures Splice(config, b, e, entries).Some? ==>
              Splice(config, b, e, entries).value == Rewritten(config, b, e, Body(entries))
  {
    hide Body;
  }

  // Initializing clears what an earlier process left: the active calls, then the directory, then the listing. It counts
  // only when all of that succeeds, and is not done twice.
  lemma InitializeExact(b: Boundary, io: InitIo)
    ensures var (ok, b') := Initialize(b, io);
            if b.initialized then ok && b' == b
            else
              && (ok <==> io.remove && io.mkdir && Applies(b.config, io.apply))
              && b'.initialized == ok && b'.active == []
              && b'.files == (if io.remove then {} else b.files - io.removed)
              && b'.config == if io.remove && io.mkdir && io.apply.config then Listed(b.config, []) else b.config
  {
    ApplyExact(b.(active := [], files := {}), io.apply);
    hide Apply, Listed, Applies;
  }

  lemma {:induction false} WithoutAt(active: seq<Auth>, k: nat)
    requires DistinctIds(active) && k < |active|
    ensures Without(active, active[k].id) == active[..k] + active[k + 1..]
    decreases |active|
  {
    var rest := active[1..];
    assert forall i :: 0 <= i < |rest| ==> rest[i] == active[i + 1];
    if k == 0 {
      NoneWithout(rest, active[0].id);
    } else {
      WithoutAt(rest, k - 1);
      assert active[..k] == [active[0]] + rest[..k - 1] && active[k + 1..] == rest[k..];
    }
  }

  lemma {:induction false} NoneWithout(active: seq<Auth>, id: nat)
    requires forall i :: 0 <= i < |active| ==> active[i].id != id
    ensures Without(active, id) == active
  {
    if active != [] { NoneWithout(active[1..], id); }
  }

  // Revoking takes the call off the list, then removes its secret, then applies; it goes on to the next only when the
  // one before succeeds. A call that is not active is revoked already.
  lemma RevokeExact(b: Boundary, k: nat, io: RevokeIo)
    requires DistinctIds(b.active) && k < |b.active|
    ensures var (ok, b') := Revoke(b, b.active[k].id, io);
            var left := b.active[..k] + b.active[k + 1..];
            && (ok <==> io.remove && Applies(b.config, io.apply))
            && b'.active == left && b'.initialized == b.initialized
            && b'.files == (if io.remove then b.files - {b.active[k].id} else b.files)
            && b'.config == if io.remove && io.apply.config then Listed(b.config, left) else b.config
  {
    WithoutAt(b.active, k);
    var left := b.active[..k] + b.active[k + 1..];
    assert b.active[k].id in Ids(b.active);
    ApplyExact(b.(active := left, files := b.files - {b.active[k].id}), io.apply);
    hide Apply, Listed, Applies, Without, Ids;
  }

  lemma RevokedAlready(b: Boundary, id: nat, io: RevokeIo)
    requires forall i :: 0 <= i < |b.active| ==> b.active[i].id != id
    ensures Revoke(b, id, io) == (true, b)
  {
  }

  // The first activation initializes; when that fails it goes no further.
  lemma ActivateInitializes(b: Boundary, auth: Auth, io: ActivateIo)
    requires !b.initialized
    ensures var (ok, b1) := Initialize(b, io.init);
            Activate(b, auth, io) == if ok then Activate(b1, auth, io) else (false, b1)
  {
    hide Apply;
  }

  // Activating on an initialized boundary succeeds exactly when every call it makes does; then the call comes last in
  // the list. When the config cannot be applied, the call is taken off the list again, its secret is removed, and the
  // list is applied without it, as far as that goes.
  lemma ActivateSteps(b: Boundary, auth: Auth, io: ActivateIo)
    requires b.initialized && DistinctIds(b.active) && forall i :: 0 <= i < |b.active| ==> b.active[i].id != auth.id
    ensures var (ok, b') := Activate(b, auth, io);
            var listed := if io.apply.config then Listed(b.config, b.active + [auth]) else b.config;
            && (ok <==> io.mkdir && io.write && Applies(b.config, io.apply)) && b'.initialized
            && b'.active == (if ok then b.active + [auth] else b.active)
            && (!io.mkdir || !io.write ==> b' == b)
            && (ok ==> b'.files == b.files + {auth.id} && b'.config == listed)
            && (io.mkdir && io.write && !ok ==>
                  && b'.files == (if io.remove then b.files - {auth.id} else b.files + {auth.id})
                  && b'.config == if io.remove && io.applyAgain.config then Listed(listed, b.active) else listed)
  {
    var b2 := b.(files := b.files + {auth.id}, active := b.active + [auth]);
    ApplyExact(b2, io.apply);
    WithoutLast(b.active, auth);
    var b3 := Apply(b2, io.apply).1;
    var b4 := b3.(active := b.active, files := b3.files - {auth.id});
    ApplyExact(b4, io.applyAgain);
    assert b.files + {auth.id} - {auth.id} == b.files - {auth.id};
    hide Apply, Listed, Applies, Without;
  }

  lemma WithoutLast(active: seq<Auth>, auth: Auth)
    requires DistinctIds(active) && forall i :: 0 <= i < |active| ==> active[i].id != auth.id
    ensures Without(active + [auth], auth.id) == active
  {
    var all := active + [auth];
    assert DistinctIds(all);
    WithoutAt(all, |active|);
    assert all[..|active|] + all[|active| + 1..] == active;
  }

  // A start keeps the config and whatever files are left, and nothing of what the process knew.
  lemma RestartKeeps(s: System, left: set<nat>)
    requires left <= s.used + s.b.files
    ensures var t := Next(s, Restart(left));
            && t.b == Boundary([], left, s.b.config, false) && t.calls == map[] && t.queue == []
            && forall id <- s.used + left :: !Enabled(t, Begin(id, ""))
  {
  }

  // A run goes on with exactly the steps that are enabled where it has come to, and then comes to what the step does.
  lemma {:induction false} RunsOn(s: System, steps: seq<Step>, step: Step)
    ensures CanRun(s, []) && Run(s, []) == s
    ensures CanRun(s, steps + [step]) <==> CanRun(s, steps) && Enabled(Run(s, steps), step)
    ensures CanRun(s, steps + [step]) ==> Run(s, steps + [step]) == Next(Run(s, steps), step)
    decreases |steps|
  {
    hide Enabled, Next;
    if steps == [] {
      assert steps + [step] == [step] && [step][1..] == [];
    } else {
      assert (steps + [step])[1..] == steps[1..] + [step];
      if Enabled(s, steps[0]) { RunsOn(Next(s, steps[0]), steps[1..], step); }
    }
  }
}
