/** Overlapping calls of src/extensions/lifecycle.ts and the authority in use. */
module OverlapServing {
  import opened Text
  import opened Lifecycle
  import opened LifecycleOverlap

  // ---------------------------------------------------------------- when a step leaves the row's authority dead

  // The step revokes the authority in use, or switches to one that is not live any more.
  predicate ActKills(w: World, c: Call, io: Io) {
    match c
    case Undoing(expected, pending) =>
      !io.Fails? && pending == w.row.current && w.row.status != DisconnectingAuthority && w.row.status != Disconnected
    case Committing(expected, pending) =>
      && io.Ok? && w.row.revision == expected && w.row.status == Replacing
      && w.row.pending.Some? && w.row.pending.value !in w.live
    case _ => false
  }

  predicate Kills(s: System, e: Event) {
    e.Advance? && e.call in s.calls && ActKills(s.w, s.calls[e.call], e.io)
  }

  // What a call is about to revoke as replaced.
  function Old(c: Call): set<Id> {
    match c
    case RevokingOld(retiring) => {retiring}
    case _ => {}
  }

  function OldNext(next: Option<Call>): set<Id> {
    match next
    case None => {}
    case Some(c) => Old(c)
  }

  // A replaced authority never comes back: it is not in use, not pending, and in no call that would stage it.
  predicate Past(s: System, id: Id) {
    && id < s.w.next && id != s.w.row.current && id !in Ids(s.w.row.pending)
    && forall k <- s.calls :: id !in Staged(s.calls[k])
  }

  predicate OldsPast(s: System) {
    forall k <- s.calls, id <- Old(s.calls[k]) :: Past(s, id)
  }

  lemma ActServes(w: World, c: Call, io: Io)
    requires RowFits(w) && Fits(w, c) && Serving(w) && w.row.current !in Old(c)
    ensures Serving(Act(w, c, io).0) <==> !ActKills(w, c, io)
  {
    assert w.row.current in Refs(w.row);
    assert w.row.pending.Some? ==> w.row.pending.value in Refs(w.row);
  }

  // Where the ids after the step come from.
  lemma ActOlds(w: World, c: Call, io: Io)
    requires RowFits(w) && Fits(w, c)
    ensures var (w', next) := Act(w, c, io);
            && w.next <= w'.next
            && {w'.row.current} + Ids(w'.row.pending) <= {w.row.current} + Ids(w.row.pending) + Staged(c)
            && (forall id <- StagedNext(next) :: id in Staged(c) || id >= w.next)
            && forall id <- OldNext(next) ::
                 id == w.row.current && id < w.next && id != w'.row.current && w'.row.pending.None? && Staged(c) == {}
  {
    assert w.row.current in Refs(w.row);
    assert w.row.pending.Some? ==> w.row.pending.value in Refs(w.row);
  }

  lemma AdvancePast(s: System, k: nat, io: Io, id: Id)
    requires Bookkeeping(s) && k in s.calls && Past(s, id)
    ensures Past(Step(s, Advance(k, io)), id)
  {
    var c := s.calls[k];
    var (w', next) := Act(s.w, c, io);
    var t := Step(s, Advance(k, io));
    assert Fits(s.w, c);
    ActOlds(s.w, c, io);
    hide Act, Fits, RowFits, Bookkeeping;
    forall j <- t.calls ensures id !in Staged(t.calls[j]) {
      if j != k { assert t.calls[j] == s.calls[j]; }
    }
  }

  lemma AdvanceOlds(s: System, k: nat, io: Io)
    requires Bookkeeping(s) && OldsPast(s) && k in s.calls
    ensures OldsPast(Step(s, Advance(k, io)))
  {
    var c := s.calls[k];
    var (w', next) := Act(s.w, c, io);
    var t := Step(s, Advance(k, io));
    assert Fits(s.w, c);
    ActOlds(s.w, c, io);
    forall j <- s.calls ensures s.w.row.current !in Staged(s.calls[j]) {
      assert Fits(s.w, s.calls[j]) && s.w.row.current in Refs(s.w.row);
    }
    hide Act, Fits, RowFits;
    forall j <- t.calls, id <- Old(t.calls[j]) ensures Past(t, id) {
      if j != k {
        assert j in s.calls && t.calls[j] == s.calls[j];
        AdvancePast(s, k, io, id);
      } else {
        assert next == Some(t.calls[k]) && id in OldNext(next);
        forall i <- t.calls ensures id !in Staged(t.calls[i]) {
          if i != k { assert t.calls[i] == s.calls[i]; }
        }
      }
    }
  }

  lemma StartOlds(s: System, call: Option<Call>)
    requires Bookkeeping(s) && OldsPast(s)
    requires call == ReplaceFrom(s.w.row) || call == DisconnectFrom(s.w.row)
    ensures OldsPast(Enter(s, call))
  {
    var t := Enter(s, call);
    forall j <- t.calls, id <- Old(t.calls[j]) ensures Past(t, id) {
      if j in s.calls && (call.None? || j != s.next) {
        assert t.calls[j] == s.calls[j] && Past(s, id);
      } else {
        assert s.w.row.retiring == Some(id) && id in Refs(s.w.row);
        forall i <- s.calls ensures id !in Staged(s.calls[i]) { assert Fits(s.w, s.calls[i]); }
      }
    }
  }

  lemma DieOlds(s: System, k: nat)
    requires OldsPast(s)
    ensures OldsPast(Step(s, Dies(k)))
  {
    var t := Step(s, Dies(k));
    forall j <- t.calls, id <- Old(t.calls[j]) ensures Past(t, id) {
      assert j in s.calls && t.calls[j] == s.calls[j] && Past(s, id);
    }
  }

  ghost predicate Inv(s: System) {
    Bookkeeping(s) && OldsPast(s)
  }

  lemma StepInv(s: System, e: Event)
    requires Inv(s)
    ensures Inv(Step(s, e))
  {
    StepBooks(s, e);
    match e {
      case StartReplace => StartOlds(s, ReplaceFrom(s.w.row));
      case StartDisconnect => StartOlds(s, DisconnectFrom(s.w.row));
      case Advance(k, io) => if k in s.calls { AdvanceOlds(s, k, io); }
      case Dies(k) => DieOlds(s, k);
    }
  }

  // For every step of every interleaving: the authority in use stays live up to a disconnect, except exactly when a
  // call whose prepare failed revokes the authority that another call has switched to meanwhile, or a call switches to
  // an authority that was revoked meanwhile.
  lemma StepServesExactly(s: System, e: Event)
    requires Inv(s) && Serving(s.w)
    ensures Inv(Step(s, e)) && (Serving(Step(s, e).w) <==> !Kills(s, e))
  {
    StepInv(s, e);
    if e.Advance? && e.call in s.calls {
      var c := s.calls[e.call];
      assert Fits(s.w, c);
      forall id <- Old(c) ensures id != s.w.row.current { assert Past(s, id); }
      ActServes(s.w, c, e.io);
    }
  }

  // ---------------------------------------------------------------- runs

  predicate RunKills(s: System, es: seq<Event>)
    decreases |es|
  {
    es != [] && (Kills(s, es[0]) || RunKills(Step(s, es[0]), es[1..]))
  }

  lemma {:induction false} RunServesExactly(s: System, es: seq<Event>)
    requires Inv(s) && Serving(s.w)
    ensures (forall i :: 0 <= i <= |es| ==> Serving(LifecycleOverlap.Run(s, es[..i]).w)) <==> !RunKills(s, es)
    decreases |es|
  {
    if es == [] {
      assert es[..0] == [];
    } else {
      var s1 := Step(s, es[0]);
      StepServesExactly(s, es[0]);
      hide Inv, Serving, Kills, Step;
      var rest := es[1..];
      assert es[..1] == [es[0]] && [es[0]][1..] == [];
      assert LifecycleOverlap.Run(s, es[..0]) == s && LifecycleOverlap.Run(s, es[..1]) == s1;
      forall i | 0 <= i <= |rest| ensures LifecycleOverlap.Run(s, es[..i + 1]) == LifecycleOverlap.Run(s1, rest[..i]) {
        assert es[..i + 1][1..] == rest[..i];
      }
      if !Kills(s, es[0]) {
        RunServesExactly(s1, rest);
        forall i | 0 < i <= |es| ensures LifecycleOverlap.Run(s, es[..i]) == LifecycleOverlap.Run(s1, rest[..i - 1]) {}
      }
    }
  }

  // From a fresh connection, however calls overlap, fail and die.
  lemma OverlapServes(scope: Scope, id: Id, es: seq<Event>)
    ensures (forall i :: 0 <= i <= |es| ==> Serving(LifecycleOverlap.Run(Fresh(scope, id), es[..i]).w))
            <==> !RunKills(Fresh(scope, id), es)
  {
    RunServesExactly(Fresh(scope, id), es);
  }

  // ---------------------------------------------------------------- such a run

  // Call 0 begins a replacement; call 1 takes it up and its prepare fails; call 0 switches; then call 1 revokes what it
  // captured, which is in use by now, and call 0 revokes the old one and finishes. The roll-back of call 1 is refused.
  // The connection is active and nothing is live, and no authority was ever stranded.
  function UndoRun(): seq<Event> {
    [StartReplace, Advance(0, Ok), Advance(0, Ok)] + [StartReplace, Advance(1, Fails), Advance(0, Ok), Advance(0, Ok)]
    + [Advance(1, Ok), Advance(0, Ok), Advance(0, Ok), Advance(1, Ok)]
  }

  lemma RunOf(s: System, a: Event, b: Event, c: Event, d: Event)
    ensures LifecycleOverlap.Run(s, [a, b, c, d]) == Step(Step(Step(Step(s, a), b), c), d)
    ensures RunStrands(s, [a, b, c, d]) <==>
            Strands(s, a) || Strands(Step(s, a), b) || Strands(Step(Step(s, a), b), c)
            || Strands(Step(Step(Step(s, a), b), c), d)
  {
    RunFour(s, a, b, c, d);
    hide Step, Strands;
    assert [a, b, c, d] == [a] + ([b] + ([c] + ([d] + [])));
    StrandsFirst(s, a, [b] + ([c] + ([d] + [])));
    StrandsFirst(Step(s, a), b, [c] + ([d] + []));
    StrandsFirst(Step(Step(s, a), b), c, [d] + []);
    StrandsFirst(Step(Step(Step(s, a), b), c), d, []);
  }

  lemma StrandsFirst(s: System, a: Event, rest: seq<Event>)
    ensures RunStrands(s, [a] + rest) <==> Strands(s, a) || RunStrands(Step(s, a), rest)
  {
    assert ([a] + rest)[1..] == rest;
  }

  lemma {:induction false} StrandsTwice(s: System, es: seq<Event>, more: seq<Event>)
    ensures RunStrands(s, es + more) <==> RunStrands(s, es) || RunStrands(LifecycleOverlap.Run(s, es), more)
    decreases |es|
  {
    if es == [] {
      assert es + more == more;
    } else {
      hide Step, Strands;
      assert (es + more)[1..] == es[1..] + more;
      StrandsTwice(Step(s, es[0]), es[1..], more);
    }
  }

  // The first call begins; the second takes the staged authority up and fails to prepare it; the first switches.
  lemma Switched(scope: Scope, id: Id)
    ensures var es := [StartReplace, Advance(0, Ok), Advance(0, Ok)];
            var more := [StartReplace, Advance(1, Fails), Advance(0, Ok), Advance(0, Ok)];
            var s := LifecycleOverlap.Run(Fresh(scope, id), es + more);
            && s.w.row == Row(scope, CleanupPending, 2, id + 1, None, Some(id)) && s.w.live == {id, id + 1}
            && s.w.orphans == {} && s.calls == map[0 := RevokingOld(id), 1 := Undoing(1, id + 1)]
            && !RunStrands(Fresh(scope, id), es + more)
  {
    var s0 := Fresh(scope, id);
    var es := [StartReplace, Advance(0, Ok), Advance(0, Ok)];
    var more := [StartReplace, Advance(1, Fails), Advance(0, Ok), Advance(0, Ok)];
    Begun(s0);
    assert !RunStrands(s0, es) by { FirstQuiet(scope, id); }
    var s1 := LifecycleOverlap.Run(s0, es);
    RunTwice(s0, es, more);
    StrandsTwice(s0, es, more);
    hide LifecycleOverlap.Run, RunStrands;
    RunOf(s1, StartReplace, Advance(1, Fails), Advance(0, Ok), Advance(0, Ok));
    assert s1.calls == map[0 := Preparing(1, id + 1)];
    var s2 := Step(s1, StartReplace);
    assert s2.calls == map[0 := Preparing(1, id + 1), 1 := Preparing(1, id + 1)];
    var s3 := Step(s2, Advance(1, Fails));
    assert s3.calls == map[0 := Preparing(1, id + 1), 1 := Undoing(1, id + 1)] && s3.w == s1.w;
    var s4 := Step(s3, Advance(0, Ok));
    assert s4.calls == map[0 := Committing(1, id + 1), 1 := Undoing(1, id + 1)] && s4.w == s1.w;
  }

  lemma FirstQuiet(scope: Scope, id: Id)
    ensures !RunStrands(Fresh(scope, id), [StartReplace, Advance(0, Ok), Advance(0, Ok)])
  {
    var s := Fresh(scope, id);
    var a, b, c := StartReplace, Advance(0, Ok), Advance(0, Ok);
    assert [a, b, c][1..] == [b, c] && [b, c][1..] == [c] && [c][1..] == [];
    assert Step(s, a).calls == map[0 := Provisioning(1)];
    assert Step(Step(s, a), b).calls == map[0 := Beginning(1, id + 1)];
  }

  lemma UndoKillsCurrent(scope: Scope, id: Id)
    ensures var t := LifecycleOverlap.Run(Fresh(scope, id), UndoRun());
            && t.w.row == Row(scope, Active, 2, id + 1, None, None) && t.calls == map[]
            && t.w.live == {} && t.w.orphans == {}
    ensures forall i :: 0 <= i <= |UndoRun()| ==> NoneStray(LifecycleOverlap.Run(Fresh(scope, id), UndoRun()[..i]))
  {
    UndoQuiet(scope, id);
    hide *;
    OverlapSafe(scope, id, UndoRun());
  }

  lemma UndoQuiet(scope: Scope, id: Id)
    ensures var t := LifecycleOverlap.Run(Fresh(scope, id), UndoRun());
            && t.w.row == Row(scope, Active, 2, id + 1, None, None) && t.calls == map[]
            && t.w.live == {} && t.w.orphans == {}
    ensures !RunStrands(Fresh(scope, id), UndoRun())
  {
    var s0 := Fresh(scope, id);
    var es := [StartReplace, Advance(0, Ok), Advance(0, Ok)]
              + [StartReplace, Advance(1, Fails), Advance(0, Ok), Advance(0, Ok)];
    var more := [Advance(1, Ok), Advance(0, Ok), Advance(0, Ok), Advance(1, Ok)];
    Switched(scope, id);
    var s := LifecycleOverlap.Run(s0, es);
    RunTwice(s0, es, more);
    StrandsTwice(s0, es, more);
    hide LifecycleOverlap.Run, RunStrands;
    RunOf(s, Advance(1, Ok), Advance(0, Ok), Advance(0, Ok), Advance(1, Ok));
    var s1 := Step(s, Advance(1, Ok));
    assert s1.calls == map[0 := RevokingOld(id), 1 := RollingBack(1, id + 1)] && s1.w.live == {id};
    var s2 := Step(s1, Advance(0, Ok));
    assert s2.calls == map[0 := Finishing(id), 1 := RollingBack(1, id + 1)] && s2.w.live == {};
    var s3 := Step(s2, Advance(0, Ok));
    assert s3.calls == map[1 := RollingBack(1, id + 1)];
    assert Step(s3, Advance(1, Ok)).calls == map[];
  }
}
