/** Overlapping calls on one connection: src/extensions/lifecycle.ts taken step by step over src/store/db.ts. */
module LifecycleOverlap {
  import opened Text
  import opened Lifecycle

  // A call in flight: the next thing it does, and what it has captured. It acts on the row it read or was returned, and
  // not on the row as it is by then; only the store's updates test the row again.
  datatype Call =
    | Provisioning(expected: nat)
    | Beginning(expected: nat, staged: Id)
    | TakingBack(staged: Id)
    | Preparing(expected: nat, pending: Id)
    | Undoing(expected: nat, pending: Id)
    | RollingBack(expected: nat, pending: Id)
    | Committing(expected: nat, pending: Id)
    | RevokingOld(retiring: Id)
    | Finishing(retiring: Id)
    | BeginningDisconnect(expected: nat)
    | Clearing
    | RevokingCurrent(current: Id)
    | Disconnecting(current: Id)

  // How the awaited thing ends.
  datatype Io = Ok | ThenFails | Fails

  datatype System = System(w: World, calls: map<nat, Call>, next: nat)

  datatype Event = StartReplace | StartDisconnect | Advance(call: nat, io: Io) | Dies(call: nat)

  // ---------------------------------------------------------------- steps

  // What a call captures from the row it reads; None when it is refused there.
  function ReplaceFrom(row: Row): Option<Call> {
    match row.status
    case Active => Some(Provisioning(row.revision))
    case Replacing => if row.pending.Some? then Some(Preparing(row.revision, row.pending.value)) else None
    case CleanupPending => if row.retiring.Some? then Some(RevokingOld(row.retiring.value)) else None
    case _ => None
  }

  function DisconnectFrom(row: Row): Option<Call> {
    match row.status
    case Active => Some(BeginningDisconnect(row.revision))
    case DisconnectingBoundary => Some(Clearing)
    case DisconnectingAuthority => Some(RevokingCurrent(row.current))
    case _ => None
  }

  function Enter(s: System, call: Option<Call>): System {
    match call
    case None => s
    case Some(c) => s.(calls := s.calls[s.next := c], next := s.next + 1)
  }

  function Revocation(io: Io): Revocation {
    match io
    case Ok => Revoked
    case ThenFails => RevokedThenFailed
    case Fails => NotRevoked
  }

  // One step of a call: the world after it, and what the call does next, if anything.
  function Act(w: World, c: Call, io: Io): (World, Option<Call>) {
    match c
    case Provisioning(expected) =>
      if io.Fails? then (w, None)
      else if io.ThenFails? then (Provision(w).(orphans := w.orphans + {w.next}), None)
      else (Provision(w), Some(Beginning(expected, w.next)))
    case Beginning(expected, staged) =>
      (match BeginReplacement(w, expected, staged, io.Ok?)
       case None => (w, Some(TakingBack(staged)))
       case Some(w1) => (w1, Some(Preparing(expected, staged))))
    case TakingBack(staged) =>
      var w1 := Revoke(w, staged, Revocation(io));
      (if io.Fails? then w1.(orphans := w1.orphans + {staged}) else w1, None)
    case Preparing(expected, pending) =>
      (w, Some(if io.Ok? then Committing(expected, pending) else Undoing(expected, pending)))
    case Undoing(expected, pending) =>
      (Revoke(w, pending, Revocation(io)), if io.Ok? then Some(RollingBack(expected, pending)) else None)
    case RollingBack(expected, pending) =>
      (match RollbackReplacement(w, expected, io.Ok?) case None => (w, None) case Some(w1) => (w1, None))
    case Committing(expected, pending) =>
      (match CommitReplacement(w, expected, io.Ok?)
       case None => (w, None)
       case Some(w1) => (w1, Some(RevokingOld(w.row.current))))
    case RevokingOld(retiring) =>
      (Revoke(w, retiring, Revocation(io)), if io.Ok? then Some(Finishing(retiring)) else None)
    case Finishing(retiring) =>
      (match Transition(w, CleanupPending, Active, true, io.Ok?) case None => (w, None) case Some(w1) => (w1, None))
    case BeginningDisconnect(expected) =>
      (match BeginDisconnect(w, expected, io.Ok?) case None => (w, None) case Some(w1) => (w1, Some(Clearing)))
    case Clearing =>
      (match Transition(w, DisconnectingBoundary, DisconnectingAuthority, false, io.Ok?)
       case None => (w, None)
       case Some(w1) => (w1, Some(RevokingCurrent(w1.row.current))))
    case RevokingCurrent(current) =>
      (Revoke(w, current, Revocation(io)), if io.Ok? then Some(Disconnecting(current)) else None)
    case Disconnecting(current) =>
      (match Transition(w, DisconnectingAuthority, Disconnected, false, io.Ok?)
       case None => (w, None)
       case Some(w1) => (w1, None))
  }

  // An authority that only a call in flight knows of.
  function Staged(c: Call): set<Id> {
    match c
    case Beginning(_, staged) => {staged}
    case TakingBack(staged) => {staged}
    case _ => {}
  }

  function Put(calls: map<nat, Call>, k: nat, c: Option<Call>): map<nat, Call> {
    match c
    case None => calls - {k}
    case Some(call) => calls[k := call]
  }

  function Step(s: System, e: Event): System {
    match e
    case StartReplace => Enter(s, ReplaceFrom(s.w.row))
    case StartDisconnect => Enter(s, DisconnectFrom(s.w.row))
    case Advance(k, io) =>
      if k !in s.calls then s
      else
        var (w', next) := Act(s.w, s.calls[k], io);
        s.(w := w', calls := Put(s.calls, k, next))
    case Dies(k) =>
      if k !in s.calls then s
      else s.(w := s.w.(orphans := s.w.orphans + (Staged(s.calls[k]) * s.w.live)), calls := s.calls - {k})
  }

  function Run(s: System, es: seq<Event>): System
    decreases |es|
  {
    if es == [] then s else Run(Step(s, es[0]), es[1..])
  }

  // ---------------------------------------------------------------- the invariant

  function Refs(row: Row): set<Id> {
    {row.current} + Ids(row.pending) + Ids(row.retiring)
  }

  // What the captured ids are worth while other calls act.
  predicate Fits(w: World, c: Call) {
    match c
    case Beginning(_, staged) => staged < w.next && staged !in Refs(w.row) + w.orphans
    case TakingBack(staged) => staged < w.next && staged !in Refs(w.row) + w.orphans
    case RollingBack(_, pending) => pending < w.next && pending !in w.live
    case Finishing(retiring) => retiring < w.next && retiring !in w.live
    case RevokingCurrent(current) =>
      current == w.row.current && (w.row.status == DisconnectingAuthority || w.row.status == Disconnected)
    case Disconnecting(current) =>
      && current == w.row.current && (w.row.status == DisconnectingAuthority || w.row.status == Disconnected)
      && current !in w.live
    case Preparing(_, pending) => pending < w.next
    case Undoing(_, pending) => pending < w.next
    case Committing(_, pending) => pending < w.next
    case RevokingOld(retiring) => retiring < w.next
    case _ => true
  }

  predicate InCalls(s: System, id: Id) {
    exists k <- s.calls :: id in Staged(s.calls[k])
  }

  // Every unrevoked authority is referenced by the row, known to a call in flight, or recorded as left behind.
  predicate NoneStray(s: System) {
    forall id <- s.w.live :: id in Held(s.w.row) || id in s.w.orphans || InCalls(s, id)
  }

  predicate Below(ids: set<Id>, next: Id) {
    forall id <- ids :: id < next
  }

  predicate RowFits(w: World) {
    && Shape(w.row) && Below(w.live, w.next) && Below(w.orphans, w.next) && Below(Refs(w.row), w.next)
    && w.orphans !! Refs(w.row)
  }

  // Everything else that holds.
  predicate Bookkeeping(s: System) {
    && RowFits(s.w)
    && (forall k <- s.calls :: k < s.next && Fits(s.w, s.calls[k]))
    && (forall j <- s.calls, k <- s.calls :: j != k ==> Staged(s.calls[j]) !! Staged(s.calls[k]))
  }

  // ---------------------------------------------------------------- when a step strands an authority

  // The step drops from the row an authority that is not the one the call captured and revoked, and that is still live.
  predicate ActStrands(w: World, c: Call, io: Io) {
    match c
    case RollingBack(expected, pending) =>
      && io.Ok? && w.row.revision == expected && w.row.status == Replacing
      && w.row.pending.Some? && w.row.pending.value != pending && w.row.pending.value in w.live
    case Finishing(retiring) =>
      && io.Ok? && w.row.status == CleanupPending
      && w.row.retiring.Some? && w.row.retiring.value != retiring && w.row.retiring.value in w.live
    case _ => false
  }

  predicate Strands(s: System, e: Event) {
    e.Advance? && e.call in s.calls && ActStrands(s.w, s.calls[e.call], e.io)
  }

  function StagedNext(next: Option<Call>): set<Id> {
    match next
    case None => {}
    case Some(c) => Staged(c)
  }

  // Live after the step, known to the row or the call before it, and to nothing after it.
  predicate Lost(w: World, c: Call, io: Io, id: Id) {
    var (w', next) := Act(w, c, io);
    && id in w'.live && (id in Held(w.row) || id in Staged(c))
    && id !in Held(w'.row) && id !in w'.orphans && id !in StagedNext(next)
  }

  lemma ActExact(w: World, c: Call, io: Io)
    requires RowFits(w) && Fits(w, c)
    ensures (exists id :: Lost(w, c, io, id)) <==> ActStrands(w, c, io)
    ensures forall id :: Lost(w, c, io, id) ==> id in Refs(w.row)
    ensures var (w', next) := Act(w, c, io);
            && w.orphans <= w'.orphans
            && forall id <- w'.live :: id in w.live || id in w'.orphans || id in StagedNext(next)
  {
    if ActStrands(w, c, io) {
      if c.RollingBack? {
        assert Lost(w, c, io, w.row.pending.value);
      } else {
        assert Lost(w, c, io, w.row.retiring.value);
      }
    }
  }

  // Every step keeps the bookkeeping.
  lemma ActFits(w: World, c: Call, io: Io)
    requires RowFits(w) && Fits(w, c)
    ensures var (w', next) := Act(w, c, io);
            && RowFits(w') && w.next <= w'.next && (next.Some? ==> Fits(w', next.value))
            && forall id <- StagedNext(next) :: id in Staged(c) || id >= w.next
  {
    assert w.row.current in Refs(w.row);
    assert w.row.pending.Some? ==> w.row.pending.value in Refs(w.row);
    assert w.row.retiring.Some? ==> w.row.retiring.value in Refs(w.row);
    assert w.next !in w.live + w.orphans + Refs(w.row);
    var w' := Act(w, c, io).0;
    assert Refs(w'.row) <= Refs(w.row) + Staged(c);
  }

  // The ids that other calls have captured keep their worth.
  lemma OthersFit(w: World, c: Call, io: Io, other: Call)
    requires RowFits(w) && Fits(w, c) && Fits(w, other) && Staged(c) !! Staged(other)
    ensures Fits(Act(w, c, io).0, other)
  {
  }

  lemma AdvanceBooks(s: System, k: nat, io: Io)
    requires Bookkeeping(s) && k in s.calls
    ensures Bookkeeping(Step(s, Advance(k, io)))
  {
    var c := s.calls[k];
    var (w', next) := Act(s.w, c, io);
    var t := Step(s, Advance(k, io));
    assert RowFits(s.w) && Fits(s.w, c);
    ActFits(s.w, c, io);
    forall j <- s.calls | j != k ensures Fits(w', s.calls[j]) { OthersFit(s.w, c, io, s.calls[j]); }
    forall j <- s.calls ensures forall id <- Staged(s.calls[j]) :: id < s.w.next { assert Fits(s.w, s.calls[j]); }
    hide Act, Fits, Shape;
    assert RowFits(w');
    forall i <- t.calls, j <- t.calls | i != j ensures Staged(t.calls[i]) !! Staged(t.calls[j]) {
      assert i != k ==> t.calls[i] == s.calls[i];
      assert j != k ==> t.calls[j] == s.calls[j];
    }
  }

  lemma StartBooks(s: System, call: Option<Call>)
    requires Bookkeeping(s) && (call.Some? ==> Fits(s.w, call.value) && Staged(call.value) == {})
    ensures Bookkeeping(Enter(s, call))
  {
    hide Fits;
  }

  lemma DieBooks(s: System, k: nat)
    requires Bookkeeping(s)
    ensures Bookkeeping(Step(s, Dies(k)))
  {
    if k in s.calls {
      assert Fits(s.w, s.calls[k]);
      var t := Step(s, Dies(k));
      forall j <- t.calls ensures Fits(t.w, t.calls[j]) {
        assert Fits(s.w, s.calls[j]) && Staged(s.calls[j]) !! Staged(s.calls[k]);
      }
    }
  }

  lemma StepBooks(s: System, e: Event)
    requires Bookkeeping(s)
    ensures Bookkeeping(Step(s, e))
  {
    match e {
      case StartReplace => StartBooks(s, ReplaceFrom(s.w.row));
      case StartDisconnect => StartBooks(s, DisconnectFrom(s.w.row));
      case Advance(k, io) => if k in s.calls { AdvanceBooks(s, k, io); }
      case Dies(k) => DieBooks(s, k);
    }
  }

  lemma AdvanceStrays(s: System, k: nat, io: Io)
    requires Bookkeeping(s) && NoneStray(s) && k in s.calls
    ensures NoneStray(Step(s, Advance(k, io))) <==> !Strands(s, Advance(k, io))
  {
    var c := s.calls[k];
    var (w', next) := Act(s.w, c, io);
    var t := Step(s, Advance(k, io));
    assert Fits(s.w, c);
    ActExact(s.w, c, io);
    forall j <- s.calls ensures Staged(s.calls[j]) !! Refs(s.w.row) { assert Fits(s.w, s.calls[j]); }
    ActFits(s.w, c, io);
    hide Act, Fits, ActStrands;
    if id :| Lost(s.w, c, io, id) {
      assert !InCalls(t, id) by { OnlyOthers(s, k, next, id); }
      assert !NoneStray(t);
    } else {
      forall id <- w'.live ensures id in Held(w'.row) || id in w'.orphans || InCalls(t, id) {
        assert !Lost(s.w, c, io, id);
        Covered(s, k, io, id);
      }
    }
  }

  // After the step only its own call can have come to know an authority.
  lemma OnlyOthers(s: System, k: nat, next: Option<Call>, id: Id)
    requires k in s.calls && id !in StagedNext(next) && forall j <- s.calls :: j != k ==> id !in Staged(s.calls[j])
    ensures forall j <- Put(s.calls, k, next) :: id !in Staged(Put(s.calls, k, next)[j])
  {
  }

  lemma Covered(s: System, k: nat, io: Io, id: Id)
    requires NoneStray(s) && k in s.calls && !Lost(s.w, s.calls[k], io, id)
    requires var (w', next) := Act(s.w, s.calls[k], io);
             && s.w.orphans <= w'.orphans && id in w'.live &&
                 (id in s.w.live || id in w'.orphans || id in StagedNext(next))
    ensures var t := Step(s, Advance(k, io)); id in Held(t.w.row) || id in t.w.orphans || InCalls(t, id)
  {
    var c := s.calls[k];
    var (w', next) := Act(s.w, c, io);
    var t := Step(s, Advance(k, io));
    hide Act;
    if id in StagedNext(next) {
      assert k in t.calls && id in Staged(t.calls[k]);
    } else if id in s.w.live && id !in Held(s.w.row) && id !in s.w.orphans && id !in Staged(c) {
      var j :| j in s.calls && id in Staged(s.calls[j]);
      assert j in t.calls && t.calls[j] == s.calls[j];
    }
  }

  lemma StartStrays(s: System, call: Option<Call>)
    requires Bookkeeping(s) && NoneStray(s)
    ensures NoneStray(Enter(s, call))
  {
    var t := Enter(s, call);
    forall id <- t.w.live ensures id in Held(t.w.row) || id in t.w.orphans || InCalls(t, id) {
      if InCalls(s, id) {
        var j :| j in s.calls && id in Staged(s.calls[j]);
        assert j in t.calls && t.calls[j] == s.calls[j];
      }
    }
  }

  lemma DieStrays(s: System, k: nat)
    requires NoneStray(s)
    ensures NoneStray(Step(s, Dies(k)))
  {
    var t := Step(s, Dies(k));
    forall id <- t.w.live ensures id in Held(t.w.row) || id in t.w.orphans || InCalls(t, id) {
      if InCalls(s, id) {
        var j :| j in s.calls && id in Staged(s.calls[j]);
        if j != k { assert j in t.calls && t.calls[j] == s.calls[j]; }
      }
    }
  }

  // For every step of every interleaving: no authority goes astray in it, except exactly when a roll-back or a final
  // transition takes from the row an authority that its call has not captured and that is still live. No other step
  // strands one, whatever the call has captured; a step may still revoke the authority in use, see OverlapServing.dfy.
  lemma StepExact(s: System, e: Event)
    requires Bookkeeping(s) && NoneStray(s)
    ensures Bookkeeping(Step(s, e)) && (NoneStray(Step(s, e)) <==> !Strands(s, e))
  {
    StepBooks(s, e);
    match e {
      case StartReplace => StartStrays(s, ReplaceFrom(s.w.row));
      case StartDisconnect => StartStrays(s, DisconnectFrom(s.w.row));
      case Advance(k, io) => if k in s.calls { AdvanceStrays(s, k, io); }
      case Dies(k) => DieStrays(s, k);
    }
  }

  predicate RunStrands(s: System, es: seq<Event>)
    decreases |es|
  {
    es != [] && (Strands(s, es[0]) || RunStrands(Step(s, es[0]), es[1..]))
  }

  lemma {:induction false} RunExact(s: System, es: seq<Event>)
    requires Bookkeeping(s) && NoneStray(s)
    ensures (forall i :: 0 <= i <= |es| ==> NoneStray(Run(s, es[..i]))) <==> !RunStrands(s, es)
    decreases |es|
  {
    if es == [] {
      assert es[..0] == [];
    } else {
      var s1 := Step(s, es[0]);
      StepExact(s, es[0]);
      hide Bookkeeping, NoneStray, Step, Strands;
      var rest := es[1..];
      assert es[..1] == [es[0]] && [es[0]][1..] == [];
      assert Run(s, es[..0]) == s && Run(s, es[..1]) == s1;
      forall i | 0 <= i <= |rest| ensures Run(s, es[..i + 1]) == Run(s1, rest[..i]) {
        assert es[..i + 1][1..] == rest[..i];
      }
      if !Strands(s, es[0]) {
        RunExact(s1, rest);
        forall i | 0 < i <= |es| ensures Run(s, es[..i]) == Run(s1, rest[..i - 1]) {}
      }
    }
  }

  // A fresh connection and no call in flight.
  function Fresh(scope: Scope, id: Id): System {
    System(Connected(scope, id), map[], 0)
  }

  // However calls overlap, fail and die: in every state every unrevoked authority is the row's, a call's in flight, or
  // recorded as left behind, exactly when no such step happens.
  lemma OverlapSafe(scope: Scope, id: Id, es: seq<Event>)
    ensures (forall i :: 0 <= i <= |es| ==> NoneStray(Run(Fresh(scope, id), es[..i])))
            <==> !RunStrands(Fresh(scope, id), es)
  {
    RunExact(Fresh(scope, id), es);
  }

  // ---------------------------------------------------------------- two such runs

  lemma {:induction false} RunTwice(s: System, es: seq<Event>, more: seq<Event>)
    ensures Run(s, es + more) == Run(Run(s, es), more)
    decreases |es|
  {
    if es == [] {
      assert es + more == more;
    } else {
      assert (es + more)[1..] == es[1..] + more;
      RunTwice(Step(s, es[0]), es[1..], more);
    }
  }

  lemma RunFirst(s: System, a: Event, rest: seq<Event>)
    ensures Run(s, [a] + rest) == Run(Step(s, a), rest)
  {
    assert ([a] + rest)[1..] == rest;
  }

  lemma RunThree(s: System, a: Event, b: Event, c: Event)
    ensures Run(s, [a, b, c]) == Step(Step(Step(s, a), b), c)
  {
    hide Step;
    assert [a, b, c] == [a] + ([b] + ([c] + []));
    RunFirst(s, a, [b] + ([c] + []));
    RunFirst(Step(s, a), b, [c] + []);
    RunFirst(Step(Step(s, a), b), c, []);
  }

  lemma RunFour(s: System, a: Event, b: Event, c: Event, d: Event)
    ensures Run(s, [a, b, c, d]) == Step(Step(Step(Step(s, a), b), c), d)
  {
    hide Step;
    assert [a, b, c, d] == [a] + [b, c, d];
    RunFirst(s, a, [b, c, d]);
    RunThree(Step(s, a), b, c, d);
  }

  // The new replacement of an active row that nothing is pending on, up to its begin.
  lemma Begun(s: System)
    requires s.w.row.status == Active && s.w.row.pending.None?
    ensures var staged := s.w.next;
            Run(s, [StartReplace, Advance(s.next, Ok), Advance(s.next, Ok)]) ==
            System(Write(Provision(s.w), s.w.row.(status := Replacing, pending := Some(staged))),
                   s.calls[s.next := Preparing(s.w.row.revision, staged)], s.next + 1)
  {
    var staged := s.w.next;
    RunThree(s, StartReplace, Advance(s.next, Ok), Advance(s.next, Ok));
    var s1 := Step(s, StartReplace);
    assert s1 == System(s.w, s.calls[s.next := Provisioning(s.w.row.revision)], s.next + 1);
    var s2 := Step(s1, Advance(s.next, Ok));
    assert s2 == System(Provision(s.w), s.calls[s.next := Beginning(s.w.row.revision, staged)], s.next + 1) by {
      assert s1.calls[s.next := Beginning(s.w.row.revision, staged)] ==
          s.calls[s.next := Beginning(s.w.row.revision, staged)];
    }
    var preparing := Preparing(s.w.row.revision, staged);
    assert s2.calls[s.next := preparing] == s.calls[s.next := preparing];
  }

  // A second call takes the pending replacement back: its prepare fails, it revokes and rolls back.
  lemma TakenBack(s: System)
    requires s.w.row.status == Replacing && s.w.row.pending.Some? && s.next !in s.calls
    ensures var pending := s.w.row.pending.value;
            Run(s, [StartReplace, Advance(s.next, Fails), Advance(s.next, Ok), Advance(s.next, Ok)]) ==
            System(Write(Revoke(s.w, pending, Revoked), s.w.row.(status := Active, pending := None)),
                s.calls, s.next + 1)
  {
    hide Run, Step, Write, Revoke;
    var r, p, k := s.w.row.revision, s.w.row.pending.value, s.next;
    RunFour(s, StartReplace, Advance(k, Fails), Advance(k, Ok), Advance(k, Ok));
    var s2 := System(s.w, s.calls[k := Undoing(r, p)], k + 1);
    PrepareFails(s);
    UndoneBy(s2, k, r, p);
    assert s2.calls - {k} == s.calls;
  }

  lemma PrepareFails(s: System)
    requires s.w.row.status == Replacing && s.w.row.pending.Some? && s.next !in s.calls
    ensures var undoing := Undoing(s.w.row.revision, s.w.row.pending.value);
            Step(Step(s, StartReplace), Advance(s.next, Fails)) ==
            System(s.w, s.calls[s.next := undoing], s.next + 1)
  {
    var r, p, k := s.w.row.revision, s.w.row.pending.value, s.next;
    assert s.calls[k := Preparing(r, p)][k := Undoing(r, p)] == s.calls[k := Undoing(r, p)];
  }

  lemma UndoneBy(s: System, k: nat, r: nat, p: Id)
    requires k in s.calls && s.calls[k] == Undoing(r, p) && s.w.row.status == Replacing && s.w.row.revision == r
    ensures Step(Step(s, Advance(k, Ok)), Advance(k, Ok)) ==
            System(Write(Revoke(s.w, p, Revoked), s.w.row.(status := Active, pending := None)), s.calls - {k}, s.next)
  {
    var s1 := Step(s, Advance(k, Ok));
    assert s1 == System(Revoke(s.w, p, Revoked), s.calls[k := RollingBack(r, p)], s.next);
    assert s1.calls - {k} == s.calls - {k};
  }

  // The roll-back compares the revision, but neither begin nor roll-back moves it. Call 0 begins a replacement and its
  // prepare fails; call 1 takes the same replacement back; call 2 begins another; then call 0 revokes what it captured
  // and rolls the row back. The authority of call 2 is live, and when that call dies nothing refers to it.
  function RollBackRun(): seq<Event> {
    [StartReplace, Advance(0, Ok), Advance(0, Ok)] + [StartReplace, Advance(1, Fails), Advance(1, Ok), Advance(1, Ok)]
    + [StartReplace, Advance(2, Ok), Advance(2, Ok)] + [Advance(0, Fails), Advance(0, Ok), Advance(0, Ok), Dies(2)]
  }

  lemma RollBackStrands(scope: Scope, id: Id)
    ensures var t := Run(Fresh(scope, id), RollBackRun());
            && t.w.row.status == Active && t.w.row.revision == 1 && t.calls == map[] && t.w.orphans == {}
            && id + 2 in t.w.live && id + 2 !in Held(t.w.row) && !NoneStray(t)
  {
    hide Run, Step;
    var s0 := Fresh(scope, id);
    Begun(s0);
    var s1 := Run(s0, [StartReplace, Advance(0, Ok), Advance(0, Ok)]);
    TakenBack(s1);
    var s2 := Run(s1, [StartReplace, Advance(1, Fails), Advance(1, Ok), Advance(1, Ok)]);
    Begun(s2);
    var s3 := Run(s2, [StartReplace, Advance(2, Ok), Advance(2, Ok)]);
    assert s3.calls == map[0 := Preparing(1, id + 1), 2 := Preparing(1, id + 2)];
    assert s3.w.live == {id, id + 2} && s3.w.row == Row(scope, Replacing, 1, id, Some(id + 2), None);
    LastSteps(s3, scope, id);
    RunPieces(s0, [StartReplace, Advance(0, Ok), Advance(0, Ok)],
        [StartReplace, Advance(1, Fails), Advance(1, Ok), Advance(1, Ok)],
        [StartReplace, Advance(2, Ok), Advance(2, Ok)],
        [Advance(0, Fails), Advance(0, Ok), Advance(0, Ok), Dies(2)]);
  }

  lemma RunPieces(s: System, a: seq<Event>, b: seq<Event>, c: seq<Event>, d: seq<Event>)
    ensures Run(s, a + b + c + d) == Run(Run(Run(Run(s, a), b), c), d)
  {
    RunTwice(s, a, b);
    RunTwice(s, a + b, c);
    RunTwice(s, a + b + c, d);
  }

  lemma LastSteps(s: System, scope: Scope, id: Id)
    requires s.calls == map[0 := Preparing(1, id + 1), 2 := Preparing(1, id + 2)] && s.w.orphans == {}
    requires s.w.live == {id, id + 2} && s.w.row == Row(scope, Replacing, 1, id, Some(id + 2), None)
    ensures var t := Run(s, [Advance(0, Fails), Advance(0, Ok), Advance(0, Ok), Dies(2)]);
            && t.w.row == Row(scope, Active, 1, id, None, None) && t.calls == map[] && t.w.orphans == {} &&
                id + 2 in t.w.live
  {
    RunFour(s, Advance(0, Fails), Advance(0, Ok), Advance(0, Ok), Dies(2));
    var s1 := Step(s, Advance(0, Fails));
    assert s1 == s.(calls := s.calls[0 := Undoing(1, id + 1)]);
    var s2 := Step(s1, Advance(0, Ok));
    assert s2.w == s.w.(live := s.w.live - {id + 1}) && s2.calls == s.calls[0 := RollingBack(1, id + 1)];
    var s3 := Step(s2, Advance(0, Ok));
    assert s3.calls == map[2 := Preparing(1, id + 2)];
  }
}
