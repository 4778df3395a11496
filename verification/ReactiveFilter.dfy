/** Which rows src/events/reactive.ts reacts to: event names and the space filter. */
module ReactiveFilter {
  import opened Text
  import opened Reactive

  // A row for the behavior: one of its events, and in a space that its filter accepts, if it has one.
  predicate Meant(b: Behavior, row: Row) {
    row.event in b.events
    && match b.spaceFilter
       case None => true
       case Some(accepts) => row.space.Some? && accepts(row.space.value)
  }

  // Every id that was reacted to, is recorded as such or has a dead letter is that of a row meant for the behavior.
  ghost predicate OnlyMeant(ledger: seq<Row>, b: Behavior, w: World) {
    forall id: nat :: id in w.reactions || id in w.reacted || id in w.dead ==>
      exists r <- ledger :: r.id == id && Meant(b, r)
  }

  // One attempt touches its own row only, and only if the row is meant.
  lemma AttemptMeant(w: World, b: Behavior, l: Limits, row: Row, a: Attempt)
    requires row.event in b.events
    ensures var w' := ConsumeOne(w, b, l, row, a).1;
            forall id: nat :: id in w'.reactions || id in w'.reacted || id in w'.dead ==>
              id in w.reactions || id in w.reacted || id in w.dead || (id == row.id && Meant(b, row))
  {
    hide Backoff;
  }

  lemma {:induction false} TailMeant(ledger: seq<Row>, w: World, b: Behavior, l: Limits, p: seq<Row>,
          env: nat -> Attempt)
    requires OnlyMeant(ledger, b, w) && forall r <- p :: r in ledger && r.event in b.events
    ensures OnlyMeant(ledger, b, Tail(w, b, l, p, env))
    decreases |p|
  {
    if p != [] {
      AttemptMeant(w, b, l, p[0], env(p[0].id));
      assert p[0] in p;
      hide ConsumeOne, Meant;
      var (o, w') := ConsumeOne(w, b, l, p[0], env(p[0].id));
      if o.Consumed? { TailMeant(ledger, w', b, l, p[1..], env); }
    }
  }

  lemma {:induction false} RunMeant(s: System, b: Behavior, l: Limits, steps: seq<Step>)
    requires OnlyMeant(s.ledger, b, s.world)
    ensures OnlyMeant(Run(s, b, l, steps).ledger, b, Run(s, b, l, steps).world)
    decreases |steps|
  {
    if steps != [] {
      match steps[0] {
        case Append(row) =>
          assert forall r <- s.ledger :: r in s.ledger + [row];
        case RunPass(env) =>
          TailMeant(s.ledger, s.world, b, l, Pending(s.ledger, b, s.world.watermark), env);
        case CrashStep =>
      }
      hide Meant, Pass;
      RunMeant(Next(s, b, l, steps[0]), b, l, steps[1..]);
    }
  }

  // In every reachable state, crashes included: each row meant for the behavior, up to the watermark, was reacted to or
  // has a dead letter.
  lemma MeantReacted(b: Behavior, l: Limits, steps: seq<Step>)
    requires RunEnabled(START, b, l, steps)
    ensures var s := Run(START, b, l, steps);
            forall r <- s.ledger :: Meant(b, r) && r.id <= s.world.watermark ==>
              r.id in s.world.reacted || r.id in s.world.dead
  {
    NothingDropped(b, l, steps);
  }

  // And no other row is ever reacted to or dead-lettered: of another event, with no space where the behavior has a
  // filter, or in a space that the filter rejects.
  lemma OthersUnseen(b: Behavior, l: Limits, steps: seq<Step>)
    requires RunEnabled(START, b, l, steps)
    ensures var s := Run(START, b, l, steps);
            forall r <- s.ledger :: !Meant(b, r) ==>
              s.world.reactions[r.id] == 0 && r.id !in s.world.reacted && r.id !in s.world.dead
  {
    RunMeant(START, b, l, steps);
    RunKeeps(START, b, l, steps);
    var s := Run(START, b, l, steps);
    assert Increasing(s.ledger);
    hide Meant, Run, Inv;
    forall r <- s.ledger | !Meant(b, r)
      ensures s.world.reactions[r.id] == 0 && r.id !in s.world.reacted && r.id !in s.world.dead
    {
      if r.id in s.world.reactions || r.id in s.world.reacted || r.id in s.world.dead {
        var q :| q in s.ledger && q.id == r.id && Meant(b, q);
        IdUnique(s.ledger, q, r);
      }
    }
  }

  lemma IdUnique(ledger: seq<Row>, q: Row, r: Row)
    requires Increasing(ledger) && q in ledger && r in ledger && q.id == r.id
    ensures q == r
  {
    var i :| 0 <= i < |ledger| && ledger[i] == q;
    var j :| 0 <= j < |ledger| && ledger[j] == r;
    assert i == j;
  }
}
