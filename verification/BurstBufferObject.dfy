/** The closure state of createBurstBuffer in src/memory/extraction.ts, updated in place.
 *
 * Each method changes the fields as the source does and reaches exactly the state that BurstBuffer.dfy specifies.
 * The lemmas let the loops flush one space at a time: flushing spaces in turn is flushing them together, whatever the
 * order, since each flush takes its own burst, timer and task only.
 */
module BurstBufferObject {
  import opened Text
  import opened BurstBuffer

  // Flushing one space more.
  lemma FlushMore(s: State, spaces: set<Space>, space: Space)
    requires space !in spaces
    ensures Flush(Flush(s, spaces), {space}) == Flush(s, spaces + {space})
  {
    hide TimersOf, Extended, Tasks;
    var t := Flush(s, spaces);
    var a, b, c := spaces * s.pending.Keys, {space} * t.pending.Keys, (spaces + {space}) * s.pending.Keys;
    assert c == a + b;
    assert s.pending - a - b == s.pending - c;
    TimersMore(s, t, a, b);
    ExtendedMore(s.flushed, s.pending, a, b);
    TasksMore(s.flushed, s.pending, a, b);
    ExtendedSame(t.flushed, s.pending, t.pending, b);
  }

  lemma TimersMore(s: State, t: State, a: set<Space>, b: set<Space>)
    requires a !! b && t.pending == s.pending - a
    ensures TimersOf(s, a + b) == TimersOf(s, a) + TimersOf(t, b)
  {
  }

  lemma ExtendedMore(flushed: map<Space, seq<seq<Turn>>>, pending: map<Space, Burst>, a: set<Space>, b: set<Space>)
    requires a !! b && a + b <= pending.Keys
    ensures Extended(Extended(flushed, pending, a), pending, b) == Extended(flushed, pending, a + b)
  {
  }

  lemma ExtendedSame(flushed: map<Space, seq<seq<Turn>>>, pending: map<Space, Burst>, others: map<Space, Burst>,
          due: set<Space>)
    requires due <= pending.Keys && due <= others.Keys && forall space <- due :: pending[space] == others[space]
    ensures Extended(flushed, pending, due) == Extended(flushed, others, due)
  {
  }

  lemma TasksMore(flushed: map<Space, seq<seq<Turn>>>, pending: map<Space, Burst>, a: set<Space>, b: set<Space>)
    requires a !! b && a <= pending.Keys
    ensures Tasks(flushed, a + b) == Tasks(flushed, a) + Tasks(Extended(flushed, pending, a), b)
  {
  }

  lemma FlushNone(s: State, spaces: set<Space>)
    requires spaces !! s.pending.Keys
    ensures Flush(s, spaces) == s
  {
    assert spaces * s.pending.Keys == {};
    assert TimersOf(s, {}) == {} && Tasks(s.flushed, {}) == {} && Extended(s.flushed, s.pending, {}) == s.flushed;
  }

  class Buffer {
    var pending: map<Space, Burst>
    var live: set<nat>
    var inFlight: set<Task>
    var closed: bool
    var nextBurst: nat
    var nextTimer: nat
    ghost var armed: map<nat, Timer>
    var flushed: map<Space, seq<seq<Turn>>>
    ghost var added: map<Space, seq<Turn>>
    ghost var dropped: map<Space, seq<Turn>>
    const o: Options

    ghost function Now(): State
      reads this
    {
      State(pending, live, closed, nextBurst, nextTimer, inFlight, armed, flushed, added, dropped)
    }

    constructor (o: Options)
      ensures this.o == o && Now() == OPENED
    {
      this.o, pending, live, inFlight, closed, nextBurst, nextTimer := o, map[], {}, {}, false, 0, 0;
      armed, flushed, added, dropped := map[], map[], map[], map[];
    }

    method FlushSpace(space: Space)
      modifies this
      ensures Now() == Flush(old(Now()), {space})
    {
      if space !in pending {
        FlushNone(Now(), {space});
        return;
      }
      FlushOne(Now(), space);
      hide Flush;
      var burst := pending[space];
      var before := if space in flushed then flushed[space] else [];
      pending := pending - {space};
      live := live - (if burst.timer.Some? then {burst.timer.value} else {});
      inFlight := inFlight + {Task(space, |before|)};
      flushed := flushed[space := before + [burst.turns]];
    }

    method ArmTimer(space: Space, now: int)
      requires space in pending
      modifies this
      ensures Now() == Arm(old(Now()), o.quietMs, space, now)
    {
      OneTimer(Now(), space);
      hide TimersOf;
      var burst := pending[space];
      live := live - (if burst.timer.Some? then {burst.timer.value} else {});
      var elapsed := Max(0, now - burst.updatedAt);
      armed := armed[nextTimer := Timer(space, burst.id, now + Max(0, o.quietMs - elapsed))];
      live, pending := live + {nextTimer}, pending[space := burst.(timer := Some(nextTimer))];
      nextTimer := nextTimer + 1;
    }

    method FlushDue(now: int)
      modifies this
      ensures Now() == Flush(old(Now()), Due(old(Now()), o.quietMs, now))
    {
      hide TimersOf, Extended, Tasks;
      ghost var s, done: set<Space> := Now(), {};
      ghost var due := Due(s, o.quietMs, now);
      var todo := pending.Keys;
      FlushNone(s, {});
      while todo != {}
        invariant todo <= s.pending.Keys && done == due - todo && todo <= pending.Keys
        invariant forall space <- todo :: pending[space] == s.pending[space]
        invariant Now() == Flush(s, done)
      {
        var space :| space in todo;
        todo := todo - {space};
        hide Flush;
        if now - pending[space].updatedAt >= o.quietMs {
          FlushMore(s, done, space);
          FlushLeaves(Now(), space);
          FlushSpace(space);
          done := done + {space};
        }
      }
      assert done == due;
    }

    method Add(space: Space, turn: Turn, due: int, now: int)
      modifies this
      ensures Now() == BurstBuffer.Add(old(Now()), o, space, turn, due, now)
    {
      if closed { return; }
      FlushDue(due);
      ghost var s := Now();
      var burst := Burst(nextBurst, [], now, None);
      if space in pending { burst := pending[space]; } else { nextBurst := nextBurst + 1; }
      pending := pending[space := burst.(turns := burst.turns + [turn], updatedAt := now)];
      added := added[space := (if space in added then added[space] else []) + [turn]];
      assert Now() == Push(s, space, turn, now);
      hide Push, Flush, Arm;
      if |pending[space].turns| >= o.maxTurns { FlushSpace(space); } else { ArmTimer(space, now); }
    }

    // The callback of a timer, with what it closed over.
    method OnTimer(timer: nat, space: Space, burst: nat, now: int)
      requires timer in armed && armed[timer].space == space && armed[timer].burst == burst
      modifies this
      ensures Now() == Fire(old(Now()), o, timer, now)
    {
      live := live - {timer};
      if space !in pending || pending[space].id != burst || closed { return; }
      if now - pending[space].updatedAt >= o.quietMs { FlushSpace(space); } else { ArmTimer(space, now); }
    }

    method DrainNow()
      modifies this
      ensures Now() == Drain(old(Now()))
    {
      hide TimersOf, Extended, Tasks;
      ghost var s, done: set<Space> := Now(), {};
      var todo := pending.Keys;
      FlushNone(s, {});
      while todo != {}
        invariant todo <= s.pending.Keys && done == s.pending.Keys - todo
        invariant Now() == Flush(s, done)
      {
        hide Flush;
        var space :| space in todo;
        todo := todo - {space};
        FlushMore(s, done, space);
        FlushSpace(space);
        done := done + {space};
      }
      assert done == s.pending.Keys;
    }

    method ClearTimers()
      modifies `live
      ensures live == old(live) - TimersOf(old(Now()), pending.Keys)
    {
      ghost var s, done: set<Space> := Now(), {};
      var todo := pending.Keys;
      while todo != {}
        invariant todo <= pending.Keys && done == pending.Keys - todo
        invariant live == s.live - TimersOf(s, done)
      {
        var space :| space in todo;
        TimersOne(s, done, space);
        hide TimersOf;
        live := live - (if pending[space].timer.Some? then {pending[space].timer.value} else {});
        todo, done := todo - {space}, done + {space};
      }
      assert done == pending.Keys;
    }

    method CloseNow()
      requires !closed
      modifies this
      ensures Now() == Close(old(Now()))
    {
      closed := true;
      ClearTimers();
      hide WithDropped, TimersOf;
      dropped := WithDropped(dropped, pending);
      pending := map[];
    }
  }

  // Flushing one space, field by field.
  lemma FlushOne(s: State, space: Space)
    requires space in s.pending
    ensures var burst, before := s.pending[space], if space in s.flushed then s.flushed[space] else [];
            Flush(s, {space}) == s.(pending := s.pending - {space},
                                    live := s.live - (if burst.timer.Some? then {burst.timer.value} else {}),
                                    inFlight := s.inFlight + {Task(space, |before|)},
                                    flushed := s.flushed[space := before + [burst.turns]])
  {
    assert {space} * s.pending.Keys == {space};
    OneTimer(s, space);
    OneTask(s.flushed, space);
    OneExtended(s.flushed, s.pending, space);
    hide TimersOf, Tasks, Extended;
  }

  lemma OneTimer(s: State, space: Space)
    requires space in s.pending
    ensures TimersOf(s, {space}) == if s.pending[space].timer.Some? then {s.pending[space].timer.value} else {}
  {
  }

  lemma OneTask(flushed: map<Space, seq<seq<Turn>>>, space: Space)
    ensures Tasks(flushed, {space}) == {Task(space, if space in flushed then |flushed[space]| else 0)}
  {
  }

  lemma OneExtended(flushed: map<Space, seq<seq<Turn>>>, pending: map<Space, Burst>, space: Space)
    requires space in pending
    ensures Extended(flushed, pending, {space}) ==
            flushed[space := (if space in flushed then flushed[space] else []) + [pending[space].turns]]
  {
  }

  lemma TimersOne(s: State, done: set<Space>, space: Space)
    requires space in s.pending
    ensures TimersOf(s, done + {space}) ==
            TimersOf(s, done) + (if s.pending[space].timer.Some? then {s.pending[space].timer.value} else {})
  {
  }

  lemma FlushLeaves(s: State, space: Space)
    ensures Flush(s, {space}).pending == s.pending - {space}
  {
    assert s.pending - {space} * s.pending.Keys == s.pending - {space};
  }
}
