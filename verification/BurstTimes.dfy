/** What each call of the burst buffer of src/memory/extraction.ts does to each space, and when. */
module BurstTimes {
  import opened Text
  import opened BurstBuffer

  // The space has a burst that has been quiet for the set time.
  predicate Quiet(s: State, quietMs: nat, space: Space, now: int) {
    space in s.pending && now >= s.pending[space].updatedAt + quietMs
  }

  // The space's burst is handed over as it is: nothing of the space is pending, and its flush is in flight.
  predicate HandedOver(s: State, t: State, space: Space, turns: seq<Turn>) {
    && space !in t.pending && Flushed(t, space) == Flushed(s, space) + [turns]
    && Task(space, |Flushed(s, space)|) in t.inFlight
  }

  predicate Untouched(s: State, t: State, space: Space) {
    && (space in t.pending <==> space in s.pending)
    && (space in s.pending ==> t.pending[space] == s.pending[space]) && Flushed(t, space) == Flushed(s, space)
  }

  // Flushing hands over the bursts of the named spaces that have one, and touches no other.
  lemma FlushExact(s: State, spaces: set<Space>, space: Space)
    ensures var t := Flush(s, spaces);
            && (if space in spaces && space in s.pending then HandedOver(s, t, space, s.pending[space].turns)
                else Untouched(s, t, space))
            && t.added == s.added && t.closed == s.closed && t.armed == s.armed && t.dropped == s.dropped
            && t.inFlight >= s.inFlight && t.nextTimer == s.nextTimer && t.nextBurst == s.nextBurst
  {
  }

  lemma DueExact(s: State, quietMs: nat, now: int, space: Space)
    ensures space in Due(s, quietMs, now) <==> Quiet(s, quietMs, space, now)
  {
  }

  // Flushing what is due hands over exactly the bursts that have been quiet for the set time.
  lemma FlushDueExact(s: State, quietMs: nat, now: int, space: Space)
    ensures var t := Flush(s, Due(s, quietMs, now));
            if Quiet(s, quietMs, space, now) then HandedOver(s, t, space, s.pending[space].turns)
            else Untouched(s, t, space)
  {
    FlushExact(s, Due(s, quietMs, now), space);
    hide Flush;
  }

  // A drain hands over every burst.
  lemma DrainExact(s: State, space: Space)
    ensures var t := Drain(s);
            if space in s.pending then HandedOver(s, t, space, s.pending[space].turns) else Untouched(s, t, space)
  {
    FlushExact(s, s.pending.Keys, space);
  }

  // The turns that a new turn of the space comes after, in one burst: those pending, unless they have been quiet for
  // the set time and are handed over first.
  function Before(s: State, quietMs: nat, space: Space, due: int): seq<Turn> {
    if Quiet(s, quietMs, space, due) then [] else PendingTurns(s, space)
  }

  // The burst that the turn completes is handed over when it has maxTurns turns; else it waits for a timer that is due
  // when it will have been quiet for the set time.
  lemma AddExact(s: State, o: Options, space: Space, turn: Turn, due: int, now: int)
    requires !s.closed
    ensures var t := Add(s, o, space, turn, due, now);
            var burst := Before(s, o.quietMs, space, due) + [turn];
            var earlier := if Quiet(s, o.quietMs, space, due) then [s.pending[space].turns] else [];
            && Added(t, space) == Added(s, space) + [turn] && !t.closed
            && if |burst| >= o.maxTurns
               then space !in t.pending && Flushed(t, space) == Flushed(s, space) + earlier + [burst]
               else && space in t.pending && t.pending[space].turns == burst && t.pending[space].updatedAt == now
                    && Flushed(t, space) == Flushed(s, space) + earlier
                    && t.pending[space].timer == Some(s.nextTimer) && s.nextTimer in t.live
                    && t.armed == s.armed[s.nextTimer := Timer(space, t.pending[space].id, now + o.quietMs)]
  {
    hide Flush, Due, TimersOf, Arm;
    var flushed := Flush(s, Due(s, o.quietMs, due));
    FlushDueExact(s, o.quietMs, due, space);
    FlushExact(s, Due(s, o.quietMs, due), space);
    var pushed := Push(flushed, space, turn, now);
    assert pushed.pending[space].turns == Before(s, o.quietMs, space, due) + [turn];
    assert pushed.flushed == flushed.flushed && pushed.armed == s.armed && pushed.nextTimer == s.nextTimer;
    FlushExact(pushed, {space}, space);
    ArmExact(pushed, o.quietMs, space, now);
  }

  lemma ArmExact(s: State, quietMs: nat, space: Space, now: int)
    requires space in s.pending
    ensures var t := Arm(s, quietMs, space, now);
            var idle := if now > s.pending[space].updatedAt then now - s.pending[space].updatedAt else 0;
            var wait := if idle < quietMs then quietMs - idle else 0;
            && t.pending == s.pending[space := s.pending[space].(timer := Some(s.nextTimer))]
            && t.armed == s.armed[s.nextTimer := Timer(space, s.pending[space].id, now + wait)]
            && s.nextTimer in t.live && t.flushed == s.flushed && t.added == s.added && t.closed == s.closed
  {
    hide TimersOf;
  }

  // Of the other spaces an add hands over those that are due, and touches no other.
  lemma AddOthers(s: State, o: Options, space: Space, turn: Turn, due: int, now: int, other: Space)
    requires !s.closed && other != space
    ensures var t := Add(s, o, space, turn, due, now);
            && Added(t, other) == Added(s, other)
            && if Quiet(s, o.quietMs, other, due)
               then other !in t.pending && Flushed(t, other) == Flushed(s, other) + [s.pending[other].turns]
               else Untouched(s, t, other)
  {
    var flushed := Flush(s, Due(s, o.quietMs, due));
    FlushDueExact(s, o.quietMs, due, other);
    FlushExact(s, Due(s, o.quietMs, due), other);
    hide Due, Extended, Tasks, TimersOf;
    FlushExact(Push(flushed, space, turn, now), {space}, other);
  }

  // A closed buffer takes nothing.
  lemma ClosedAdds(s: State, o: Options, space: Space, turn: Turn, due: int, now: int)
    requires s.closed
    ensures Add(s, o, space, turn, due, now) == s
  {
  }

  // A timer's callback: for a burst that is not pending any more, or on a closed buffer, nothing; for one that has been
  // quiet for the set time, the burst is handed over; for one that has not, a new timer for what is left of that time.
  lemma FireExact(s: State, o: Options, timer: nat, now: int)
    requires timer in s.armed
    ensures var t := Fire(s, o, timer, now);
            var space := s.armed[timer].space;
            var mine := !s.closed && space in s.pending && s.pending[space].id == s.armed[timer].burst;
            && (forall other :: other != space ==> Untouched(s, t, other)) && t.added == s.added
            && (!mine ==> t == s.(live := s.live - {timer}))
            && (mine && Quiet(s, o.quietMs, space, now) ==> HandedOver(s, t, space, s.pending[space].turns))
            && (mine && !Quiet(s, o.quietMs, space, now) ==>
                  && t.pending.Keys == s.pending.Keys && t.flushed == s.flushed
                  && t.pending[space] == s.pending[space].(timer := Some(s.nextTimer)) && s.nextTimer in t.live
                  && var idle := if now > s.pending[space].updatedAt then now - s.pending[space].updatedAt else 0;
                     t.armed == s.armed[s.nextTimer := Timer(space, s.armed[timer].burst, now + o.quietMs - idle)])
  {
    var space := s.armed[timer].space;
    var w := Without(s, timer);
    hide Flush, Arm, TimersOf;
    forall other: Space ensures other != space ==> Untouched(w, Flush(w, {space}), other) {
      FlushExact(w, {space}, other);
    }
    FlushExact(w, {space}, space);
    if space in w.pending { ArmExact(w, o.quietMs, space, now); }
  }

  // Closing drops every pending turn and stops every timer of a pending burst; what is in flight goes on.
  lemma CloseExact(s: State, space: Space)
    ensures var t := Close(s);
            && t.closed && t.pending == map[] && t.inFlight == s.inFlight
            && t.flushed == s.flushed && t.added == s.added
            && Dropped(t, space) == Dropped(s, space) + PendingTurns(s, space)
            && (space in s.pending && s.pending[space].timer.Some? ==> s.pending[space].timer.value !in t.live)
  {
    assert Dropped(s, space) + [] == Dropped(s, space);
  }
}
