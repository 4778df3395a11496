/** The per-space burst buffer of src/memory/extraction.ts: coalesced turns, quiet timers, drain and close.
 *
 * A burst is flushed when it is full, by its quiet timer, by an add or a flush after it has been quiet long enough, or
 * by a drain; closing drops what is pending.
 */
module BurstBuffer {
  import opened Text

  datatype Space = Space(id: string)

  datatype Turn = Turn(input: string, reply: string)

  // `id` is the identity of the burst object.
  datatype Burst = Burst(id: nat, turns: seq<Turn>, updatedAt: int, timer: Option<nat>)

  // What a timer's callback closes over, and when it is due.
  datatype Timer = Timer(space: Space, burst: nat, due: int)

  // The flush callback's promise for a burst: its place among the space's flushed bursts.
  datatype Task = Task(space: Space, burst: nat)

  datatype Options = Options(quietMs: nat, maxTurns: nat)

  // `live`: the timers set and not cleared. History: `armed`, every timer ever set; per space, the bursts flushed, the
  // turns added while open, and the turns that close dropped.
  datatype State = State(pending: map<Space, Burst>, live: set<nat>, closed: bool, nextBurst: nat, nextTimer: nat,
          inFlight: set<Task>,
                         armed: map<nat, Timer>, flushed: map<Space, seq<seq<Turn>>>, added: map<Space, seq<Turn>>,
                         dropped: map<Space, seq<Turn>>)

  const OPENED: State := State(map[], {}, false, 0, 0, {}, map[], map[], map[], map[])

  function Max(a: int, b: int): int {
    if a >= b then a else b
  }

  function Flushed(s: State, space: Space): seq<seq<Turn>> {
    if space in s.flushed then s.flushed[space] else []
  }

  function Added(s: State, space: Space): seq<Turn> {
    if space in s.added then s.added[space] else []
  }

  function PendingTurns(s: State, space: Space): seq<Turn> {
    if space in s.pending then s.pending[space].turns else []
  }

  function Dropped(s: State, space: Space): seq<Turn> {
    if space in s.dropped then s.dropped[space] else []
  }

  function Flat(bursts: seq<seq<Turn>>): seq<Turn> {
    if bursts == [] then [] else Flat(bursts[..|bursts| - 1]) + bursts[|bursts| - 1]
  }

  // The turns of a space, in the order they came.
  function Turns(flushed: seq<seq<Turn>>, pending: seq<Turn>, dropped: seq<Turn>): seq<Turn> {
    Flat(flushed) + pending + dropped
  }

  // ---------------------------------------------------------------- the operations

  // The timers of some pending bursts.
  function TimersOf(s: State, spaces: set<Space>): set<nat> {
    set space | space in spaces && space in s.pending && s.pending[space].timer.Some? :: s.pending[space].timer.value
  }

  function Extended(flushed: map<Space, seq<seq<Turn>>>, pending: map<Space, Burst>,
          due: set<Space>): map<Space, seq<seq<Turn>>>
    requires due <= pending.Keys
  {
    flushed + map space | space in due :: (if space in flushed then flushed[space] else []) + [pending[space].turns]
  }

  function Tasks(flushed: map<Space, seq<seq<Turn>>>, due: set<Space>): set<Task> {
    set space | space in due :: Task(space, if space in flushed then |flushed[space]| else 0)
  }

  // flushSpace, for each of some spaces.
  function Flush(s: State, spaces: set<Space>): State {
    var due := spaces * s.pending.Keys;
    s.(pending := s.pending - due, live := s.live - TimersOf(s, due), inFlight := s.inFlight + Tasks(s.flushed, due),
       flushed := Extended(s.flushed, s.pending, due))
  }

  function Due(s: State, quietMs: nat, now: int): set<Space> {
    set space | space in s.pending && now - s.pending[space].updatedAt >= quietMs
  }

  function Arm(s: State, quietMs: nat, space: Space, now: int): State
    requires space in s.pending
  {
    var burst := s.pending[space];
    var timer := Timer(space, burst.id, now + Max(0, quietMs - Max(0, now - burst.updatedAt)));
    s.(live := s.live - TimersOf(s, {space}) + {s.nextTimer}, nextTimer := s.nextTimer + 1,
       armed := s.armed[s.nextTimer := timer], pending := s.pending[space := burst.(timer := Some(s.nextTimer))])
  }

  // The space's burst with the turn, a new burst if there is none.
  function Push(s: State, space: Space, turn: Turn, now: int): State {
    var burst := if space in s.pending then s.pending[space] else Burst(s.nextBurst, [], now, None);
    s.(pending := s.pending[space := burst.(turns := burst.turns + [turn], updatedAt := now)],
       nextBurst := if space in s.pending then s.nextBurst else s.nextBurst + 1,
       added := s.added[space := Added(s, space) + [turn]])
  }

  // The clock is read for flushDue (`due`) and for the turn (`now`).
  function Add(s: State, o: Options, space: Space, turn: Turn, due: int, now: int): State {
    if s.closed then s
    else
      var pushed := Push(Flush(s, Due(s, o.quietMs, due)), space, turn, now);
      if |pushed.pending[space].turns| >= o.maxTurns then Flush(pushed, {space}) else Arm(pushed, o.quietMs, space, now)
  }

  function Without(s: State, timer: nat): State {
    s.(live := s.live - {timer})
  }

  // A timer's callback. Any timer ever set may fire, even one that was cleared.
  function Fire(s: State, o: Options, timer: nat, now: int): State
    requires timer in s.armed
  {
    var t := s.armed[timer];
    var s := Without(s, timer);
    if t.space !in s.pending || s.pending[t.space].id != t.burst || s.closed then s
    else if now - s.pending[t.space].updatedAt >= o.quietMs then Flush(s, {t.space})
    else Arm(s, o.quietMs, t.space, now)
  }

  // The synchronous part of drain; it then waits until nothing is in flight.
  function Drain(s: State): State {
    Flush(s, s.pending.Keys)
  }

  function WithDropped(dropped: map<Space, seq<Turn>>, pending: map<Space, Burst>): map<Space, seq<Turn>> {
    dropped + map space | space in pending :: (if space in dropped then dropped[space] else []) + pending[space].turns
  }

  function Close(s: State): State {
    s.(closed := true, live := s.live - TimersOf(s, s.pending.Keys), pending := map[],
       dropped := WithDropped(s.dropped, s.pending))
  }

  // ---------------------------------------------------------------- the invariant

  // Nothing is lost, repeated or reordered.
  predicate TurnsKept(s: State, space: Space) {
    Turns(Flushed(s, space), PendingTurns(s, space), Dropped(s, space)) == Added(s, space)
  }

  predicate BurstsSized(s: State, o: Options, space: Space) {
    && (forall burst <- Flushed(s, space) :: 1 <= |burst| <= o.maxTurns)
    && (space in s.pending ==> 1 <= |s.pending[space].turns| < o.maxTurns)
  }

  // A pending burst's timer is live and its own.
  predicate OwnTimer(s: State, space: Space) {
    space in s.pending ==>
      var burst := s.pending[space];
      && burst.id < s.nextBurst
      && (burst.timer.Some? ==>
            && burst.timer.value in s.live && burst.timer.value in s.armed
            && s.armed[burst.timer.value].space == space && s.armed[burst.timer.value].burst == burst.id)
  }

  // It has one, due at the latest quietMs after its last turn.
  predicate Waits(s: State, o: Options, space: Space) {
    space in s.pending ==>
      var burst := s.pending[space];
      burst.timer.Some? && burst.timer.value in s.armed && s.armed[burst.timer.value].due <= burst.updatedAt + o.quietMs
  }

  // A live timer is the timer of a pending burst.
  predicate Owned(s: State, timer: nat) {
    timer in s.armed && s.armed[timer].space in s.pending && s.pending[s.armed[timer].space].timer == Some(timer)
  }

  ghost predicate AllKept(s: State) {
    forall space :: TurnsKept(s, space)
  }

  ghost predicate AllSized(s: State, o: Options) {
    forall space :: BurstsSized(s, o, space)
  }

  ghost predicate Timed(s: State) {
    && (forall space :: OwnTimer(s, space))
    && (forall timer <- s.live :: Owned(s, timer))
    && (forall timer <- s.armed :: timer < s.nextTimer && s.armed[timer].burst < s.nextBurst)
  }

  predicate ClosedEmpty(s: State) {
    (s.closed ==> s.pending == map[]) && (!s.closed ==> s.dropped == map[])
  }

  ghost predicate AllWait(s: State, o: Options) {
    forall space :: Waits(s, o, space)
  }

  ghost predicate Inv(s: State, o: Options) {
    AllKept(s) && AllSized(s, o) && Timed(s) && AllWait(s, o) && ClosedEmpty(s)
  }

  lemma FlatAppend(bursts: seq<seq<Turn>>, burst: seq<Turn>)
    ensures Flat(bursts + [burst]) == Flat(bursts) + burst
  {
    var grown := bursts + [burst];
    assert grown[..|grown| - 1] == bursts;
  }

  predicate Hit(s: State, spaces: set<Space>, space: Space) {
    space in spaces && space in s.pending
  }

  // What a flush does to one space.
  lemma FlushAt(s: State, spaces: set<Space>, space: Space)
    ensures space in Flush(s, spaces).pending <==> space in s.pending && !Hit(s, spaces, space)
    ensures space in Flush(s, spaces).pending ==> Flush(s, spaces).pending[space] == s.pending[space]
    ensures Flushed(Flush(s, spaces), space) == Flushed(s, space) + HitTurns(s, spaces, space)
    ensures Added(Flush(s, spaces), space) == Added(s, space)
    ensures Dropped(Flush(s, spaces), space) == Dropped(s, space)
  {
    FlushedAt(s, spaces, space);
    hide TimersOf, Flat, Flushed;
  }

  function HitTurns(s: State, spaces: set<Space>, space: Space): seq<seq<Turn>> {
    if Hit(s, spaces, space) then [s.pending[space].turns] else []
  }

  lemma FlushedAt(s: State, spaces: set<Space>, space: Space)
    ensures Flushed(Flush(s, spaces), space) == Flushed(s, space) + HitTurns(s, spaces, space)
  {
    hide TimersOf, Flat;
  }

  lemma TurnsFlushed(flushed: seq<seq<Turn>>, pending: seq<Turn>, dropped: seq<Turn>)
    ensures Turns(flushed + [pending], [], dropped) == Turns(flushed, pending, dropped)
  {
    FlatAppend(flushed, pending);
    assert Flat(flushed) + pending + [] == Flat(flushed) + pending;
  }

  lemma TurnsPushed(flushed: seq<seq<Turn>>, pending: seq<Turn>, turn: Turn)
    ensures Turns(flushed, pending + [turn], []) == Turns(flushed, pending, []) + [turn]
  {
    hide Flat;
    assert Flat(flushed) + (pending + [turn]) + [] == Flat(flushed) + pending + [] + [turn];
  }

  lemma FlushTurns(s: State, spaces: set<Space>)
    requires AllKept(s)
    ensures AllKept(Flush(s, spaces))
  {
    var t := Flush(s, spaces);
    forall space ensures TurnsKept(t, space) {
      FlushAt(s, spaces, space);
      assert TurnsKept(s, space);
      hide Flush, Flushed, Added, Dropped, Turns;
      if Hit(s, spaces, space) {
        TurnsFlushed(Flushed(s, space), s.pending[space].turns, Dropped(s, space));
      } else {
        assert Flushed(s, space) + [] == Flushed(s, space);
      }
    }
  }

  lemma FlushSizes(s: State, o: Options, spaces: set<Space>)
    requires forall space :: (BurstsSized(s, o, space) || (space in spaces && Full(s, o, space)))
    ensures AllSized(Flush(s, spaces), o)
  {
    var t := Flush(s, spaces);
    forall space ensures BurstsSized(t, o, space) {
      FlushAt(s, spaces, space);
      hide Flush, TimersOf, Flushed;
      assert BurstsSized(s, o, space) || (space in spaces && Full(s, o, space));
    }
  }

  // A burst that has just reached the maximum.
  predicate Full(s: State, o: Options, space: Space) {
    && (forall burst <- Flushed(s, space) :: 1 <= |burst| <= o.maxTurns)
    && space in s.pending && 1 <= |s.pending[space].turns| <= o.maxTurns
  }

  // Two bursts never share a timer.
  lemma TimerOwner(s: State, spaces: set<Space>, space: Space) returns (other: Space)
    requires (forall space :: OwnTimer(s, space)) && space in s.pending && s.pending[space].timer.Some?
    requires s.pending[space].timer.value in TimersOf(s, spaces)
    ensures other == space && other in spaces
  {
    other :| other in spaces && other in s.pending && s.pending[other].timer == s.pending[space].timer;
    assert OwnTimer(s, other) && OwnTimer(s, space);
  }

  lemma FlushTimers(s: State, spaces: set<Space>)
    requires Timed(s)
    ensures Timed(Flush(s, spaces))
  {
    var t := Flush(s, spaces);
    forall space ensures OwnTimer(t, space) {
      FlushAt(s, spaces, space);
      assert OwnTimer(s, space);
      if space in t.pending && s.pending[space].timer.Some? &&
          s.pending[space].timer.value in TimersOf(s, spaces * s.pending.Keys) {
        var other := TimerOwner(s, spaces * s.pending.Keys, space);
      }
    }
    forall timer <- t.live ensures Owned(t, timer) {
      assert Owned(s, timer);
      FlushAt(s, spaces, s.armed[timer].space);
    }
  }

  lemma FlushWaits(s: State, o: Options, spaces: set<Space>)
    requires forall space :: space !in spaces ==> Waits(s, o, space)
    ensures forall space :: space !in spaces ==> Waits(Flush(s, spaces), o, space)
    ensures forall space :: Waits(s, o, space) || space in spaces ==> Waits(Flush(s, spaces), o, space)
  {
    forall space ensures Waits(s, o, space) || space in spaces ==> Waits(Flush(s, spaces), o, space) {
      FlushAt(s, spaces, space);
    }
  }

  lemma FlushKeeps(s: State, o: Options, spaces: set<Space>)
    requires Inv(s, o)
    ensures Inv(Flush(s, spaces), o)
  {
    FlushTurns(s, spaces);
    FlushTimers(s, spaces);
    FlushWaits(s, o, spaces);
    FlushSizes(s, o, spaces) by {
      forall space ensures BurstsSized(s, o, space) {}
    }
  }

  // ---------------------------------------------------------------- adding a turn

  lemma PushTurns(s: State, space: Space, turn: Turn, now: int)
    requires AllKept(s) && s.dropped == map[]
    ensures AllKept(Push(s, space, turn, now))
  {
    var t := Push(s, space, turn, now);
    forall other ensures TurnsKept(t, other) {
      assert TurnsKept(s, other);
      hide Turns;
      assert Flushed(t, other) == Flushed(s, other);
      if other == space { TurnsPushed(Flushed(s, space), PendingTurns(s, space), turn); }
    }
  }

  lemma PushSizes(s: State, o: Options, space: Space, turn: Turn, now: int)
    requires AllSized(s, o) && o.maxTurns >= 1
    ensures forall other ::
        if other == space then Full(Push(s, space, turn, now), o, other)
        else BurstsSized(Push(s, space, turn, now), o, other)
  {
    forall other
      ensures if other == space then Full(Push(s, space, turn, now), o, other)
              else BurstsSized(Push(s, space, turn, now), o, other)
    {
      assert BurstsSized(s, o, other);
    }
  }

  lemma PushTimers(s: State, o: Options, space: Space, turn: Turn, now: int)
    requires Timed(s) && AllWait(s, o)
    ensures Timed(Push(s, space, turn, now)) && forall other :: other != space ==>
        Waits(Push(s, space, turn, now), o, other)
  {
    var t := Push(s, space, turn, now);
    forall other ensures OwnTimer(t, other) && (other != space ==> Waits(t, o, other)) {
      assert OwnTimer(s, other) && Waits(s, o, other);
    }
    forall timer <- t.live ensures Owned(t, timer) {
      assert Owned(s, timer);
    }
  }

  lemma ArmTimers(s: State, o: Options, space: Space, now: int)
    requires Timed(s) && space in s.pending && now - s.pending[space].updatedAt <= o.quietMs
    requires forall other :: other != space ==> Waits(s, o, other)
    ensures Timed(Arm(s, o.quietMs, space, now)) && AllWait(Arm(s, o.quietMs, space, now), o)
  {
    var t := Arm(s, o.quietMs, space, now);
    assert OwnTimer(s, space);
    forall other ensures OwnTimer(t, other) && Waits(t, o, other) {
      assert OwnTimer(s, other);
      if other != space && other in s.pending && s.pending[other].timer.Some? &&
          s.pending[other].timer.value in TimersOf(s, {space}) {
        var owner := TimerOwner(s, {space}, other);
      }
      if other != space { assert Waits(s, o, other); }
    }
    forall timer <- t.live ensures Owned(t, timer) {
      if timer != s.nextTimer { assert Owned(s, timer) && timer !in TimersOf(s, {space}); }
    }
  }

  lemma ArmRest(s: State, o: Options, space: Space, now: int)
    requires AllKept(s) && AllSized(s, o) && space in s.pending
    ensures AllKept(Arm(s, o.quietMs, space, now)) && AllSized(Arm(s, o.quietMs, space, now), o)
  {
    var t := Arm(s, o.quietMs, space, now);
    forall other ensures TurnsKept(t, other) && BurstsSized(t, o, other) {
      assert TurnsKept(s, other) && BurstsSized(s, o, other);
      hide Turns;
      assert Flushed(t, other) == Flushed(s, other) && PendingTurns(t, other) == PendingTurns(s, other);
    }
  }

  lemma AddKeeps(s: State, o: Options, space: Space, turn: Turn, due: int, now: int)
    requires Inv(s, o) && o.maxTurns >= 1
    ensures Inv(Add(s, o, space, turn, due, now), o)
  {
    if !s.closed {
      var flushed := Flush(s, Due(s, o.quietMs, due));
      FlushKeeps(s, o, Due(s, o.quietMs, due));
      var pushed := Push(flushed, space, turn, now);
      PushTurns(flushed, space, turn, now);
      PushSizes(flushed, o, space, turn, now);
      PushTimers(flushed, o, space, turn, now);
      assert pushed.dropped == map[] && space in pushed.pending && pushed.pending[space].updatedAt == now;
      hide Flush, Push, AllKept, Timed, Waits;
      if |pushed.pending[space].turns| >= o.maxTurns {
        FlushPushed(pushed, o, space);
      } else {
        ArmPushed(pushed, o, space, now);
      }
    }
  }

  ghost predicate Pushed(s: State, o: Options, space: Space) {
    && !s.closed && s.dropped == map[] && space in s.pending && AllKept(s) && Timed(s)
    && (forall other :: if other == space then Full(s, o, other) else BurstsSized(s, o, other))
    && (forall other :: other != space ==> Waits(s, o, other))
  }

  lemma FlushPushed(s: State, o: Options, space: Space)
    requires Pushed(s, o, space)
    ensures Inv(Flush(s, {space}), o)
  {
    FlushTurns(s, {space});
    FlushTimers(s, {space});
    FlushWaits(s, o, {space});
    FlushSizes(s, o, {space});
  }

  lemma ArmPushed(s: State, o: Options, space: Space, now: int)
    requires Pushed(s, o, space) && |s.pending[space].turns| < o.maxTurns && s.pending[space].updatedAt == now
    ensures Inv(Arm(s, o.quietMs, space, now), o)
  {
    assert AllSized(s, o) by {
      forall other ensures BurstsSized(s, o, other) {
        if other == space { assert Full(s, o, other); }
      }
    }
    ArmTimers(s, o, space, now);
    ArmRest(s, o, space, now);
  }

  // ---------------------------------------------------------------- timers, drain and close

  lemma LiveIsOwned(s: State)
    requires Timed(s)
    ensures s.live <= TimersOf(s, s.pending.Keys)
  {
    forall timer <- s.live ensures timer in TimersOf(s, s.pending.Keys) { assert Owned(s, timer); }
  }

  // The flush and the re-arming clear the timer anyway.
  lemma FlushClears(s: State, timer: nat, space: Space)
    requires space in s.pending && s.pending[space].timer == Some(timer)
    ensures Flush(Without(s, timer), {space}) == Flush(s, {space})
  {
    assert TimersOf(Without(s, timer), {space} * s.pending.Keys) == TimersOf(s, {space} * s.pending.Keys);
    assert space in {space} * s.pending.Keys && timer in TimersOf(s, {space} * s.pending.Keys);
    hide TimersOf, Extended, Tasks;
    var timers := TimersOf(s, {space} * s.pending.Keys);
    assert s.live - {timer} - timers == s.live - timers;
  }

  lemma ArmClears(s: State, quietMs: nat, timer: nat, space: Space, now: int)
    requires space in s.pending && s.pending[space].timer == Some(timer)
    ensures Arm(Without(s, timer), quietMs, space, now) == Arm(s, quietMs, space, now)
  {
    assert TimersOf(Without(s, timer), {space}) == TimersOf(s, {space}) && timer in TimersOf(s, {space});
    hide TimersOf;
    var timers := TimersOf(s, {space});
    assert s.live - {timer} - timers == s.live - timers;
  }

  // Whichever timer fires, live or stale, the callback flushes or re-arms its own burst or does nothing.
  lemma FireCases(s: State, o: Options, timer: nat, now: int)
    requires Inv(s, o) && timer in s.armed
    ensures var t := s.armed[timer];
            var mine := t.space in s.pending && s.pending[t.space].id == t.burst;
            Fire(s, o, timer, now) ==
              if !mine then s
              else if now - s.pending[t.space].updatedAt >= o.quietMs then Flush(s, {t.space})
              else Arm(s, o.quietMs, t.space, now)
  {
    var t := s.armed[timer];
    if timer in s.live {
      assert Owned(s, timer) && OwnTimer(s, t.space);
      FlushClears(s, timer, t.space);
      ArmClears(s, o.quietMs, timer, t.space, now);
    } else {
      assert Without(s, timer) == s;
    }
    hide Flush, Arm, AllKept, AllSized, Timed, AllWait;
  }

  lemma FireKeeps(s: State, o: Options, timer: nat, now: int)
    requires Inv(s, o) && timer in s.armed
    ensures Inv(Fire(s, o, timer, now), o)
  {
    FireCases(s, o, timer, now);
    var space := s.armed[timer].space;
    FlushKeeps(s, o, {space});
    hide Fire, Flush;
    if space in s.pending && now - s.pending[space].updatedAt < o.quietMs {
      ArmTimers(s, o, space, now);
      ArmRest(s, o, space, now);
    }
  }

  lemma CloseTurns(s: State)
    requires AllKept(s) && !s.closed && s.dropped == map[]
    ensures AllKept(Close(s))
  {
    var t := Close(s);
    forall space ensures TurnsKept(t, space) {
      assert TurnsKept(s, space);
      assert Flushed(t, space) == Flushed(s, space) && Dropped(t, space) == PendingTurns(s, space);
      hide Turns, Flushed, Dropped, WithDropped;
      TurnsClosed(Flushed(s, space), PendingTurns(s, space));
    }
  }

  lemma TurnsClosed(flushed: seq<seq<Turn>>, pending: seq<Turn>)
    ensures Turns(flushed, [], pending) == Turns(flushed, pending, [])
  {
    hide Flat;
    assert Flat(flushed) + [] + pending == Flat(flushed) + pending + [];
  }

  lemma CloseKeeps(s: State, o: Options)
    requires Inv(s, o) && !s.closed
    ensures Inv(Close(s), o)
  {
    CloseTurns(s);
    LiveIsOwned(s);
    var t := Close(s);
    hide AllKept, WithDropped, TimersOf;
    forall space ensures BurstsSized(t, o, space) {
      assert BurstsSized(s, o, space);
    }
  }

  // ---------------------------------------------------------------- runs

  datatype Event = AddTurn(space: Space, turn: Turn, due: int, now: int) | FlushDue(now: int)
                 | TimerFires(timer: nat, now: int)
                 | Drains | Closes | Settles(task: Task)

  function Step(s: State, o: Options, e: Event): State {
    match e
    case AddTurn(space, turn, due, now) => Add(s, o, space, turn, due, now)
    case FlushDue(now) => Flush(s, Due(s, o.quietMs, now))
    case TimerFires(timer, now) => if timer in s.armed then Fire(s, o, timer, now) else s
    case Drains => Drain(s)
    case Closes => if s.closed then s else Close(s)
    case Settles(task) => s.(inFlight := s.inFlight - {task})
  }

  function Run(o: Options, es: seq<Event>): State {
    if es == [] then OPENED else Step(Run(o, es[..|es| - 1]), o, es[|es| - 1])
  }

  lemma SettleKeeps(s: State, o: Options, task: Task)
    requires Inv(s, o)
    ensures Inv(s.(inFlight := s.inFlight - {task}), o)
  {
    var t := s.(inFlight := s.inFlight - {task});
    forall space ensures TurnsKept(t, space) && BurstsSized(t, o, space) && OwnTimer(t, space) && Waits(t, o, space) {
      assert TurnsKept(s, space) && BurstsSized(s, o, space) && OwnTimer(s, space) && Waits(s, o, space);
      hide Turns;
      assert Flushed(t, space) == Flushed(s, space);
    }
    forall timer <- t.live ensures Owned(t, timer) { assert Owned(s, timer); }
  }

  lemma StepKeeps(s: State, o: Options, e: Event)
    requires Inv(s, o) && o.maxTurns >= 1
    ensures Inv(Step(s, o, e), o)
  {
    hide Inv, Flush, Fire, Add, Close;
    match e {
      case AddTurn(space, turn, due, now) => AddKeeps(s, o, space, turn, due, now);
      case FlushDue(now) => FlushKeeps(s, o, Due(s, o.quietMs, now));
      case TimerFires(timer, now) => if timer in s.armed { FireKeeps(s, o, timer, now); }
      case Drains => FlushKeeps(s, o, s.pending.Keys);
      case Closes => if !s.closed { CloseKeeps(s, o); }
      case Settles(task) => SettleKeeps(s, o, task);
    }
  }

  lemma {:induction false} RunKeeps(o: Options, es: seq<Event>)
    requires o.maxTurns >= 1
    ensures Inv(Run(o, es), o)
    decreases |es|
  {
    if es == [] {
      forall space ensures TurnsKept(OPENED, space) {}
    } else {
      RunKeeps(o, es[..|es| - 1]);
      StepKeeps(Run(o, es[..|es| - 1]), o, es[|es| - 1]);
    }
  }

  // While the buffer is open, the flushed bursts followed by the pending turns are the turns added: in order, none lost
  // and none twice. Bursts are never empty nor oversized, and every pending one has a timer running.
  lemma NothingLost(o: Options, es: seq<Event>, space: Space)
    requires o.maxTurns >= 1 && !Run(o, es).closed
    ensures var s := Run(o, es);
            && Flat(Flushed(s, space)) + PendingTurns(s, space) == Added(s, space)
            && (forall burst <- Flushed(s, space) :: 1 <= |burst| <= o.maxTurns)
            && (space in s.pending ==>
                  var burst := s.pending[space];
                  && 1 <= |burst.turns| < o.maxTurns && burst.timer.Some? && burst.timer.value in s.live &&
                      burst.timer.value in s.armed
                  && s.armed[burst.timer.value].due <= burst.updatedAt + o.quietMs)
  {
    RunKeeps(o, es);
    var s := Run(o, es);
    assert TurnsKept(s, space) && BurstsSized(s, o, space) && OwnTimer(s, space) && Waits(s, o, space);
    hide Run, Flat;
    assert Flat(Flushed(s, space)) + PendingTurns(s, space) + [] == Flat(Flushed(s, space)) + PendingTurns(s, space);
  }

  // A drain leaves nothing pending: every turn added is in a flushed burst, and no timer is left running.
  lemma DrainLeavesNothing(o: Options, es: seq<Event>, space: Space)
    requires o.maxTurns >= 1 && !Run(o, es).closed
    ensures var s := Drain(Run(o, es)); s.pending == map[] && s.live == {} && Flat(Flushed(s, space)) == Added(s, space)
  {
    var all := es + [Drains];
    assert all[..|all| - 1] == es;
    NothingLost(o, all, space);
    RunKeeps(o, all);
    var s := Run(o, all);
    hide Run, Flat;
    assert Flat(Flushed(s, space)) + [] == Flat(Flushed(s, space));
    LiveIsOwned(s);
  }

  // ---------------------------------------------------------------- a timer belongs to one burst

  // The space's burst in t is the one it already had in s, with perhaps more turns, and nothing was flushed since.
  ghost predicate SameBurst(s: State, t: State, space: Space) {
    && space in s.pending && space in t.pending && s.pending[space].id == t.pending[space].id
    && Flushed(t, space) == Flushed(s, space) && s.pending[space].turns <= t.pending[space].turns
  }

  // A burst older than s is still that burst in t.
  ghost predicate OldBurst(s: State, t: State, space: Space) {
    space in t.pending && t.pending[space].id < s.nextBurst ==> SameBurst(s, t, space)
  }

  lemma FlushSame(s: State, spaces: set<Space>, space: Space)
    ensures OldBurst(s, Flush(s, spaces), space) && Flush(s, spaces).nextBurst == s.nextBurst
  {
    FlushAt(s, spaces, space);
  }

  lemma SameTrans(r: State, s: State, t: State, space: Space)
    requires OldBurst(r, s, space) && OldBurst(s, t, space) && r.nextBurst <= s.nextBurst
    ensures OldBurst(r, t, space)
  {
  }

  lemma FireSame(s: State, o: Options, timer: nat, now: int, space: Space)
    requires Inv(s, o) && timer in s.armed
    ensures var t := Fire(s, o, timer, now);
            OldBurst(s, t, space) && s.nextBurst <= t.nextBurst && ArmedStays(s, t)
  {
    FireCases(s, o, timer, now);
    FlushSame(s, {s.armed[timer].space}, space);
  }

  lemma StepSame(s: State, o: Options, e: Event, space: Space)
    requires Inv(s, o)
    ensures OldBurst(s, Step(s, o, e), space) && s.nextBurst <= Step(s, o, e).nextBurst && ArmedStays(s, Step(s, o, e))
  {
    hide Add, Fire, Due;
    match e {
      case AddTurn(other, turn, due, now) => AddSame(s, o, other, turn, due, now, space);
      case FlushDue(now) => FlushSame(s, Due(s, o.quietMs, now), space);
      case TimerFires(timer, now) => if timer in s.armed { FireSame(s, o, timer, now, space); }
      case Drains => FlushSame(s, s.pending.Keys, space);
      case Closes =>
      case Settles(task) =>
    }
  }

  ghost predicate ArmedStays(s: State, t: State) {
    s.nextTimer <= t.nextTimer && forall timer <- s.armed :: timer < s.nextTimer ==>
        timer in t.armed && t.armed[timer] == s.armed[timer]
  }

  lemma AddSame(s: State, o: Options, other: Space, turn: Turn, due: int, now: int, space: Space)
    requires Inv(s, o)
    ensures var t := Add(s, o, other, turn, due, now);
            OldBurst(s, t, space) && s.nextBurst <= t.nextBurst && ArmedStays(s, t)
  {
    if !s.closed {
      var flushed := Flush(s, Due(s, o.quietMs, due));
      FlushSame(s, Due(s, o.quietMs, due), space);
      var pushed := Push(flushed, other, turn, now);
      PushSame(flushed, other, turn, now, space);
      SameTrans(s, flushed, pushed, space);
      FlushSame(pushed, {other}, space);
      hide Push;
      if |pushed.pending[other].turns| >= o.maxTurns {
        SameTrans(s, pushed, Flush(pushed, {other}), space);
      } else {
        ArmSame(pushed, o, other, now, space);
        SameTrans(s, pushed, Arm(pushed, o.quietMs, other, now), space);
      }
    }
  }

  lemma PushSame(s: State, other: Space, turn: Turn, now: int, space: Space)
    ensures var t := Push(s, other, turn, now);
            OldBurst(s, t, space) && s.nextBurst <= t.nextBurst && t.armed == s.armed && t.nextTimer == s.nextTimer &&
                other in t.pending
  {
  }

  lemma ArmSame(s: State, o: Options, other: Space, now: int, space: Space)
    requires other in s.pending
    ensures OldBurst(s, Arm(s, o.quietMs, other, now), space) && ArmedStays(s, Arm(s, o.quietMs, other, now))
  {
  }

  lemma {:induction false} RunSame(o: Options, es: seq<Event>, i: nat, space: Space)
    requires i <= |es| && o.maxTurns >= 1
    ensures var s, t := Run(o, es[..i]), Run(o, es);
            OldBurst(s, t, space) && s.nextBurst <= t.nextBurst && ArmedStays(s, t)
    decreases |es|
  {
    if i == |es| {
      assert es[..i] == es;
    } else {
      var before := es[..|es| - 1];
      assert before[..i] == es[..i];
      RunSame(o, before, i, space);
      RunKeeps(o, before);
      StepSame(Run(o, before), o, es[|es| - 1], space);
      hide Step, Inv, OldBurst;
      SameTrans(Run(o, es[..i]), Run(o, before), Run(o, es), space);
    }
  }

  lemma FireFlushes(s: State, o: Options, timer: nat, now: int)
    requires Inv(s, o) && timer in s.armed
    ensures var t, space := Fire(s, o, timer, now), s.armed[timer].space;
            && (forall other :: other != space ==> Flushed(t, other) == Flushed(s, other))
            && (t.flushed == s.flushed || (space in s.pending && s.pending[space].id == s.armed[timer].burst))
  {
    var space := s.armed[timer].space;
    FireCases(s, o, timer, now);
    forall other | other != space ensures Flushed(Flush(s, {space}), other) == Flushed(s, other) {
      FlushAt(s, {space}, other);
    }
    hide Flush, Inv, Fire;
  }

  // A timer only ever flushes the burst it was set for: when it fires, at whatever later time and even if it was
  // cleared, either it flushes nothing, or the space has flushed nothing since the timer was set and its burst is still
  // the one of that moment.
  lemma StaleTimerHarmless(o: Options, es: seq<Event>, i: nat, timer: nat, now: int)
    requires i <= |es| && o.maxTurns >= 1 && timer in Run(o, es[..i]).armed
    ensures var s, t := Run(o, es[..i]), Run(o, es);
            var u, space := Step(t, o, TimerFires(timer, now)), s.armed[timer].space;
            && (forall other :: other != space ==> Flushed(u, other) == Flushed(t, other))
            && (u.flushed == t.flushed || (SameBurst(s, t, space) && t.pending[space].id == s.armed[timer].burst))
  {
    RunKeeps(o, es[..i]);
    RunKeeps(o, es);
    var s, t := Run(o, es[..i]), Run(o, es);
    RunSame(o, es, i, s.armed[timer].space);
    assert timer < s.nextTimer && s.armed[timer].burst < s.nextBurst;
    hide Run, Fire, Inv, SameBurst, Flushed;
    FireFlushes(t, o, timer, now);
  }

  // ---------------------------------------------------------------- a drain waits

  lemma StepInFlight(s: State, o: Options, e: Event, task: Task)
    requires task in s.inFlight && e != Settles(task)
    ensures task in Step(s, o, e).inFlight
  {
    hide Tasks, Extended, TimersOf;
  }

  lemma {:induction false} RunInFlight(o: Options, es: seq<Event>, more: seq<Event>, task: Task)
    requires task in Run(o, es).inFlight && Settles(task) !in more
    ensures task in Run(o, es + more).inFlight
    decreases |more|
  {
    if more == [] {
      assert es + more == es;
    } else {
      var first, last := more[..|more| - 1], more[|more| - 1];
      assert (es + more)[..|es + more| - 1] == es + first && (es + more)[|es + more| - 1] == last;
      RunInFlight(o, es, first, task);
      StepInFlight(Run(o, es + first), o, last, task);
    }
  }

  // drain returns once nothing is in flight. By then every burst that was pending at the call has settled, and so has
  // every flush that was in flight, whatever was added meanwhile.
  lemma DrainWaits(o: Options, es: seq<Event>, more: seq<Event>)
    requires Run(o, es + [Drains] + more).inFlight == {}
    ensures var s := Run(o, es);
            && (forall task <- s.inFlight :: Settles(task) in more)
            && (forall space <- s.pending :: Settles(Task(space, |Flushed(s, space)|)) in more)
  {
    var s := Run(o, es);
    var es1 := es + [Drains];
    assert es1[..|es1| - 1] == es;
    forall task <- s.inFlight ensures Settles(task) in more {
      StepInFlight(s, o, Drains, task);
      if Settles(task) !in more { RunInFlight(o, es1, more, task); }
    }
    forall space <- s.pending ensures Settles(Task(space, |Flushed(s, space)|)) in more {
      var task := Task(space, |Flushed(s, space)|);
      assert s.pending.Keys * s.pending.Keys == s.pending.Keys;
      assert task in Tasks(s.flushed, s.pending.Keys) && task in Run(o, es1).inFlight;
      if Settles(task) !in more { RunInFlight(o, es1, more, task); }
    }
  }
}
