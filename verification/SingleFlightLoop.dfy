/** The polling loop of src/events/single-flight-loop.ts: each pass schedules the next one when it ends. */
module SingleFlightLoop {
  // `passes`: passes started and not ended. `restarts`: how often start() found one still in flight.
  datatype Loop = Loop(timer: bool, running: bool, passes: nat, restarts: nat)

  // A pass ends when its tick resolves, or throws.
  datatype Event = Start | Stop | PassEnds | PassThrows | TimerFires

  const IDLE: Loop := Loop(false, false, 0, 0)

  predicate Enabled(s: Loop, e: Event) {
    match e
    case PassEnds => s.passes > 0
    case PassThrows => s.passes > 0
    case TimerFires => s.timer
    case _ => true
  }

  function Step(s: Loop, e: Event): Loop
    requires Enabled(s, e)
  {
    match e
    case Start =>
      if s.running then s
      else s.(running := true, passes := s.passes + 1, restarts := if s.passes > 0 then s.restarts + 1 else s.restarts)
    case Stop => s.(running := false, timer := false)
    case PassEnds => s.(passes := s.passes - 1, timer := s.timer || s.running)
    case PassThrows => s.(passes := s.passes - 1)
    case TimerFires => s.(timer := false, passes := s.passes + 1)
  }

  predicate CanRun(s: Loop, es: seq<Event>)
    decreases |es|
  {
    es == [] || (Enabled(s, es[0]) && CanRun(Step(s, es[0]), es[1..]))
  }

  function Run(s: Loop, es: seq<Event>): Loop
    requires CanRun(s, es)
    decreases |es|
  {
    if es == [] then s else Run(Step(s, es[0]), es[1..])
  }

  function Chains(s: Loop): nat {
    s.passes + if s.timer then 1 else 0
  }

  predicate Inv(s: Loop) {
    && Chains(s) <= 1 + s.restarts
    && (s.timer ==> s.running)
  }

  lemma {:induction false} RunKeeps(s: Loop, es: seq<Event>)
    requires Inv(s) && CanRun(s, es)
    ensures Inv(Run(s, es))
    decreases |es|
  {
    if es != [] { RunKeeps(Step(s, es[0]), es[1..]); }
  }

  // Passes never overlap unless the loop was restarted mid-pass, and each such restart adds at most one pass.
  lemma PassesBounded(es: seq<Event>)
    requires CanRun(IDLE, es)
    ensures var s := Run(IDLE, es);
            && s.passes <= 1 + s.restarts
            && (s.restarts == 0 ==> s.passes <= 1 && !(s.passes == 1 && s.timer))
            && (!s.running ==> !s.timer)
  {
    RunKeeps(IDLE, es);
  }

  // ---------------------------------------------------------------- when the loop stops by itself

  // Marked running, with no pass in flight and none scheduled.
  predicate Stalled(s: Loop) {
    s.running && Chains(s) == 0
  }

  // The tick of the only pass throws while nothing is scheduled.
  predicate Stalls(s: Loop, e: Event) {
    s.running && e.PassThrows? && s.passes == 1 && !s.timer
  }

  lemma StepStalls(s: Loop, e: Event)
    requires Enabled(s, e)
    ensures Stalled(Step(s, e)) <==> Stalls(s, e) || (Stalled(s) && !e.Stop?)
  {
  }

  lemma {:induction false} RunAppend(s: Loop, es: seq<Event>, e: Event)
    requires CanRun(s, es + [e])
    ensures CanRun(s, es) && Enabled(Run(s, es), e) && Run(s, es + [e]) == Step(Run(s, es), e)
    decreases |es|
  {
    var all := es + [e];
    if es == [] {
      assert all == [e] && [e][1..] == [];
    } else {
      assert all[0] == es[0] && all[1..] == es[1..] + [e];
      RunAppend(Step(s, es[0]), es[1..], e);
    }
  }

  // The i-th event of a run stalls the loop, and it is not stopped since.
  predicate StalledAt(es: seq<Event>, i: nat)
    requires CanRun(IDLE, es)
  {
    i < |es| && Stop !in es[i + 1..] && CanRun(IDLE, es[..i]) && Stalls(Run(IDLE, es[..i]), es[i])
  }

  // A running loop has a pass in flight or scheduled, except exactly when the tick of its last pass threw and it was
  // not stopped since.
  lemma {:induction false} StalledExactly(es: seq<Event>)
    requires CanRun(IDLE, es)
    ensures Stalled(Run(IDLE, es)) <==> exists i :: 0 <= i < |es| && StalledAt(es, i)
    decreases |es|
  {
    if es != [] {
      var before, e := es[..|es| - 1], es[|es| - 1];
      assert es == before + [e];
      RunAppend(IDLE, before, e);
      StalledExactly(before);
      StepStalls(Run(IDLE, before), e);
      forall i | 0 <= i < |before| ensures StalledAt(es, i) <==> StalledAt(before, i) && !e.Stop? {
        assert es[..i] == before[..i] && es[i + 1..] == before[i + 1..] + [e];
      }
      assert es[|before| + 1..] == [] && es[..|before|] == before;
      assert StalledAt(es, |before|) <==> Stalls(Run(IDLE, before), e);
    }
  }

  // start() does not help then: only stopping first does.
  lemma {:induction false} StalledStays(s: Loop, es: seq<Event>)
    requires Stalled(s) && CanRun(s, es) && Stop !in es
    ensures Run(s, es) == s
    decreases |es|
  {
    if es != [] {
      assert es[0] in es;
      StalledStays(Step(s, es[0]), es[1..]);
    }
  }

  // The shortest such run: the first tick throws.
  lemma FirstTickThrows()
    ensures CanRun(IDLE, [Start, PassThrows, Start]) && Stalled(Run(IDLE, [Start, PassThrows, Start]))
  {
    var es := [Start, PassThrows, Start];
    assert es[1..] == [PassThrows, Start] && es[1..][1..] == [Start] && [Start][1..] == [];
  }

  // ---------------------------------------------------------------- restarts

  // n restarts, each while the first passes are still in flight.
  function Restarting(n: nat): seq<Event> {
    if n == 0 then [Start] else [Start, Stop] + Restarting(n - 1)
  }

  // The bound is reached for every number of restarts.
  lemma {:induction false} BoundReached(n: nat, s: Loop)
    requires !s.running && !s.timer
    ensures CanRun(s, Restarting(n))
    ensures var r := Run(s, Restarting(n));
            r.passes == s.passes + n + 1 && r.restarts == s.restarts + n + if s.passes > 0 then 1 else 0
  {
    if n > 0 {
      var es := Restarting(n);
      var s1 := Step(s, Start);
      var s2 := Step(s1, Stop);
      assert es[0] == Start && es[1..][0] == Stop && es[1..][1..] == Restarting(n - 1);
      BoundReached(n - 1, s2);
    }
  }

  lemma RestartsOverlap(n: nat)
    ensures CanRun(IDLE, Restarting(n))
    ensures var r := Run(IDLE, Restarting(n)); r.restarts == n && r.passes == 1 + n
  {
    BoundReached(n, IDLE);
  }

  class PollingLoop {
    var timer: bool
    var running: bool
    ghost var passes: nat
    ghost var restarts: nat

    ghost function State(): Loop
      reads this
    {
      Loop(timer, running, passes, restarts)
    }

    constructor ()
      ensures State() == IDLE
    {
      timer, running, passes, restarts := false, false, 0, 0;
    }

    method StartLoop()
      modifies this
      ensures State() == Step(old(State()), Start)
    {
      if running { return; }
      running := true;
      restarts := if passes > 0 then restarts + 1 else restarts;
      passes := passes + 1;
    }

    method StopLoop()
      modifies this
      ensures State() == Step(old(State()), Stop)
    {
      running := false;
      if timer { timer := false; }
    }

    // The tick of one pass has resolved.
    method EndPass()
      requires passes > 0
      modifies this
      ensures State() == Step(old(State()), PassEnds)
    {
      passes := passes - 1;
      if running && !timer { timer := true; }
    }

    // Or it was rejected: the rest of the pass is not run.
    method FailPass()
      requires passes > 0
      modifies this
      ensures State() == Step(old(State()), PassThrows)
    {
      passes := passes - 1;
    }

    method FireTimer()
      requires timer
      modifies this
      ensures State() == Step(old(State()), TimerFires)
    {
      timer := false;
      passes := passes + 1;
    }
  }
}
