/** One behavior tailing the audit ledger: src/events/reactive.ts. */
module Reactive {
  // Storage survives a crash; the retry gates are in memory and do not. The history fields record what happened and are
  // never read.

  import opened Text
  import opened CappedBackoff

  datatype Row = Row(id: nat, event: string, space: Option<string>)

  datatype Behavior = Behavior(events: set<string>, spaceFilter: Option<string -> bool>)

  datatype Limits = Limits(maxAttempts: nat, backoffMs: nat, maxBackoffMs: nat)

  datatype Gate = Gate(attempts: nat, nextAttemptAt: int)

  datatype World = World(
    watermark: nat,
    dead: set<nat>,            // rows recorded in the dead-letter table
    gates: map<nat, Gate>,
    delivered: seq<nat>,       // history: rows consumed, in order
    reacted: set<nat>,         // history: rows whose reaction resolved
    reactions: multiset<nat>)  // history: how often each row's reaction ran

  // One attempt at one row: the clock readings, and how each awaited call ends. A crash can strike at any of them.
  datatype React = Handled | Ignored | Rejected | DiedReacting

  datatype Io = Stored | Failed | Died

  datatype Attempt = Attempt(now: int, react: React, consume: Io, deadLetter: Io, consumeDead: Io, later: int)

  datatype Outcome = Consumed | Blocked | Aborted

  // ---------------------------------------------------------------- storage

  // Key and watermark in one transaction; the watermark is a maximum.
  function Consume(w: World, id: nat): World {
    w.(watermark := if id > w.watermark then id else w.watermark, delivered := w.delivered + [id])
  }

  function Crash(w: World): World {
    w.(gates := map[])
  }

  // What a failed storage call leaves: nothing, or a dead process.
  function Abort(w: World, io: Io): World {
    if io.Died? then Crash(w) else w
  }

  // ---------------------------------------------------------------- one row

  predicate FilteredOut(b: Behavior, row: Row) {
    b.spaceFilter.Some? && (row.space.None? || !b.spaceFilter.value(row.space.value))
  }

  function Backoff(l: Limits, attempts: nat): nat
    requires attempts > 0
  {
    Delay(l.backoffMs, l.maxBackoffMs, attempts)
  }

  function Attempts(w: World, id: nat): nat {
    if id in w.gates then w.gates[id].attempts else 0
  }

  function ConsumeOne(w: World, b: Behavior, l: Limits, row: Row, a: Attempt): (Outcome, World) {
    if FilteredOut(b, row) then
      if a.consume.Stored? then (Consumed, Consume(w, row.id)) else (Aborted, Abort(w, a.consume))
    else if row.id in w.gates && a.now < w.gates[row.id].nextAttemptAt then (Blocked, w)
    else ReactTo(w.(reactions := w.reactions + multiset{row.id}), l, row.id, a)
  }

  function ReactTo(w: World, l: Limits, id: nat, a: Attempt): (Outcome, World) {
    match a.react
    case DiedReacting => (Aborted, Crash(w))
    case Rejected => Fail(w, l, id, a)
    case _ =>
      var w1 := w.(reacted := w.reacted + {id});
      match a.consume
      case Stored => (Consumed, Consume(w1, id).(gates := w1.gates - {id}))
      case Failed => Fail(w1, l, id, a)
      case Died => (Aborted, Crash(w1))
  }

  // A rejected reaction, or a rejected consume after it.
  function Fail(w: World, l: Limits, id: nat, a: Attempt): (Outcome, World) {
    var attempts := Attempts(w, id) + 1;
    if attempts >= l.maxAttempts then
      if !a.deadLetter.Stored? then (Aborted, Abort(w, a.deadLetter))
      else
        var w1 := w.(dead := w.dead + {id});
        if !a.consumeDead.Stored? then (Aborted, Abort(w1, a.consumeDead))
        else (Consumed, Consume(w1, id).(gates := w1.gates - {id}))
    else (Blocked, w.(gates := w.gates[id := Gate(attempts, a.later + Backoff(l, attempts))]))
  }

  // ---------------------------------------------------------------- one pass, one row at a time

  // The rows of the ledger a behavior reacts to, past the watermark. The ledger is in id order, so this is what
  // the source gets by sorting what it read.
  function Pending(rows: seq<Row>, b: Behavior, watermark: nat): (p: seq<Row>)
    ensures forall r <- p :: r in rows && r.id > watermark && r.event in b.events
  {
    if rows == [] then []
    else if rows[0].id > watermark && rows[0].event in b.events then [rows[0]] + Pending(rows[1..], b, watermark)
    else Pending(rows[1..], b, watermark)
  }

  function Tail(w: World, b: Behavior, l: Limits, pending: seq<Row>, env: nat -> Attempt): World
    decreases |pending|
  {
    if pending == [] then w
    else
      var (o, w') := ConsumeOne(w, b, l, pending[0], env(pending[0].id));
      if o.Consumed? then Tail(w', b, l, pending[1..], env) else w'
  }

  function Pass(w: World, b: Behavior, l: Limits, ledger: seq<Row>, env: nat -> Attempt): World {
    Tail(w, b, l, Pending(ledger, b, w.watermark), env)
  }

  // ---------------------------------------------------------------- runs

  datatype Step = Append(row: Row) | RunPass(env: nat -> Attempt) | CrashStep

  datatype System = System(ledger: seq<Row>, world: World)

  predicate Enabled(s: System, step: Step) {
    step.Append? ==> step.row.id > 0 && forall r <- s.ledger :: r.id < step.row.id
  }

  function Next(s: System, b: Behavior, l: Limits, step: Step): System {
    match step
    case Append(row) => s.(ledger := s.ledger + [row])
    case RunPass(env) => s.(world := Pass(s.world, b, l, s.ledger, env))
    case CrashStep => s.(world := Crash(s.world))
  }

  predicate RunEnabled(s: System, b: Behavior, l: Limits, steps: seq<Step>)
    decreases |steps|
  {
    steps == [] || (Enabled(s, steps[0]) && RunEnabled(Next(s, b, l, steps[0]), b, l, steps[1..]))
  }

  function Run(s: System, b: Behavior, l: Limits, steps: seq<Step>): System
    decreases |steps|
  {
    if steps == [] then s else Run(Next(s, b, l, steps[0]), b, l, steps[1..])
  }

  const START: System := System([], World(0, {}, map[], [], {}, multiset{}))

  // ---------------------------------------------------------------- no row is dropped

  predicate Increasing(rows: seq<Row>) {
    forall i, j :: 0 <= i < j < |rows| ==> rows[i].id < rows[j].id
  }

  // The ids of the rows a behavior reacts to, up to a watermark, in ledger order.
  function MatchingIds(rows: seq<Row>, b: Behavior, upTo: nat): seq<nat> {
    if rows == [] then []
    else
      var first := if rows[0].id <= upTo && rows[0].event in b.events then [rows[0].id] else [];
      first + MatchingIds(rows[1..], b, upTo)
  }

  predicate Accounted(row: Row, b: Behavior, w: World) {
    FilteredOut(b, row) || row.id in w.reacted || row.id in w.dead
  }

  predicate NoDrop(rows: seq<Row>, b: Behavior, w: World) {
    forall r <- rows :: r.event in b.events && r.id <= w.watermark ==> Accounted(r, b, w)
  }

  predicate Inv(s: System, b: Behavior) {
    && Increasing(s.ledger)
    && (forall r <- s.ledger :: r.id > 0)
    && (s.world.watermark == 0 || exists r <- s.ledger :: r.id == s.world.watermark)
    && NoDrop(s.ledger, b, s.world)
    && s.world.delivered == MatchingIds(s.ledger, b, s.world.watermark)
  }

  // Whatever happens to one row, what earlier rows are accounted by stays, and a row is consumed only when accounted.
  lemma ConsumeOneKeeps(w: World, b: Behavior, l: Limits, row: Row, a: Attempt)
    requires row.id > w.watermark
    ensures var (o, w') := ConsumeOne(w, b, l, row, a);
            && w.reacted <= w'.reacted && w.dead <= w'.dead
            && (o.Consumed? ==>
                  w'.watermark == row.id && w'.delivered == w.delivered + [row.id] && Accounted(row, b, w'))
            && (!o.Consumed? ==> w'.watermark == w.watermark && w'.delivered == w.delivered)
  {
  }

  // The rows still pending after the head is consumed are the rest.
  lemma {:induction false} PendingTail(rows: seq<Row>, b: Behavior, watermark: nat)
    requires Increasing(rows) && Pending(rows, b, watermark) != []
    ensures var p := Pending(rows, b, watermark);
            Pending(rows, b, p[0].id) == p[1..] && p[0].id > watermark
    decreases |rows|
  {
    if rows[0].id > watermark && rows[0].event in b.events {
      PendingSame(rows[1..], b, watermark, rows[0].id);
    } else {
      PendingTail(rows[1..], b, watermark);
      var p := Pending(rows[1..], b, watermark);
      assert p[0] in rows[1..];
    }
  }

  lemma {:induction false} PendingSame(rows: seq<Row>, b: Behavior, m: nat, n: nat)
    requires forall r <- rows :: r.id > m && r.id > n
    ensures Pending(rows, b, m) == Pending(rows, b, n)
    decreases |rows|
  {
    if rows != [] { PendingSame(rows[1..], b, m, n); }
  }

  lemma {:induction false} MatchingNone(rows: seq<Row>, b: Behavior, n: nat)
    requires forall r <- rows :: r.id > n
    ensures MatchingIds(rows, b, n) == []
    decreases |rows|
  {
    if rows != [] { MatchingNone(rows[1..], b, n); }
  }

  // Consuming the head of the pending rows extends the consumed ids by exactly that row.
  lemma {:induction false} MatchingNext(rows: seq<Row>, b: Behavior, watermark: nat)
    requires Increasing(rows) && Pending(rows, b, watermark) != []
    ensures var p := Pending(rows, b, watermark);
            MatchingIds(rows, b, p[0].id) == MatchingIds(rows, b, watermark) + [p[0].id]
    decreases |rows|
  {
    var rest := rows[1..];
    if rows[0].id > watermark && rows[0].event in b.events {
      MatchingNone(rest, b, rows[0].id);
      MatchingNone(rows, b, watermark);
    } else {
      MatchingNext(rest, b, watermark);
      var p := Pending(rest, b, watermark);
      assert p[0] in rest;
    }
  }

  // No matching row lies between the watermark and the head of the pending rows.
  lemma {:induction false} NoneBetween(rows: seq<Row>, b: Behavior, watermark: nat)
    requires Increasing(rows) && Pending(rows, b, watermark) != []
    ensures var p := Pending(rows, b, watermark);
            forall r <- rows :: r.event in b.events && r.id <= p[0].id ==> r.id <= watermark || r == p[0]
    decreases |rows|
  {
    if !(rows[0].id > watermark && rows[0].event in b.events) {
      NoneBetween(rows[1..], b, watermark);
      assert forall r <- rows :: r == rows[0] || r in rows[1..];
    }
  }

  lemma {:induction false} TailKeeps(s: System, b: Behavior, l: Limits, env: nat -> Attempt)
    requires Inv(s, b)
    ensures var w := s.world;
            var w' := Tail(w, b, l, Pending(s.ledger, b, w.watermark), env);
            Inv(s.(world := w'), b) && w'.watermark >= w.watermark
    decreases |Pending(s.ledger, b, s.world.watermark)|
  {
    var w := s.world;
    var p := Pending(s.ledger, b, w.watermark);
    if p != [] {
      ConsumeOneKeeps(w, b, l, p[0], env(p[0].id));
      var (o, w') := ConsumeOne(w, b, l, p[0], env(p[0].id));
      if o.Consumed? {
        assert p[0] in s.ledger;
        PendingTail(s.ledger, b, w.watermark);
        MatchingNext(s.ledger, b, w.watermark);
        NoneBetween(s.ledger, b, w.watermark);
        TailKeeps(s.(world := w'), b, l, env);
      }
    }
  }

  lemma AppendKeeps(s: System, b: Behavior, row: Row)
    requires Inv(s, b) && Enabled(s, Append(row))
    ensures Inv(s.(ledger := s.ledger + [row]), b)
  {
    var w := s.world;
    if w.watermark > 0 {
      var r :| r in s.ledger && r.id == w.watermark;
      assert r in s.ledger + [row];
    }
    MatchingAppend(s.ledger, row, b, w.watermark);
    IncreasingAppend(s.ledger, row);
    NoDropAppend(s.ledger, row, b, w);
    hide MatchingIds, Increasing, NoDrop;
  }

  lemma NoDropAppend(rows: seq<Row>, row: Row, b: Behavior, w: World)
    requires NoDrop(rows, b, w) && row.id > w.watermark
    ensures NoDrop(rows + [row], b, w)
  {
    hide Accounted;
  }

  lemma IncreasingAppend(rows: seq<Row>, row: Row)
    requires Increasing(rows) && (forall r <- rows :: r.id < row.id)
    ensures Increasing(rows + [row])
  {
  }

  lemma {:induction false} MatchingAppend(rows: seq<Row>, row: Row, b: Behavior, n: nat)
    requires row.id > n
    ensures MatchingIds(rows + [row], b, n) == MatchingIds(rows, b, n)
    decreases |rows|
  {
    if rows == [] {
      assert rows + [row] == [row];
    } else {
      assert (rows + [row])[1..] == rows[1..] + [row];
      MatchingAppend(rows[1..], row, b, n);
    }
  }

  lemma {:induction false} RunKeeps(s: System, b: Behavior, l: Limits, steps: seq<Step>)
    requires Inv(s, b) && RunEnabled(s, b, l, steps)
    ensures Inv(Run(s, b, l, steps), b) && Run(s, b, l, steps).world.watermark >= s.world.watermark
    decreases |steps|
  {
    if steps != [] {
      match steps[0] {
        case Append(row) => AppendKeeps(s, b, row);
        case RunPass(env) => TailKeeps(s, b, l, env);
        case CrashStep =>
      }
      RunKeeps(Next(s, b, l, steps[0]), b, l, steps[1..]);
    }
  }

  // In every reachable state, crashes included: each matching row at or below the watermark was reacted to, filtered
  // out by space or dead-lettered, and the rows consumed are exactly those rows, once each, in id order.
  lemma NothingDropped(b: Behavior, l: Limits, steps: seq<Step>)
    requires RunEnabled(START, b, l, steps)
    ensures var s := Run(START, b, l, steps);
            && NoDrop(s.ledger, b, s.world)
            && s.world.delivered == MatchingIds(s.ledger, b, s.world.watermark)
  {
    RunKeeps(START, b, l, steps);
  }

  // ---------------------------------------------------------------- the core object

  class TailingCore {
    var watermark: nat
    var dead: set<nat>
    var gates: map<nat, Gate>
    ghost var delivered: seq<nat>
    ghost var reacted: set<nat>
    ghost var reactions: multiset<nat>

    ghost function State(): World
      reads this
    {
      World(watermark, dead, gates, delivered, reacted, reactions)
    }

    constructor ()
      ensures State() == START.world
    {
      watermark, dead, gates, delivered, reacted, reactions := 0, {}, map[], [], {}, multiset{};
    }

    method StoreConsumed(id: nat)
      modifies this`watermark, this`delivered
      ensures State() == Consume(old(State()), id)
    {
      if id > watermark { watermark := id; }
      delivered := delivered + [id];
    }

    method ConsumeRow(b: Behavior, l: Limits, row: Row, a: Attempt) returns (o: Outcome)
      modifies this
      ensures (o, State()) == ConsumeOne(old(State()), b, l, row, a)
    {
      if FilteredOut(b, row) {
        if !a.consume.Stored? {
          if a.consume.Died? { gates := map[]; }
          return Aborted;
        }
        StoreConsumed(row.id);
        return Consumed;
      }
      if row.id in gates && a.now < gates[row.id].nextAttemptAt { return Blocked; }
      reactions := reactions + multiset{row.id};
      if a.react.DiedReacting? {
        gates := map[];
        return Aborted;
      }
      if !a.react.Rejected? {
        reacted := reacted + {row.id};
        if a.consume.Died? {
          gates := map[];
          return Aborted;
        }
        if a.consume.Stored? {
          StoreConsumed(row.id);
          gates := gates - {row.id};
          return Consumed;
        }
      }
      o := Reject(l, row.id, a);
    }

    method Reject(l: Limits, id: nat, a: Attempt) returns (o: Outcome)
      modifies this
      ensures (o, State()) == Fail(old(State()), l, id, a)
    {
      var attempts := (if id in gates then gates[id].attempts else 0) + 1;
      if attempts < l.maxAttempts {
        gates := gates[id := Gate(attempts, a.later + Backoff(l, attempts))];
        return Blocked;
      }
      if !a.deadLetter.Stored? {
        if a.deadLetter.Died? { gates := map[]; }
        return Aborted;
      }
      dead := dead + {id};
      if !a.consumeDead.Stored? {
        if a.consumeDead.Died? { gates := map[]; }
        return Aborted;
      }
      StoreConsumed(id);
      gates := gates - {id};
      return Consumed;
    }

    // One pass over a snapshot of the ledger, one row in flight.
    method TailPass(b: Behavior, l: Limits, ledger: seq<Row>, env: nat -> Attempt)
      modifies this
      ensures State() == Pass(old(State()), b, l, ledger, env)
    {
      var pending := Pending(ledger, b, watermark);
      ghost var result := Pass(State(), b, l, ledger, env);
      var i := 0;
      while i < |pending|
        invariant 0 <= i <= |pending|
        invariant Tail(State(), b, l, pending[i..], env) == result
      {
        var o := ConsumeRow(b, l, pending[i], env(pending[i].id));
        assert pending[i..][1..] == pending[i + 1..];
        i := i + 1;
        if !o.Consumed? { break; }
      }
    }
  }
}
