/** When the tailing pass of src/events/reactive.ts makes progress, and how often a row is reacted to. */
module ReactiveProgress {
  import opened Reactive

  // ---------------------------------------------------------------- every row is consumed

  // The attempts a row gets before it is dead-lettered.
  function Allowed(l: Limits): nat {
    if l.maxAttempts > 0 then l.maxAttempts else 1
  }

  // No crash, and no storage failure outside the retried part.
  predicate Calm(b: Behavior, row: Row, a: Attempt) {
    && !a.react.DiedReacting? && !a.consume.Died? && (FilteredOut(b, row) ==> a.consume.Stored?)
    && a.deadLetter.Stored? && a.consumeDead.Stored?
  }

  predicate AllCalm(b: Behavior, p: seq<Row>, env: nat -> Attempt) {
    forall r <- p :: Calm(b, r, env(r.id))
  }

  // The head's backoff is over when the pass reaches it.
  predicate Ready(w: World, p: seq<Row>, env: nat -> Attempt) {
    p != [] && p[0].id in w.gates ==> env(p[0].id).now >= w.gates[p[0].id].nextAttemptAt
  }

  // Only the head has a gate. It counts attempts that really reacted, and fewer than are allowed.
  predicate Gated(w: World, p: seq<Row>, b: Behavior, l: Limits) {
    forall id <- w.gates ::
      p != [] && id == p[0].id && !FilteredOut(b, p[0]) && w.gates[id].attempts < Allowed(l) &&
          w.gates[id].attempts <= w.reactions[id]
  }

  // Reactions ran for rows of the ledger only.
  predicate Known(w: World, ledger: seq<Row>) {
    forall id <- w.reactions :: exists r <- ledger :: r.id == id
  }

  predicate BackingOff(w: World, id: nat, a: Attempt) {
    id in w.gates && a.now < w.gates[id].nextAttemptAt
  }

  // A failed attempt ends consumed, or in one more counted attempt, or with storage failing too.
  lemma FailStep(w: World, l: Limits, id: nat, a: Attempt)
    ensures var (o, w') := Fail(w, l, id, a);
            && w'.reactions == w.reactions
            && (o.Consumed? ==> w'.gates == w.gates - {id})
            && (o.Aborted? ==> w'.watermark == w.watermark && (w'.gates == w.gates || w'.gates == map[]))
            && (o.Blocked? ==> w'.gates.Keys == w.gates.Keys + {id} && w'.watermark == w.watermark
                               && Attempts(w', id) == Attempts(w, id) + 1 < l.maxAttempts)
            && (a.deadLetter.Stored? && a.consumeDead.Stored? ==> !o.Aborted?)
  {
  }

  // Whatever becomes of the head.
  lemma OneStep(w: World, b: Behavior, l: Limits, p: seq<Row>, a: Attempt)
    requires p != [] && Gated(w, p, b, l) && p[0].id > w.watermark
    ensures var (o, w') := ConsumeOne(w, b, l, p[0], a);
            && (o.Consumed? ==> w'.gates == map[])
            && (!o.Consumed? ==> Gated(w', p, b, l) && w'.watermark == w.watermark)
            && w.reactions[p[0].id] <= w'.reactions[p[0].id] <= w.reactions[p[0].id] + 1
            && forall id: nat :: id != p[0].id ==> w'.reactions[id] == w.reactions[id]
  {
    hide Fail, FilteredOut, Backoff;
    var id := p[0].id;
    var w1 := w.(reactions := w.reactions + multiset{id});
    assert w1.reactions[id] == w.reactions[id] + 1;
    if !FilteredOut(b, p[0]) { ReactStep(w1, b, l, p, a); }
    assert forall k: nat :: k != id ==> w1.reactions[k] == w.reactions[k];
  }

  lemma ReactStep(w: World, b: Behavior, l: Limits, p: seq<Row>, a: Attempt)
    requires p != [] && !FilteredOut(b, p[0]) && p[0].id > w.watermark
    requires w.gates.Keys <= {p[0].id} && Attempts(w, p[0].id) < w.reactions[p[0].id] &&
        Attempts(w, p[0].id) < Allowed(l)
    ensures var (o, w') := ReactTo(w, l, p[0].id, a);
            && w'.reactions == w.reactions
            && (o.Consumed? ==> w'.gates == map[])
            && (!o.Consumed? ==> Gated(w', p, b, l) && w'.watermark == w.watermark)
  {
    hide Fail, FilteredOut, Backoff;
    var id := p[0].id;
    FailStep(w, l, id, a);
    FailStep(w.(reacted := w.reacted + {id}), l, id, a);
    var (o, w') := ReactTo(w, l, id, a);
    assert w'.gates.Keys <= {id} && Attempts(w', id) <= w'.reactions[id];
  }

  // Without a crash, and with storage there: the attempt is not aborted, and counts unless the backoff is still on.
  lemma CalmStep(w: World, b: Behavior, l: Limits, p: seq<Row>, a: Attempt)
    requires p != [] && Gated(w, p, b, l) && Calm(b, p[0], a) && p[0].id > w.watermark
    ensures var id := p[0].id;
            var (o, w') := ConsumeOne(w, b, l, p[0], a);
            && !o.Aborted?
            && (o.Blocked? && BackingOff(w, id, a) ==> w' == w)
            && (o.Blocked? && !BackingOff(w, id, a) ==>
                  w'.reactions[id] == w.reactions[id] + 1 && Attempts(w', id) == Attempts(w, id) + 1)
  {
    hide Fail, FilteredOut, Backoff;
    var id := p[0].id;
    var w1 := w.(reactions := w.reactions + multiset{id});
    FailStep(w1, l, id, a);
    FailStep(w1.(reacted := w1.reacted + {id}), l, id, a);
  }

  lemma KnownStep(w: World, w': World, ledger: seq<Row>, row: Row)
    requires Known(w, ledger) && row in ledger && forall id: nat :: id != row.id ==> w'.reactions[id] == w.reactions[id]
    ensures Known(w', ledger)
  {
    forall id <- w'.reactions ensures exists r <- ledger :: r.id == id {
      if id != row.id { assert id in w.reactions; }
    }
  }

  // A pass keeps the gate bookkeeping, whatever fails in it and if it dies.
  lemma {:induction false} TailGated(s: System, b: Behavior, l: Limits, env: nat -> Attempt)
    requires Inv(s, b) && Gated(s.world, Pending(s.ledger, b, s.world.watermark), b, l) && Known(s.world, s.ledger)
    ensures var w' := Pass(s.world, b, l, s.ledger, env);
            Gated(w', Pending(s.ledger, b, w'.watermark), b, l) && Known(w', s.ledger)
    decreases |Pending(s.ledger, b, s.world.watermark)|
  {
    var w := s.world;
    var p := Pending(s.ledger, b, w.watermark);
    if p != [] {
      OneStep(w, b, l, p, env(p[0].id));
      var (o, w1) := ConsumeOne(w, b, l, p[0], env(p[0].id));
      KnownStep(w, w1, s.ledger, p[0]);
      if o.Consumed? {
        ConsumedKeeps(s, b, l, env);
        PendingTail(s.ledger, b, w.watermark);
        hide ConsumeOne, Inv, Known;
        TailGated(s.(world := w1), b, l, env);
      }
    }
  }

  lemma {:induction false} PendingAppend(rows: seq<Row>, row: Row, b: Behavior, n: nat)
    ensures Pending(rows + [row], b, n)
         == Pending(rows, b, n) + if row.id > n && row.event in b.events then [row] else []
    decreases |rows|
  {
    if rows == [] {
      assert rows + [row] == [row] && [row][1..] == [];
    } else {
      assert (rows + [row])[1..] == rows[1..] + [row];
      PendingAppend(rows[1..], row, b, n);
    }
  }

  lemma AppendGated(s: System, b: Behavior, l: Limits, row: Row)
    requires Gated(s.world, Pending(s.ledger, b, s.world.watermark), b, l) && Known(s.world, s.ledger)
    ensures Gated(s.world, Pending(s.ledger + [row], b, s.world.watermark), b, l) && Known(s.world, s.ledger + [row])
  {
    PendingAppend(s.ledger, row, b, s.world.watermark);
    forall id <- s.world.reactions ensures exists r <- s.ledger + [row] :: r.id == id {
      var r :| r in s.ledger && r.id == id;
      assert r in s.ledger + [row];
    }
  }

  // The gate bookkeeping holds in every reachable state, crashes and storage failures included.
  lemma {:induction false} RunGated(s: System, b: Behavior, l: Limits, steps: seq<Step>)
    requires Inv(s, b) && Gated(s.world, Pending(s.ledger, b, s.world.watermark), b, l) && Known(s.world, s.ledger)
    requires RunEnabled(s, b, l, steps)
    ensures var t := Run(s, b, l, steps);
            Inv(t, b) && Gated(t.world, Pending(t.ledger, b, t.world.watermark), b, l) && Known(t.world, t.ledger)
    decreases |steps|
  {
    if steps != [] {
      match steps[0] {
        case Append(row) => AppendKeeps(s, b, row); AppendGated(s, b, l, row);
        case RunPass(env) => TailKeeps(s, b, l, env); TailGated(s, b, l, env);
        case CrashStep =>
      }
      hide Inv, Gated, Known, Pass;
      assert Inv(Next(s, b, l, steps[0]), b) by { RunKeeps(s, b, l, [steps[0]]); OneStepRun(s, b, l, steps[0]); }
      RunGated(Next(s, b, l, steps[0]), b, l, steps[1..]);
    }
  }

  lemma OneStepRun(s: System, b: Behavior, l: Limits, step: Step)
    requires Enabled(s, step)
    ensures Run(s, b, l, [step]) == Next(s, b, l, step) && RunEnabled(s, b, l, [step])
  {
    assert [step][1..] == [];
  }

  // ---------------------------------------------------------------- how often a row is reacted to

  // The reactions to a row since w0, with those that w0's own gate still counts.
  function Since(w0: World, w: World, id: nat): int {
    w.reactions[id] - (w0.reactions[id] - Attempts(w0, id))
  }

  // For a pending row the gates count exactly those; and no row has more than are allowed.
  ghost predicate Tally(w0: World, w: World, p: seq<Row>, l: Limits) {
    && (forall r <- p :: Since(w0, w, r.id) == Attempts(w, r.id))
    && (forall id: nat :: Since(w0, w, id) <= Allowed(l))
  }

  lemma TallyStarts(w: World, p: seq<Row>, b: Behavior, l: Limits)
    requires Gated(w, p, b, l)
    ensures Tally(w, w, p, l)
  {
  }

  lemma CalmTally(w0: World, w: World, b: Behavior, l: Limits, p: seq<Row>, a: Attempt)
    requires p != [] && Increasing(p) && Gated(w, p, b, l) && Tally(w0, w, p, l) && Calm(b, p[0], a) &&
        p[0].id > w.watermark
    ensures var (o, w') := ConsumeOne(w, b, l, p[0], a);
            (o.Consumed? ==> Tally(w0, w', p[1..], l)) && (o.Blocked? ==> Tally(w0, w', p, l))
  {
    OneStep(w, b, l, p, a);
    CalmStep(w, b, l, p, a);
    var (o, w') := ConsumeOne(w, b, l, p[0], a);
    hide ConsumeOne, FilteredOut, Calm, BackingOff;
    TallyStep(w0, w, w', b, p, l, !o.Consumed?);
  }

  lemma TallyStep(w0: World, w: World, w': World, b: Behavior, p: seq<Row>, l: Limits, blocked: bool)
    requires p != [] && Increasing(p) && Gated(w, p, b, l) && Tally(w0, w, p, l)
    requires forall id: nat :: id != p[0].id ==> w'.reactions[id] == w.reactions[id]
    requires w.reactions[p[0].id] <= w'.reactions[p[0].id] <= w.reactions[p[0].id] + 1
    requires if blocked then
               Gated(w', p, b, l) && w'.reactions[p[0].id] - w.reactions[p[0].id] ==
                   Attempts(w', p[0].id) - Attempts(w, p[0].id)
             else w'.gates == map[]
    ensures Tally(w0, w', if blocked then p else p[1..], l)
  {
    hide FilteredOut;
    var head := p[0].id;
    assert p[0] in p && Since(w0, w, head) == Attempts(w, head);
    forall id: nat ensures Since(w0, w', id) <= Allowed(l) {
      assert Since(w0, w, id) <= Allowed(l);
      if id != head { assert w'.reactions[id] == w.reactions[id]; }
    }
    forall r | r in p && r.id != head ensures Since(w0, w', r.id) == Attempts(w', r.id) {
      assert w'.reactions[r.id] == w.reactions[r.id] && Since(w0, w, r.id) == Attempts(w, r.id);
    }
    forall r | r in p[1..] ensures r in p && r.id != head { LaterRow(p, r); }
  }

  // A calm pass leaves fewer rows pending, or the same rows; and then, run after the head's backoff, one attempt less.
  lemma {:induction false} PassProgress(w0: World, s: System, b: Behavior, l: Limits, env: nat -> Attempt)
    requires Inv(s, b) && Gated(s.world, Pending(s.ledger, b, s.world.watermark), b, l)
    requires Tally(w0, s.world, Pending(s.ledger, b, s.world.watermark), l)
    requires AllCalm(b, Pending(s.ledger, b, s.world.watermark), env)
    ensures var p := Pending(s.ledger, b, s.world.watermark);
            var w' := Pass(s.world, b, l, s.ledger, env);
            var p' := Pending(s.ledger, b, w'.watermark);
            && Tally(w0, w', p', l) && |p'| <= |p|
            && (p == [] || !Ready(s.world, p, env) || |p'| < |p|
                || (p' == p && Attempts(w', p[0].id) == Attempts(s.world, p[0].id) + 1))
    decreases |Pending(s.ledger, b, s.world.watermark)|
  {
    var w := s.world;
    var p := Pending(s.ledger, b, w.watermark);
    if p != [] {
      PendingIncreasing(s.ledger, b, w.watermark);
      OneStep(w, b, l, p, env(p[0].id));
      CalmStep(w, b, l, p, env(p[0].id));
      CalmTally(w0, w, b, l, p, env(p[0].id));
      var (o, w1) := ConsumeOne(w, b, l, p[0], env(p[0].id));
      if o.Consumed? {
        ConsumedKeeps(s, b, l, env);
        PendingTail(s.ledger, b, w.watermark);
        hide ConsumeOne, Inv, Tally;
        PassProgress(w0, s.(world := w1), b, l, env);
      } else {
        hide ConsumeOne, Inv, Tally;
      }
    }
  }

  lemma {:induction false} PendingIncreasing(rows: seq<Row>, b: Behavior, n: nat)
    requires Increasing(rows)
    ensures Increasing(Pending(rows, b, n))
    decreases |rows|
  {
    if rows != [] {
      var q := Pending(rows[1..], b, n);
      PendingIncreasing(rows[1..], b, n);
      forall r | r in q ensures r.id > rows[0].id { LaterRow(rows, r); }
      IncreasingCons(rows[0], q);
    }
  }

  lemma LaterRow(rows: seq<Row>, r: Row)
    requires rows != [] && Increasing(rows) && r in rows[1..]
    ensures r.id > rows[0].id
  {
    var i :| 0 <= i < |rows| - 1 && rows[1..][i] == r;
    assert rows[i + 1] == r;
  }

  lemma IncreasingCons(r: Row, q: seq<Row>)
    requires Increasing(q) && forall x <- q :: x.id > r.id
    ensures Increasing([r] + q)
  {
    var all := [r] + q;
    forall i, j | 0 <= i < j < |all| ensures all[i].id < all[j].id {
      assert all[j] == q[j - 1] && q[j - 1] in q;
      if i > 0 { assert all[i] == q[i - 1]; }
    }
  }

  lemma ConsumedKeeps(s: System, b: Behavior, l: Limits, env: nat -> Attempt)
    requires Inv(s, b) && Pending(s.ledger, b, s.world.watermark) != []
    ensures var p := Pending(s.ledger, b, s.world.watermark);
            var (o, w1) := ConsumeOne(s.world, b, l, p[0], env(p[0].id));
            o.Consumed? ==> Inv(s.(world := w1), b) && w1.watermark == p[0].id
  {
    var w := s.world;
    var p := Pending(s.ledger, b, w.watermark);
    ConsumeOneKeeps(w, b, l, p[0], env(p[0].id));
    assert p[0] in s.ledger;
    MatchingNext(s.ledger, b, w.watermark);
    NoneBetween(s.ledger, b, w.watermark);
  }

  // Passes without appends or crashes, each run after the head's backoff.
  predicate ReadyPasses(s: System, b: Behavior, l: Limits, envs: seq<nat -> Attempt>)
    decreases |envs|
  {
    envs == [] ||
    (var p := Pending(s.ledger, b, s.world.watermark);
     && AllCalm(b, p, envs[0]) && Ready(s.world, p, envs[0])
     && ReadyPasses(s.(world := Pass(s.world, b, l, s.ledger, envs[0])), b, l, envs[1..]))
  }

  function Passes(s: System, b: Behavior, l: Limits, envs: seq<nat -> Attempt>): System
    decreases |envs|
  {
    if envs == [] then s
    else Passes(s.(world := Pass(s.world, b, l, s.ledger, envs[0])), b, l, envs[1..])
  }

  function Work(s: System, b: Behavior, l: Limits): int {
    var p := Pending(s.ledger, b, s.world.watermark);
    if p == [] then 0 else |p| * Allowed(l) - Attempts(s.world, p[0].id)
  }

  // Once appends stop, enough calm passes, each run after the head's backoff, consume every row.
  lemma {:induction false} PassesDrain(w0: World, s: System, b: Behavior, l: Limits, envs: seq<nat -> Attempt>)
    requires Inv(s, b) && Gated(s.world, Pending(s.ledger, b, s.world.watermark), b, l) && Known(s.world, s.ledger)
    requires Tally(w0, s.world, Pending(s.ledger, b, s.world.watermark), l) && ReadyPasses(s, b, l, envs)
    ensures var t := Passes(s, b, l, envs);
            && Tally(w0, t.world, Pending(t.ledger, b, t.world.watermark), l)
            && (|envs| >= Work(s, b, l) ==> Pending(t.ledger, b, t.world.watermark) == [])
    decreases |envs|
  {
    WorkBounds(s, b, l);
    if envs != [] {
      PassWork(w0, s, b, l, envs[0]);
      TailKeeps(s, b, l, envs[0]);
      TailGated(s, b, l, envs[0]);
      hide AllCalm, Inv, Pass, Gated, Known, Tally, Work;
      PassesDrain(w0, s.(world := Pass(s.world, b, l, s.ledger, envs[0])), b, l, envs[1..]);
    }
  }

  lemma WorkBounds(s: System, b: Behavior, l: Limits)
    requires Gated(s.world, Pending(s.ledger, b, s.world.watermark), b, l)
    ensures Work(s, b, l) <= 0 ==> Pending(s.ledger, b, s.world.watermark) == []
  {
    var p := Pending(s.ledger, b, s.world.watermark);
    if p != [] {
      assert Attempts(s.world, p[0].id) < Allowed(l);
      assert |p| * Allowed(l) >= Allowed(l);
    }
  }

  lemma PassWork(w0: World, s: System, b: Behavior, l: Limits, env: nat -> Attempt)
    requires Inv(s, b) && Gated(s.world, Pending(s.ledger, b, s.world.watermark), b, l) && Known(s.world, s.ledger)
    requires Tally(w0, s.world, Pending(s.ledger, b, s.world.watermark), l)
    requires var p := Pending(s.ledger, b, s.world.watermark); AllCalm(b, p, env) && Ready(s.world, p, env)
    ensures var t := s.(world := Pass(s.world, b, l, s.ledger, env));
            && Tally(w0, t.world, Pending(t.ledger, b, t.world.watermark), l)
            && (Work(t, b, l) < Work(s, b, l) || Work(t, b, l) == 0)
  {
    PassProgress(w0, s, b, l, env);
    TailGated(s, b, l, env);
    var t := s.(world := Pass(s.world, b, l, s.ledger, env));
    var p, q := Pending(s.ledger, b, s.world.watermark), Pending(t.ledger, b, t.world.watermark);
    WorkShrinks(|p|, |q|, Allowed(l));
    if p != [] { assert Attempts(s.world, p[0].id) < Allowed(l); }
    hide Pass, AllCalm, Inv, Tally, Known;
  }

  lemma WorkShrinks(n: nat, m: nat, k: nat)
    ensures m < n ==> m * k + k <= n * k
  {
    if m < n { assert (m + 1) * k <= n * k; }
  }

  // From every reachable state, crashes and storage failures included: once appends, crashes and failures stop, at most
  // `Allowed` passes per pending row, each run after the head's backoff, consume every row; and from there on no row's
  // reaction runs more often than is allowed.
  lemma Drains(b: Behavior, l: Limits, steps: seq<Step>, envs: seq<nat -> Attempt>)
    requires RunEnabled(START, b, l, steps)
    requires ReadyPasses(Run(START, b, l, steps), b, l, envs)
    ensures var s := Run(START, b, l, steps);
            var t := Passes(s, b, l, envs);
            && Work(s, b, l) <= |Pending(s.ledger, b, s.world.watermark)| * Allowed(l)
            && (|envs| >= Work(s, b, l) ==> Pending(t.ledger, b, t.world.watermark) == [])
            && (forall id: nat :: Since(s.world, t.world, id) <= Allowed(l))
  {
    RunGated(START, b, l, steps);
    var s := Run(START, b, l, steps);
    TallyStarts(s.world, Pending(s.ledger, b, s.world.watermark), b, l);
    PassesDrain(s.world, s, b, l, envs);
  }

  lemma ReadyPassExists(w: World, p: seq<Row>, b: Behavior, answer: nat -> React) returns (env: nat -> Attempt)
    requires forall id: nat :: !answer(id).DiedReacting?
    ensures AllCalm(b, p, env) && Ready(w, p, env) && forall id: nat :: env(id).react == answer(id)
  {
    hide FilteredOut;
    var now := if p != [] && p[0].id in w.gates then w.gates[p[0].id].nextAttemptAt else 0;
    env := (id: nat) => Attempt(now, answer(id), Stored, Stored, Stored, now);
  }

  // There always are such passes, whatever the reactions come to in each.
  lemma {:induction false} ReadyPassesExist(s: System, b: Behavior, l: Limits, n: nat, answers: nat -> nat -> React)
    returns (envs: seq<nat -> Attempt>)
    requires forall i: nat, id: nat :: !answers(i)(id).DiedReacting?
    ensures |envs| == n && ReadyPasses(s, b, l, envs)
    ensures forall i, id: nat :: 0 <= i < n ==> envs[i](id).react == answers(i)(id)
    decreases n
  {
    hide Pass, Pending, AllCalm, Ready;
    envs := [];
    if n > 0 {
      var w, p := s.world, Pending(s.ledger, b, s.world.watermark);
      var first := ReadyPassExists(w, p, b, answers(0));
      var t := s.(world := Pass(w, b, l, s.ledger, first));
      var more := ReadyPassesExist(t, b, l, n - 1, (i: nat) => answers(i + 1));
      envs := [first] + more;
      assert envs[0] == first && envs[1..] == more;
    }
  }

  // So from every reachable state, however reactions go on to fail, as many passes as there is work consume every row.
  lemma EveryRowEnds(b: Behavior, l: Limits, steps: seq<Step>, answers: nat -> nat -> React)
    returns (envs: seq<nat -> Attempt>)
    requires RunEnabled(START, b, l, steps) && forall i: nat, id: nat :: !answers(i)(id).DiedReacting?
    ensures var s := Run(START, b, l, steps);
            && |envs| <= |Pending(s.ledger, b, s.world.watermark)| * Allowed(l) && ReadyPasses(s, b, l, envs)
            && (forall i, id: nat :: 0 <= i < |envs| ==> envs[i](id).react == answers(i)(id))
            && var t := Passes(s, b, l, envs); Pending(t.ledger, b, t.world.watermark) == []
  {
    var s := Run(START, b, l, steps);
    var work := Work(s, b, l);
    envs := ReadyPassesExist(s, b, l, if work > 0 then work else 0, answers);
    Drains(b, l, steps, envs);
    hide Run, RunEnabled, Work, Pending, ReadyPasses, Passes;
  }

  // ---------------------------------------------------------------- while rows are appended

  // Appends and calm passes only.
  predicate CalmRun(s: System, b: Behavior, l: Limits, steps: seq<Step>)
    decreases |steps|
  {
    steps == [] ||
    (&& !steps[0].CrashStep?
     && (steps[0].RunPass? ==> AllCalm(b, Pending(s.ledger, b, s.world.watermark), steps[0].env))
     && CalmRun(Next(s, b, l, steps[0]), b, l, steps[1..]))
  }

  lemma AppendTally(w0: World, s: System, b: Behavior, l: Limits, row: Row)
    requires Gated(s.world, Pending(s.ledger, b, s.world.watermark), b, l) && Known(s.world, s.ledger) &&
        Enabled(s, Append(row))
    requires Tally(w0, s.world, Pending(s.ledger, b, s.world.watermark), l) && Earlier(w0, s.world)
    ensures Tally(w0, s.world, Pending(s.ledger + [row], b, s.world.watermark), l)
  {
    var p := Pending(s.ledger, b, s.world.watermark);
    PendingAppend(s.ledger, row, b, s.world.watermark);
    assert row.id !in s.world.reactions;
    forall r <- p + [row] ensures Since(w0, s.world, r.id) == Attempts(s.world, r.id) {
      if r !in p {
        assert r == row && row.id !in w0.reactions;
      }
    }
  }

  // w0 is an earlier world: its reactions and gates are of rows reacted to.
  predicate Earlier(w0: World, w: World) {
    && (forall id <- w0.reactions :: id in w.reactions)
    && (forall id <- w0.gates :: id in w0.reactions || w0.gates[id].attempts == 0)
  }

  lemma {:induction false} TailReactions(w: World, b: Behavior, l: Limits, p: seq<Row>, env: nat -> Attempt)
    ensures w.reactions <= Tail(w, b, l, p, env).reactions
    decreases |p|
  {
    if p != [] {
      ConsumeReactions(w, b, l, p[0], env(p[0].id));
      var (o, w1) := ConsumeOne(w, b, l, p[0], env(p[0].id));
      hide ConsumeOne;
      if o.Consumed? { TailReactions(w1, b, l, p[1..], env); }
    }
  }

  lemma ConsumeReactions(w: World, b: Behavior, l: Limits, row: Row, a: Attempt)
    ensures w.reactions <= ConsumeOne(w, b, l, row, a).1.reactions
  {
  }

  lemma {:induction false} CalmRunTally(w0: World, s: System, b: Behavior, l: Limits, steps: seq<Step>)
    requires Inv(s, b) && Gated(s.world, Pending(s.ledger, b, s.world.watermark), b, l) && Known(s.world, s.ledger)
    requires Tally(w0, s.world, Pending(s.ledger, b, s.world.watermark), l) && Earlier(w0, s.world)
    requires RunEnabled(s, b, l, steps) && CalmRun(s, b, l, steps)
    ensures forall id: nat :: Since(w0, Run(s, b, l, steps).world, id) <= Allowed(l)
    decreases |steps|
  {
    if steps != [] {
      OneStepRun(s, b, l, steps[0]);
      RunGated(s, b, l, [steps[0]]);
      match steps[0] {
        case Append(row) => AppendTally(w0, s, b, l, row);
        case RunPass(env) =>
          PassProgress(w0, s, b, l, env);
          TailReactions(s.world, b, l, Pending(s.ledger, b, s.world.watermark), env);
      }
      hide Inv, Gated, Known, Pass, Tally, AllCalm;
      CalmRunTally(w0, Next(s, b, l, steps[0]), b, l, steps[1..]);
    }
  }

  // However a run went so far, after it (so after its last crash) appends and calm passes react to no row more often
  // than is allowed. Over a run of those alone the bound is absolute.
  lemma ReactionsBounded(b: Behavior, l: Limits, steps: seq<Step>, more: seq<Step>)
    requires RunEnabled(START, b, l, steps)
    requires RunEnabled(Run(START, b, l, steps), b, l, more) && CalmRun(Run(START, b, l, steps), b, l, more)
    ensures var s := Run(START, b, l, steps);
            var t := Run(s, b, l, more);
            && (forall id: nat :: Since(s.world, t.world, id) <= Allowed(l))
            && (steps == [] ==> forall id: nat :: t.world.reactions[id] <= Allowed(l))
  {
    RunGated(START, b, l, steps);
    var s := Run(START, b, l, steps);
    TallyStarts(s.world, Pending(s.ledger, b, s.world.watermark), b, l);
    CalmRunTally(s.world, s, b, l, more);
    var t := Run(s, b, l, more);
    forall id: nat | steps == [] ensures t.world.reactions[id] <= Allowed(l) {
      assert Since(START.world, t.world, id) == t.world.reactions[id];
    }
  }
}
