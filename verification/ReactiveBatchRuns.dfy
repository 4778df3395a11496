/** Runs of src/events/reactive.ts with several rows in flight and with reads that may disagree. */
module ReactiveBatchRuns {
  import opened Reactive
  import opened ReactiveProgress
  import opened ReactiveBatches

  // ---------------------------------------------------------------- one pass, batch by batch

  // The process dies in the attempt.
  predicate Dies(w: World, b: Behavior, l: Limits, row: Row, a: Attempt) {
    if FilteredOut(b, row) then a.consume.Died?
    else if BackingOff(w, row.id, a) then false
    else
      || a.react.DiedReacting? || (!a.react.Rejected? && a.consume.Died?)
      || (Fails(a) && LastAttempt(w, l, row.id)
          && (a.deadLetter.Died? || (a.deadLetter.Stored? && a.consumeDead.Died?)))
  }

  predicate AllConsumed(os: seq<Outcome>) {
    forall o <- os :: o.Consumed?
  }

  function Width(k: nat, p: seq<Row>): (n: nat)
    requires k > 0 && p != []
    ensures 0 < n <= |p| && (k == 1 ==> n == 1)
  {
    if k < |p| then k else |p|
  }

  // The loop over what was read, k rows in flight: it goes on only after a batch in which every row was consumed.
  function BatchTail(w: World, b: Behavior, l: Limits, p: seq<Row>, k: nat, env: nat -> Attempt): World
    requires k > 0
    decreases |p|
  {
    if p == [] then w
    else
      var rows := p[..Width(k, p)];
      var (os, w1) := Batch(w, b, l, rows, env);
      if AllConsumed(os) then BatchTail(w1, b, l, p[Width(k, p)..], k, env)
      else if exists r <- rows :: Dies(w, b, l, r, env(r.id)) then Crash(w1)
      else w1
  }

  // One of its batches passes over a row.
  predicate TailPassesOver(ledger: seq<Row>, w: World, b: Behavior, l: Limits, p: seq<Row>, k: nat, env: nat -> Attempt)
    requires k > 0
    decreases |p|
  {
    p != [] &&
    var rows := p[..Width(k, p)];
    var (os, w1) := Batch(w, b, l, rows, env);
    PassesOver(ledger, w, b, l, rows, env)
    || (AllConsumed(os) && TailPassesOver(ledger, w1, b, l, p[Width(k, p)..], k, env))
  }

  // A row that was dropped is not read again, so it stays dropped.
  lemma DropStays(ledger: seq<Row>, w: World, b: Behavior, l: Limits, rows: seq<Row>, env: nat -> Attempt)
    requires !NoDrop(ledger, b, w) && Increasing(rows) && forall r <- rows :: r.id > w.watermark
    ensures !NoDrop(ledger, b, Batch(w, b, l, rows, env).1)
  {
    var r :| r in ledger && r.event in b.events && r.id <= w.watermark && !Accounted(r, b, w);
    BatchOthers(w, b, l, rows, env, r.id);
    BatchWatermark(w, b, l, rows, env);
    hide Batch, Consumes, Increasing;
    assert !Accounted(r, b, Batch(w, b, l, rows, env).1);
  }

  // What is left to read after a batch lies past its watermark.
  lemma RestIsRead(ledger: seq<Row>, w: World, b: Behavior, l: Limits, p: seq<Row>, n: nat, env: nat -> Attempt)
    requires Increasing(p) && n <= |p| && (forall r <- p :: r.id > w.watermark)
    ensures var w1 := Batch(w, b, l, p[..n], env).1;
            && Increasing(p[..n]) && (forall r <- p[..n] :: r in p)
            && Increasing(p[n..]) && (forall r <- p[n..] :: r in p && r.id > w1.watermark)
            && (w1.watermark == w.watermark || exists r <- p :: r.id == w1.watermark)
    ensures IsRead(ledger, w, b, p) ==>
              IsRead(ledger, w, b, p[..n]) && IsRead(ledger, Batch(w, b, l, p[..n], env).1, b, p[n..])
  {
    var rows := p[..n];
    assert forall r <- rows :: r in p;
    BatchWatermark(w, b, l, rows, env);
    var w1 := Batch(w, b, l, rows, env).1;
    hide Batch, Consumes;
    if w1.watermark != w.watermark {
      var j :| 0 <= j < |rows| && w1.watermark == rows[j].id;
      assert rows[j] == p[j] && p[j] in p;
      forall r | r in p[n..] ensures r.id > w1.watermark && r in p {
        var i :| 0 <= i < |p[n..]| && p[n..][i] == r;
        assert p[n + i] == r;
      }
    }
  }

  lemma {:induction false} TailDropStays(ledger: seq<Row>, w: World, b: Behavior, l: Limits, p: seq<Row>, k: nat,
          env: nat -> Attempt)
    requires k > 0 && !NoDrop(ledger, b, w) && Increasing(p) && forall r <- p :: r.id > w.watermark
    ensures !NoDrop(ledger, b, BatchTail(w, b, l, p, k, env))
    decreases |p|
  {
    if p != [] {
      var n := Width(k, p);
      var (os, w1) := Batch(w, b, l, p[..n], env);
      RestIsRead(ledger, w, b, l, p, n, env);
      DropStays(ledger, w, b, l, p[..n], env);
      hide Batch, Increasing, Dies;
      assert !NoDrop(ledger, b, Crash(w1));
      if AllConsumed(os) { TailDropStays(ledger, w1, b, l, p[n..], k, env); }
    }
  }

  // From any state in which nothing was dropped: a pass drops nothing exactly when none of its batches passes over a
  // row.
  lemma {:induction false} TailDropsExactly(ledger: seq<Row>, w: World, b: Behavior, l: Limits, p: seq<Row>, k: nat,
          env: nat -> Attempt)
    requires k > 0 && Increasing(ledger) && NoDrop(ledger, b, w) && IsRead(ledger, w, b, p)
    ensures NoDrop(ledger, b, BatchTail(w, b, l, p, k, env)) <==> !TailPassesOver(ledger, w, b, l, p, k, env)
    decreases |p|
  {
    if p != [] {
      var n := Width(k, p);
      var (os, w1) := Batch(w, b, l, p[..n], env);
      RestIsRead(ledger, w, b, l, p, n, env);
      BatchExact(ledger, w, b, l, p[..n], env);
      hide Batch, Increasing, Dies, PassesOver;
      assert NoDrop(ledger, b, Crash(w1)) <==> NoDrop(ledger, b, w1);
      if AllConsumed(os) {
        if NoDrop(ledger, b, w1) {
          TailDropsExactly(ledger, w1, b, l, p[n..], k, env);
        } else {
          TailDropStays(ledger, w1, b, l, p[n..], k, env);
        }
      }
    }
  }

  lemma {:induction false} TailWatermark(w: World, b: Behavior, l: Limits, p: seq<Row>, k: nat, env: nat -> Attempt)
    requires k > 0 && Increasing(p) && forall r <- p :: r.id > w.watermark
    ensures var w' := BatchTail(w, b, l, p, k, env);
            w'.watermark == w.watermark || exists r <- p :: r.id == w'.watermark
    decreases |p|
  {
    if p != [] {
      var n := Width(k, p);
      var (os, w1) := Batch(w, b, l, p[..n], env);
      RestIsRead([], w, b, l, p, n, env);
      hide Batch, Increasing, Dies;
      if AllConsumed(os) { TailWatermark(w1, b, l, p[n..], k, env); }
    }
  }

  // ---------------------------------------------------------------- runs

  // `read`: what the reads of a pass returned, in id order.
  datatype Step = Appends(row: Row) | Passes(read: seq<Row>, env: nat -> Attempt) | Crashes

  predicate Enabled(s: System, step: Step) {
    match step
    case Appends(row) => row.id > 0 && forall r <- s.ledger :: r.id < row.id
    case Passes(read, env) => Increasing(read) && forall r <- read :: r in s.ledger
    case Crashes => true
  }

  function Next(s: System, b: Behavior, l: Limits, k: nat, step: Step): System
    requires k > 0
  {
    match step
    case Appends(row) => s.(ledger := s.ledger + [row])
    case Passes(read, env) =>
      s.(world := BatchTail(s.world, b, l, Pending(read, b, s.world.watermark), k, env))
    case Crashes => s.(world := Crash(s.world))
  }

  predicate StepPassesOver(s: System, b: Behavior, l: Limits, k: nat, step: Step)
    requires k > 0
  {
    step.Passes?
    && TailPassesOver(s.ledger, s.world, b, l, Pending(step.read, b, s.world.watermark), k, step.env)
  }

  predicate RunEnabled(s: System, b: Behavior, l: Limits, k: nat, steps: seq<Step>)
    requires k > 0
    decreases |steps|
  {
    steps == [] || (Enabled(s, steps[0]) && RunEnabled(Next(s, b, l, k, steps[0]), b, l, k, steps[1..]))
  }

  function Run(s: System, b: Behavior, l: Limits, k: nat, steps: seq<Step>): System
    requires k > 0
    decreases |steps|
  {
    if steps == [] then s else Run(Next(s, b, l, k, steps[0]), b, l, k, steps[1..])
  }

  predicate RunPassesOver(s: System, b: Behavior, l: Limits, k: nat, steps: seq<Step>)
    requires k > 0
    decreases |steps|
  {
    steps != [] &&
    (StepPassesOver(s, b, l, k, steps[0]) || RunPassesOver(Next(s, b, l, k, steps[0]), b, l, k, steps[1..]))
  }

  // All of the one-in-flight invariant that holds here: the ledger grows in id order, past the watermark.
  predicate Grows(s: System) {
    && Increasing(s.ledger) && (forall r <- s.ledger :: r.id > 0)
    && (s.world.watermark == 0 || exists r <- s.ledger :: r.id == s.world.watermark)
  }

  lemma ReadIsRead(s: System, b: Behavior, read: seq<Row>)
    requires Increasing(read) && forall r <- read :: r in s.ledger
    ensures IsRead(s.ledger, s.world, b, Pending(read, b, s.world.watermark))
  {
    PendingIncreasing(read, b, s.world.watermark);
  }

  lemma AppendGrows(s: System, row: Row)
    requires Grows(s) && Enabled(s, Appends(row))
    ensures Grows(s.(ledger := s.ledger + [row])) && row.id > s.world.watermark
  {
    if s.world.watermark > 0 {
      var r :| r in s.ledger && r.id == s.world.watermark;
      assert r in s.ledger + [row];
    }
    IncreasingAppend(s.ledger, row);
    hide Increasing;
  }

  lemma NoDropOfMore(s: System, b: Behavior, row: Row)
    requires row.id > s.world.watermark
    ensures NoDrop(s.ledger + [row], b, s.world) <==> NoDrop(s.ledger, b, s.world)
  {
    hide Accounted;
    if NoDrop(s.ledger + [row], b, s.world) {
      assert forall r <- s.ledger :: r in s.ledger + [row];
    }
  }

  lemma StepGrows(s: System, b: Behavior, l: Limits, k: nat, step: Step)
    requires k > 0 && Grows(s) && Enabled(s, step)
    ensures Grows(Next(s, b, l, k, step))
  {
    match step {
      case Appends(row) => AppendGrows(s, row);
      case Passes(read, env) =>
        ReadIsRead(s, b, read);
        TailWatermark(s.world, b, l, Pending(read, b, s.world.watermark), k, env);
        hide BatchTail, Increasing;
      case Crashes =>
    }
  }

  // What a step does to the promise that nothing is dropped.
  lemma StepDropsExactly(s: System, b: Behavior, l: Limits, k: nat, step: Step)
    requires k > 0 && Grows(s) && Enabled(s, step)
    ensures var t := Next(s, b, l, k, step);
            NoDrop(t.ledger, b, t.world) <==> NoDrop(s.ledger, b, s.world) && !StepPassesOver(s, b, l, k, step)
  {
    match step {
      case Appends(row) =>
        AppendGrows(s, row);
        NoDropOfMore(s, b, row);
      case Passes(read, env) =>
        ReadIsRead(s, b, read);
        var p := Pending(read, b, s.world.watermark);
        if NoDrop(s.ledger, b, s.world) {
          TailDropsExactly(s.ledger, s.world, b, l, p, k, env);
        } else {
          TailDropStays(s.ledger, s.world, b, l, p, k, env);
        }
      case Crashes =>
    }
  }

  lemma {:induction false} RunDropsExactly(s: System, b: Behavior, l: Limits, k: nat, steps: seq<Step>)
    requires k > 0 && Grows(s) && RunEnabled(s, b, l, k, steps)
    ensures var t := Run(s, b, l, k, steps);
            && Grows(t)
            && (NoDrop(t.ledger, b, t.world) <==>
                NoDrop(s.ledger, b, s.world) && !RunPassesOver(s, b, l, k, steps))
    decreases |steps|
  {
    if steps != [] {
      StepGrows(s, b, l, k, steps[0]);
      StepDropsExactly(s, b, l, k, steps[0]);
      hide Grows, NoDrop, Next, StepPassesOver, Enabled;
      RunDropsExactly(Next(s, b, l, k, steps[0]), b, l, k, steps[1..]);
    }
  }

  // Over appends, passes with any number of rows in flight and any reads, and crashes: nothing is dropped so far
  // exactly when no batch so far has passed over a row.
  lemma BatchedRunsExact(b: Behavior, l: Limits, k: nat, steps: seq<Step>)
    requires k > 0 && RunEnabled(START, b, l, k, steps)
    ensures var t := Run(START, b, l, k, steps);
            NoDrop(t.ledger, b, t.world) <==> !RunPassesOver(START, b, l, k, steps)
  {
    RunDropsExactly(START, b, l, k, steps);
  }

  // ---------------------------------------------------------------- consistent reads

  // One of the batches of a pass has a gap.
  predicate TailGaps(w: World, b: Behavior, l: Limits, p: seq<Row>, k: nat, env: nat -> Attempt)
    requires k > 0
    decreases |p|
  {
    p != [] &&
    var rows := p[..Width(k, p)];
    var (os, w1) := Batch(w, b, l, rows, env);
    Gap(w, b, l, rows, env) || (AllConsumed(os) && TailGaps(w1, b, l, p[Width(k, p)..], k, env))
  }

  predicate RunGaps(s: System, b: Behavior, l: Limits, k: nat, steps: seq<Step>)
    requires k > 0
    decreases |steps|
  {
    steps != [] &&
    ((steps[0].Passes? && TailGaps(s.world, b, l, Pending(s.ledger, b, s.world.watermark), k, steps[0].env))
     || RunGaps(Next(s, b, l, k, steps[0]), b, l, k, steps[1..]))
  }

  // Every pass reads the ledger as it is.
  predicate ReadsAgree(s: System, b: Behavior, l: Limits, k: nat, steps: seq<Step>)
    requires k > 0
    decreases |steps|
  {
    steps == [] ||
    ((steps[0].Passes? ==> steps[0].read == s.ledger) && ReadsAgree(Next(s, b, l, k, steps[0]), b, l, k, steps[1..]))
  }

  // Past its first n rows, what is pending is the rest.
  lemma {:induction false} PendingRest(ledger: seq<Row>, b: Behavior, watermark: nat, n: nat)
    requires Increasing(ledger) && 0 < n <= |Pending(ledger, b, watermark)|
    ensures var p := Pending(ledger, b, watermark); Pending(ledger, b, p[n - 1].id) == p[n..]
    decreases n
  {
    var p := Pending(ledger, b, watermark);
    PendingTail(ledger, b, watermark);
    if n > 1 {
      assert p[1..][n - 2] == p[n - 1] && p[1..][n - 1..] == p[n..];
      PendingRest(ledger, b, p[0].id, n - 1);
    }
  }

  // A batch in which every row is consumed leaves the watermark at its last row.
  lemma ConsumedWatermark(w: World, b: Behavior, l: Limits, rows: seq<Row>, env: nat -> Attempt)
    requires rows != [] && Increasing(rows) && forall r <- rows :: r.id > w.watermark
    requires AllConsumed(Batch(w, b, l, rows, env).0)
    ensures Batch(w, b, l, rows, env).1.watermark == rows[|rows| - 1].id
  {
    BatchEach(w, b, l, rows, env, |rows| - 1);
    BatchWatermark(w, b, l, rows, env);
    var (os, w1) := Batch(w, b, l, rows, env);
    assert os[|rows| - 1] in os && rows[|rows| - 1] in rows;
    hide Batch, Consumes;
  }

  lemma {:induction false} TailOverIsGap(ledger: seq<Row>, w: World, b: Behavior, l: Limits, k: nat,
          env: nat -> Attempt)
    requires k > 0 && Increasing(ledger)
    ensures var p := Pending(ledger, b, w.watermark);
            && (TailPassesOver(ledger, w, b, l, p, k, env) <==> TailGaps(w, b, l, p, k, env))
            && (k == 1 ==> !TailGaps(w, b, l, p, k, env))
    decreases |Pending(ledger, b, w.watermark)|
  {
    var p := Pending(ledger, b, w.watermark);
    if p != [] {
      var n := Width(k, p);
      var (os, w1) := Batch(w, b, l, p[..n], env);
      FirstRows(ledger, b, w, n);
      OverIsGap(ledger, w, b, l, n, env);
      ShortNoGap(w, b, l, p[..n], env);
      if AllConsumed(os) {
        ConsumedWatermark(w, b, l, p[..n], env);
        PendingRest(ledger, b, w.watermark, n);
        hide Batch, PassesOver, Gap, Pending, Increasing;
        TailOverIsGap(ledger, w1, b, l, k, env);
      }
    }
  }

  lemma {:induction false} RunOverIsGap(s: System, b: Behavior, l: Limits, k: nat, steps: seq<Step>)
    requires k > 0 && Grows(s) && RunEnabled(s, b, l, k, steps) && ReadsAgree(s, b, l, k, steps)
    ensures RunPassesOver(s, b, l, k, steps) <==> RunGaps(s, b, l, k, steps)
    ensures k == 1 ==> !RunGaps(s, b, l, k, steps)
    decreases |steps|
  {
    if steps != [] {
      StepGrows(s, b, l, k, steps[0]);
      if steps[0].Passes? { TailOverIsGap(s.ledger, s.world, b, l, k, steps[0].env); }
      hide Next, TailPassesOver, TailGaps, Enabled;
      RunOverIsGap(Next(s, b, l, k, steps[0]), b, l, k, steps[1..]);
    }
  }

  // When reads agree: in every state of a run nothing is dropped exactly when no batch had a gap; and with one row in
  // flight none has.
  lemma GapsDropExactly(b: Behavior, l: Limits, k: nat, steps: seq<Step>)
    requires k > 0 && RunEnabled(START, b, l, k, steps) && ReadsAgree(START, b, l, k, steps)
    ensures (forall i :: 0 <= i <= |steps| ==>
               var t := Run(START, b, l, k, steps[..i]); NoDrop(t.ledger, b, t.world))
            <==> !RunGaps(START, b, l, k, steps)
    ensures k == 1 ==> !RunGaps(START, b, l, k, steps)
  {
    RunOverIsGap(START, b, l, k, steps);
    RunDropsExactly(START, b, l, k, steps);
    assert steps[..|steps|] == steps;
    if !RunGaps(START, b, l, k, steps) {
      forall i | 0 <= i <= |steps|
        ensures var t := Run(START, b, l, k, steps[..i]); NoDrop(t.ledger, b, t.world)
      {
        PrefixEnabled(START, b, l, k, steps, i);
        RunDropsExactly(START, b, l, k, steps[..i]);
      }
    }
  }

  lemma {:induction false} PrefixEnabled(s: System, b: Behavior, l: Limits, k: nat, steps: seq<Step>, i: nat)
    requires k > 0 && RunEnabled(s, b, l, k, steps) && i <= |steps|
    ensures RunEnabled(s, b, l, k, steps[..i])
    ensures RunPassesOver(s, b, l, k, steps[..i]) ==> RunPassesOver(s, b, l, k, steps)
    decreases i
  {
    if i > 0 {
      hide Next, StepPassesOver, Enabled;
      assert steps[..i][1..] == steps[1..][..i - 1];
      PrefixEnabled(Next(s, b, l, k, steps[0]), b, l, k, steps[1..], i - 1);
    }
  }

  // ---------------------------------------------------------------- one row in flight

  // With one row in flight the batches are the strictly ordered pass.
  lemma {:induction false} OneInFlight(w: World, b: Behavior, l: Limits, p: seq<Row>, env: nat -> Attempt)
    ensures BatchTail(w, b, l, p, 1, env) == Tail(w, b, l, p, env)
    decreases |p|
  {
    if p != [] {
      var a := env(p[0].id);
      var (o, w1) := InBatch(w, b, l, p[0], a);
      assert p[..1] == [p[0]] && [p[0]][1..] == [];
      assert Batch(w, b, l, p[..1], env) == ([o], w1) by {
        assert Batch(w1, b, l, [], env) == ([], w1) && [o] + [] == [o];
      }
      AttemptDies(w, b, l, p[0], a);
      hide InBatch, ConsumeOne, Dies, Batch;
      if o.Consumed? { OneInFlight(w1, b, l, p[1..], env); }
    }
  }

  lemma AttemptDies(w: World, b: Behavior, l: Limits, row: Row, a: Attempt)
    ensures var (o, w1) := InBatch(w, b, l, row, a);
            var (o2, w2) := ConsumeOne(w, b, l, row, a);
            && o == o2 && (Dies(w, b, l, row, a) ==> o.Aborted?)
            && w2 == if Dies(w, b, l, row, a) then Crash(w1) else w1
  {
    hide Backoff;
  }

  // So are its runs, when the reads of a pass return the whole ledger.
  lemma OneInFlightSteps(s: System, b: Behavior, l: Limits, row: Row, env: nat -> Attempt)
    ensures Enabled(s, Appends(row)) == Reactive.Enabled(s, Append(row))
    ensures Enabled(s, Crashes) && (Increasing(s.ledger) ==> Enabled(s, Passes(s.ledger, env)))
    ensures Next(s, b, l, 1, Appends(row)) == Reactive.Next(s, b, l, Append(row))
    ensures Next(s, b, l, 1, Crashes) == Reactive.Next(s, b, l, CrashStep)
    ensures Next(s, b, l, 1, Passes(s.ledger, env)) == Reactive.Next(s, b, l, RunPass(env))
  {
    OneInFlight(s.world, b, l, Pending(s.ledger, b, s.world.watermark), env);
    hide BatchTail, Tail, Pending;
  }
}
