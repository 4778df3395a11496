/** Retries, dead letters and crashes of src/events/reactive.ts, one row at a time. */
module ReactiveRetries {
  import opened Text
  import opened CappedBackoff
  import opened Reactive
  import opened ReactiveFilter

  // An attempt at a row is put off: nothing happens.
  predicate PutOff(w: World, b: Behavior, l: Limits, row: Row, a: Attempt) {
    ConsumeOne(w, b, l, row, a) == (Blocked, w)
  }

  // An attempt at a row runs its reaction.
  predicate Reacts(w: World, b: Behavior, l: Limits, row: Row, a: Attempt) {
    ConsumeOne(w, b, l, row, a).1.reactions == w.reactions + multiset{row.id}
  }

  // The reaction is rejected, or recording the row as consumed after it.
  predicate Rejects(a: Attempt) {
    a.react.Rejected? || ((a.react.Handled? || a.react.Ignored?) && a.consume.Failed?)
  }

  function ReactedAfter(w: World, id: nat, a: Attempt): set<nat> {
    if a.react.Rejected? then w.reacted else w.reacted + {id}
  }

  // A row that is meant and that nothing keeps back is tried at once.
  lemma UntriedReacts(w: World, b: Behavior, l: Limits, row: Row, a: Attempt)
    requires Meant(b, row) && row.id !in w.gates
    ensures Reacts(w, b, l, row, a)
  {
  }

  // A rejection before the last attempt: the row waits for the base delay times one factor two for each attempt
  // before, or for the cap where that is less. Until then it is put off, and from then on it is tried again.
  lemma RejectionWaits(w: World, b: Behavior, l: Limits, row: Row, a: Attempt, next: Attempt)
    requires Meant(b, row) && Reacts(w, b, l, row, a) && Rejects(a)
    requires Attempts(w, row.id) + 1 < l.maxAttempts
    ensures var k := Attempts(w, row.id);
            var full := l.backoffMs * Product(seq(k, _ => 2));
            var wait := if full <= l.maxBackoffMs then full else l.maxBackoffMs;
            var (o, w') := ConsumeOne(w, b, l, row, a);
            && o.Blocked? && Attempts(w', row.id) == k + 1
            && w'.watermark == w.watermark && w'.delivered == w.delivered && w'.dead == w.dead
            && w'.reacted == ReactedAfter(w, row.id, a)
            && (if next.now < a.later + wait then PutOff(w', b, l, row, next) else Reacts(w', b, l, row, next))
  {
    DelayExact(l.backoffMs, l.maxBackoffMs, Attempts(w, row.id) + 1);
    hide Delay, Product;
  }

  // On the last attempt it becomes a dead letter and is consumed, with nothing left to wait for.
  lemma LastRejection(w: World, b: Behavior, l: Limits, row: Row, a: Attempt)
    requires Meant(b, row) && Reacts(w, b, l, row, a) && Rejects(a) && row.id > w.watermark
    requires Attempts(w, row.id) + 1 >= l.maxAttempts && a.deadLetter.Stored? && a.consumeDead.Stored?
    ensures var (o, w') := ConsumeOne(w, b, l, row, a);
            && o.Consumed? && w'.dead == w.dead + {row.id} && w'.watermark == row.id
            && w'.delivered == w.delivered + [row.id] && Attempts(w', row.id) == 0
            && w'.reacted == ReactedAfter(w, row.id, a)
  {
  }

  // A reaction that resolves, handled or not, consumes the row.
  lemma ReactionConsumes(w: World, b: Behavior, l: Limits, row: Row, a: Attempt)
    requires Meant(b, row) && Reacts(w, b, l, row, a) && row.id > w.watermark
    requires (a.react.Handled? || a.react.Ignored?) && a.consume.Stored?
    ensures var (o, w') := ConsumeOne(w, b, l, row, a);
            && o.Consumed? && w'.watermark == row.id && w'.delivered == w.delivered + [row.id]
            && w'.reacted == w.reacted + {row.id} && w'.dead == w.dead && Attempts(w', row.id) == 0
  {
  }

  // A row that is not meant is consumed unseen.
  lemma OthersConsumed(w: World, b: Behavior, l: Limits, row: Row, a: Attempt)
    requires row.event in b.events && !Meant(b, row) && row.id > w.watermark && a.consume.Stored?
    ensures ConsumeOne(w, b, l, row, a) == (Consumed, w.(watermark := row.id, delivered := w.delivered + [row.id]))
  {
  }

  // A process that dies forgets what it waited for and keeps what it stored.
  lemma DeathForgets(w: World, b: Behavior, l: Limits, row: Row, a: Attempt)
    requires Meant(b, row) && Reacts(w, b, l, row, a)
    requires a.react.DiedReacting? || (!a.react.Rejected? && a.consume.Died?)
    ensures var (o, w') := ConsumeOne(w, b, l, row, a);
            && o.Aborted? && w'.gates == map[] && Crash(w').gates == map[] && w'.watermark == w.watermark
            && w'.dead == w.dead && w'.delivered == w.delivered
            && forall later: Attempt, r: Row :: Meant(b, r) ==> Reacts(Crash(w), b, l, r, later)
  {
    hide Backoff;
  }

  // The stored watermark never goes back.
  lemma ConsumeKeepsMax(w: World, id: nat)
    ensures var t := Consume(w, id).watermark; t >= w.watermark && t >= id && (t == w.watermark || t == id)
  {
  }

  // ---------------------------------------------------------------- the steps of a run

  // The rows that some steps append.
  function Appended(steps: seq<Step>): seq<Row> {
    if steps == [] then []
    else (if steps[0].Append? then [steps[0].row] else []) + Appended(steps[1..])
  }

  // The ledger holds what was appended, in order, and nothing else.
  lemma {:induction false} LedgerExact(s: System, b: Behavior, l: Limits, steps: seq<Step>)
    ensures Run(s, b, l, steps).ledger == s.ledger + Appended(steps)
    decreases |steps|
  {
    hide Pass, Crash;
    if steps != [] { LedgerExact(Next(s, b, l, steps[0]), b, l, steps[1..]); }
  }

  // A run goes on with exactly the steps that are enabled where it has come to, and then comes to what the step does.
  lemma {:induction false} RunsOn(s: System, b: Behavior, l: Limits, steps: seq<Step>, step: Step)
    ensures RunEnabled(s, b, l, []) && Run(s, b, l, []) == s
    ensures var t := Run(s, b, l, steps);
            && (RunEnabled(s, b, l, steps + [step]) <==> RunEnabled(s, b, l, steps) && Enabled(t, step))
            && Run(s, b, l, steps + [step]) == Next(t, b, l, step)
    decreases |steps|
  {
    hide Enabled, Next;
    if steps == [] {
      assert steps + [step] == [step] && [step][1..] == [];
    } else {
      assert (steps + [step])[1..] == steps[1..] + [step];
      RunsOn(Next(s, b, l, steps[0]), b, l, steps[1..], step);
    }
  }

  // A crash forgets what the process waited for and keeps what it stored.
  lemma CrashExact(s: System, b: Behavior, l: Limits)
    ensures var t := Next(s, b, l, CrashStep);
            && t.ledger == s.ledger && t.world.gates == map[] && t.world.(gates := s.world.gates) == s.world
  {
  }

  // Every reaction resolves, every write is stored, and nothing is kept back.
  ghost predicate Smooth(w: World, env: nat -> Attempt) {
    && (forall id: nat :: (env(id).react.Handled? || env(id).react.Ignored?) && env(id).consume.Stored?)
    && forall id <- w.gates :: w.gates[id].nextAttemptAt <= env(id).now
  }

  // A smooth pass consumes every row of its events, and has reacted to every row that is meant.
  lemma SmoothPass(s: System, b: Behavior, l: Limits, env: nat -> Attempt)
    requires Smooth(s.world, env)
    ensures var t := Next(s, b, l, RunPass(env));
            && t.ledger == s.ledger && t.world.dead == s.world.dead
            && forall r <- s.ledger :: r.event in b.events ==>
                 && r.id <= t.world.watermark
                 && (Meant(b, r) && r.id > s.world.watermark ==> r.id in t.world.reacted)
  {
    var p := Pending(s.ledger, b, s.world.watermark);
    SmoothTail(s.world, b, l, p, env);
    hide Smooth, Tail, Meant;
    forall r <- s.ledger | r.event in b.events && r.id > s.world.watermark ensures r in p {
      PendingHas(s.ledger, b, s.world.watermark, r);
    }
  }

  lemma {:induction false} PendingHas(rows: seq<Row>, b: Behavior, n: nat, r: Row)
    requires r in rows && r.event in b.events && r.id > n
    ensures r in Pending(rows, b, n)
    decreases |rows|
  {
    if r != rows[0] { PendingHas(rows[1..], b, n, r); }
  }

  lemma {:induction false} SmoothTail(w: World, b: Behavior, l: Limits, p: seq<Row>, env: nat -> Attempt)
    requires Smooth(w, env) && forall r <- p :: r.event in b.events
    ensures var t := Tail(w, b, l, p, env);
            && t.watermark >= w.watermark && w.reacted <= t.reacted && t.dead == w.dead
            && forall r <- p :: r.id <= t.watermark && (Meant(b, r) ==> r.id in t.reacted)
    decreases |p|
  {
    if p != [] {
      SmoothOne(w, b, l, p[0], env);
      hide ConsumeOne, Meant, Smooth;
      SmoothTail(ConsumeOne(w, b, l, p[0], env(p[0].id)).1, b, l, p[1..], env);
    }
  }

  lemma SmoothOne(w: World, b: Behavior, l: Limits, r: Row, env: nat -> Attempt)
    requires Smooth(w, env) && r.event in b.events
    ensures var (o, t) := ConsumeOne(w, b, l, r, env(r.id));
            && o.Consumed? && Smooth(t, env) && t.watermark >= w.watermark && t.watermark >= r.id
            && w.reacted <= t.reacted && t.dead == w.dead && (Meant(b, r) ==> r.id in t.reacted)
  {
    hide Fail;
  }
}
