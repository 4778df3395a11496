/** Where the no-drop guarantee of src/events/reactive.ts ends: rows in flight together, and reads that disagree. */
module ReactiveBatches {
  import opened Reactive
  import opened ReactiveProgress

  // ---------------------------------------------------------------- batches

  // With more than one row in flight every row of a batch is attempted on the gates the batch found, whatever becomes
  // of the others; a row changes no gate but its own. When the process dies in the batch the gates are lost on top of
  // this.
  function Batch(w: World, b: Behavior, l: Limits, rows: seq<Row>, env: nat -> Attempt): (seq<Outcome>, World)
    decreases |rows|
  {
    if rows == [] then ([], w)
    else
      var (o, w1) := InBatch(w, b, l, rows[0], env(rows[0].id));
      var (os, w2) := Batch(w1, b, l, rows[1..], env);
      ([o] + os, w2)
  }

  function InBatch(w: World, b: Behavior, l: Limits, row: Row, a: Attempt): (Outcome, World) {
    var (o, w1) := ConsumeOne(w, b, l, row, a);
    (o, if o.Aborted? then w1.(gates := w.gates) else w1)
  }

  predicate LastAttempt(w: World, l: Limits, id: nat) {
    Attempts(w, id) + 1 >= l.maxAttempts
  }

  // The reaction, or the consume after it, is rejected.
  predicate Fails(a: Attempt) {
    a.react.Rejected? || (a.react != DiedReacting && a.consume.Failed?)
  }

  // Told before the call: the attempt will consume the row.
  predicate Consumes(w: World, b: Behavior, l: Limits, row: Row, a: Attempt) {
    if FilteredOut(b, row) then a.consume.Stored?
    else
      && !BackingOff(w, row.id, a)
      && (((a.react.Handled? || a.react.Ignored?) && a.consume.Stored?)
          || (Fails(a) && LastAttempt(w, l, row.id) && a.deadLetter.Stored? && a.consumeDead.Stored?))
  }

  // Told before the call: the attempt will leave the row as if it had not been seen. It backs off, dies reacting, or is
  // rejected before its last attempt or with no dead letter written.
  predicate Stranded(w: World, b: Behavior, l: Limits, row: Row, a: Attempt) {
    && !Accounted(row, b, w)
    && (BackingOff(w, row.id, a) || a.react.DiedReacting?
        || (a.react.Rejected? && !(LastAttempt(w, l, row.id) && a.deadLetter.Stored?)))
  }

  // Of what bears on one id, two worlds hold the same.
  predicate SameAt(w: World, w': World, id: nat) {
    && (id in w.gates <==> id in w'.gates) && (id in w.gates ==> w'.gates[id] == w.gates[id])
    && (id in w.reacted <==> id in w'.reacted) && (id in w.dead <==> id in w'.dead)
  }

  lemma AttemptExact(w: World, b: Behavior, l: Limits, row: Row, a: Attempt)
    requires row.id > w.watermark
    ensures var (o, w') := InBatch(w, b, l, row, a);
            && (o.Consumed? <==> Consumes(w, b, l, row, a))
            && (Accounted(row, b, w') <==> !Stranded(w, b, l, row, a))
            && w'.watermark == (if o.Consumed? then row.id else w.watermark)
            && forall id: nat :: id != row.id ==> SameAt(w, w', id)
  {
    hide Backoff;
    if FilteredOut(b, row) || BackingOff(w, row.id, a) {
    } else {
      match a.react {
        case DiedReacting =>
        case Rejected =>
        case _ =>
      }
    }
  }

  lemma SameFate(w: World, w': World, b: Behavior, l: Limits, row: Row, a: Attempt)
    requires SameAt(w, w', row.id)
    ensures Consumes(w, b, l, row, a) <==> Consumes(w', b, l, row, a)
    ensures Stranded(w, b, l, row, a) <==> Stranded(w', b, l, row, a)
  {
    hide FilteredOut;
  }

  // The batch without its first row.
  lemma BatchRest(w: World, b: Behavior, l: Limits, rows: seq<Row>, env: nat -> Attempt) returns (w1: World)
    requires rows != [] && Increasing(rows) && forall r <- rows :: r.id > w.watermark
    ensures var (o, w2) := InBatch(w, b, l, rows[0], env(rows[0].id));
            && w1 == w2 && (o.Consumed? <==> Consumes(w, b, l, rows[0], env(rows[0].id)))
            && w1.watermark == (if o.Consumed? then rows[0].id else w.watermark)
    ensures Accounted(rows[0], b, w1) <==> !Stranded(w, b, l, rows[0], env(rows[0].id))
    ensures forall id: nat :: id != rows[0].id ==> SameAt(w, w1, id)
    ensures Increasing(rows[1..]) && forall r <- rows[1..] :: r.id > w1.watermark && r.id != rows[0].id && r in rows
    ensures forall r <- rows[1..] ::
              && (Consumes(w, b, l, r, env(r.id)) <==> Consumes(w1, b, l, r, env(r.id)))
              && (Stranded(w, b, l, r, env(r.id)) <==> Stranded(w1, b, l, r, env(r.id)))
  {
    assert rows[0] in rows;
    AttemptExact(w, b, l, rows[0], env(rows[0].id));
    w1 := InBatch(w, b, l, rows[0], env(rows[0].id)).1;
    hide InBatch, Consumes, Stranded, SameAt, Accounted;
    RestFate(w, w1, b, l, rows, env);
  }

  lemma {:induction false} BatchOthers(w: World, b: Behavior, l: Limits, rows: seq<Row>, env: nat -> Attempt, id: nat)
    requires Increasing(rows) && (forall r <- rows :: r.id > w.watermark) && forall r <- rows :: r.id != id
    ensures SameAt(w, Batch(w, b, l, rows, env).1, id)
    decreases |rows|
  {
    if rows != [] {
      assert rows[0] in rows;
      var w1 := BatchRest(w, b, l, rows, env);
      hide InBatch, Consumes, Stranded, Accounted, SameAt, Increasing;
      BatchOthers(w1, b, l, rows[1..], env, id);
      SameAtTwice(w, w1, Batch(w1, b, l, rows[1..], env).1, id);
    } else {
      assert SameAt(w, w, id);
    }
  }

  lemma SameAtTwice(w: World, w1: World, w2: World, id: nat)
    requires SameAt(w, w1, id) && SameAt(w1, w2, id)
    ensures SameAt(w, w2, id)
  {
  }

  // What a batch does to each of its rows is what the row's own attempt does to it alone.
  lemma {:induction false} BatchEach(w: World, b: Behavior, l: Limits, rows: seq<Row>, env: nat -> Attempt, i: nat)
    requires Increasing(rows) && (forall r <- rows :: r.id > w.watermark) && i < |rows|
    ensures var (os, w') := Batch(w, b, l, rows, env);
            && |os| == |rows| && (os[i].Consumed? <==> Consumes(w, b, l, rows[i], env(rows[i].id)))
            && (Accounted(rows[i], b, w') <==> !Stranded(w, b, l, rows[i], env(rows[i].id)))
            && (os[i].Consumed? ==> rows[i].id <= w'.watermark)
    decreases |rows|
  {
    var w1 := BatchRest(w, b, l, rows, env);
    hide InBatch, Consumes, Stranded, FilteredOut;
    BatchWatermark(w1, b, l, rows[1..], env);
    if i > 0 {
      assert rows[1..][i - 1] == rows[i] && rows[i] in rows[1..];
      BatchEach(w1, b, l, rows[1..], env, i - 1);
    } else {
      BatchOthers(w1, b, l, rows[1..], env, rows[0].id);
    }
  }

  // The watermark a batch leaves is the old one or that of a row it consumed.
  lemma {:induction false} BatchWatermark(w: World, b: Behavior, l: Limits, rows: seq<Row>, env: nat -> Attempt)
    requires Increasing(rows) && forall r <- rows :: r.id > w.watermark
    ensures var (os, w') := Batch(w, b, l, rows, env);
            && |os| == |rows| && w'.watermark >= w.watermark
            && (w'.watermark == w.watermark
                || exists j :: 0 <= j < |rows| && Consumes(w, b, l, rows[j], env(rows[j].id)) &&
                    w'.watermark == rows[j].id)
    decreases |rows|
  {
    if rows != [] {
      var w1 := BatchRest(w, b, l, rows, env);
      hide InBatch, Consumes, Stranded, FilteredOut, SameAt, Accounted;
      var rest := rows[1..];
      BatchWatermark(w1, b, l, rest, env);
      var w' := Batch(w1, b, l, rest, env).1;
      assert rows[0] in rows;
      if w'.watermark != w1.watermark {
        var j :| 0 <= j < |rest| && Consumes(w1, b, l, rest[j], env(rest[j].id)) && w'.watermark == rest[j].id;
        assert rest[j] in rest && rows[j + 1] == rest[j];
      }
    }
  }

  lemma RestFate(w: World, w1: World, b: Behavior, l: Limits, rows: seq<Row>, env: nat -> Attempt)
    requires rows != [] && Increasing(rows) && (forall r <- rows :: r.id > w.watermark)
    requires w1.watermark == rows[0].id || w1.watermark == w.watermark
    requires forall id: nat :: id != rows[0].id ==> SameAt(w, w1, id)
    ensures Increasing(rows[1..]) && forall r <- rows[1..] :: r.id > w1.watermark && r.id != rows[0].id && r in rows
    ensures forall r <- rows[1..] ::
              && (Consumes(w, b, l, r, env(r.id)) <==> Consumes(w1, b, l, r, env(r.id)))
              && (Stranded(w, b, l, r, env(r.id)) <==> Stranded(w1, b, l, r, env(r.id)))
  {
    hide Consumes, Stranded;
    forall r | r in rows[1..]
      ensures r.id > w1.watermark && r.id != rows[0].id && r in rows
      ensures Consumes(w, b, l, r, env(r.id)) <==> Consumes(w1, b, l, r, env(r.id))
      ensures Stranded(w, b, l, r, env(r.id)) <==> Stranded(w1, b, l, r, env(r.id))
    {
      LaterRow(rows, r);
      SameFate(w, w1, b, l, r, env(r.id));
    }
  }

  // What the batch leaves of a ledger row: one in the batch fares as its attempt says, any other stays as it is.
  predicate LeavesOut(w: World, b: Behavior, l: Limits, rows: seq<Row>, env: nat -> Attempt, r: Row) {
    if r in rows then Stranded(w, b, l, r, env(r.id)) else !Accounted(r, b, w)
  }

  // Told before the call: the batch will consume a row past one that it leaves unaccounted.
  predicate PassesOver(ledger: seq<Row>, w: World, b: Behavior, l: Limits, rows: seq<Row>, env: nat -> Attempt) {
    exists r <- ledger, j | 0 <= j < |rows| ::
      && r.event in b.events && w.watermark < r.id <= rows[j].id
      && LeavesOut(w, b, l, rows, env, r) && Consumes(w, b, l, rows[j], env(rows[j].id))
  }

  // Rows that reads of the ledger can have returned, past the watermark and in id order.
  predicate IsRead(ledger: seq<Row>, w: World, b: Behavior, rows: seq<Row>) {
    Increasing(rows) && forall r <- rows :: r in ledger && r.event in b.events && r.id > w.watermark
  }

  lemma LeavesOutExact(ledger: seq<Row>, w: World, b: Behavior, l: Limits, rows: seq<Row>, env: nat -> Attempt, r: Row)
    requires Increasing(ledger) && IsRead(ledger, w, b, rows) && r in ledger
    ensures Accounted(r, b, Batch(w, b, l, rows, env).1) <==> !LeavesOut(w, b, l, rows, env, r)
  {
    hide Batch, Stranded;
    if r in rows {
      var i :| 0 <= i < |rows| && rows[i] == r;
      BatchEach(w, b, l, rows, env, i);
    } else {
      SameRow(ledger, rows, r);
      BatchOthers(w, b, l, rows, env, r.id);
    }
  }

  // From any state in which nothing was dropped: a batch of any rows read drops nothing if and only if it passes over
  // none, however the reads disagreed.
  lemma BatchExact(ledger: seq<Row>, w: World, b: Behavior, l: Limits, rows: seq<Row>, env: nat -> Attempt)
    requires Increasing(ledger) && NoDrop(ledger, b, w) && IsRead(ledger, w, b, rows)
    ensures NoDrop(ledger, b, Batch(w, b, l, rows, env).1) <==> !PassesOver(ledger, w, b, l, rows, env)
  {
    var w' := Batch(w, b, l, rows, env).1;
    forall r <- ledger ensures Accounted(r, b, w') <==> !LeavesOut(w, b, l, rows, env, r) {
      LeavesOutExact(ledger, w, b, l, rows, env, r);
    }
    BatchWatermark(w, b, l, rows, env);
    if PassesOver(ledger, w, b, l, rows, env) {
      hide Accounted, Consumes, LeavesOut, Batch, Increasing;
      var r, j :| r in ledger && 0 <= j < |rows| && r.event in b.events && w.watermark < r.id <= rows[j].id
                  && LeavesOut(w, b, l, rows, env, r) && Consumes(w, b, l, rows[j], env(rows[j].id));
      BatchEach(w, b, l, rows, env, j);
      assert r.id <= w'.watermark;
    } else {
      hide Consumes, Stranded, Batch, Increasing;
      forall r | r in ledger && r.event in b.events && r.id <= w'.watermark ensures Accounted(r, b, w') {
        if r.id <= w.watermark { assert r !in rows && Accounted(r, b, w); }
      }
    }
  }

  // A row that will be stranded comes before one that will be consumed.
  predicate Gap(w: World, b: Behavior, l: Limits, rows: seq<Row>, env: nat -> Attempt) {
    exists i, j :: 0 <= i < j < |rows| && Stranded(w, b, l, rows[i], env(rows[i].id)) &&
        Consumes(w, b, l, rows[j], env(rows[j].id))
  }

  // A batch that starts with the first k pending rows drops a row exactly when there is such a gap, told from the gates
  // and the attempts before it runs. With one row in flight there is none.
  lemma BatchDropsExactly(s: System, b: Behavior, l: Limits, k: nat, env: nat -> Attempt)
    requires Increasing(s.ledger) && NoDrop(s.ledger, b, s.world)
    requires k <= |Pending(s.ledger, b, s.world.watermark)|
    ensures var rows := Pending(s.ledger, b, s.world.watermark)[..k];
            && (NoDrop(s.ledger, b, Batch(s.world, b, l, rows, env).1) <==> !Gap(s.world, b, l, rows, env))
            && (k <= 1 ==> !Gap(s.world, b, l, rows, env))
  {
    var rows := Pending(s.ledger, b, s.world.watermark)[..k];
    PendingIncreasing(s.ledger, b, s.world.watermark);
    FirstRows(s.ledger, b, s.world, k);
    hide Batch, Gap, PassesOver, NoDrop;
    BatchExact(s.ledger, s.world, b, l, rows, env);
    OverIsGap(s.ledger, s.world, b, l, k, env);
    assert k <= 1 ==> !Gap(s.world, b, l, rows, env) by { ShortNoGap(s.world, b, l, rows, env); }
  }

  lemma ShortNoGap(w: World, b: Behavior, l: Limits, rows: seq<Row>, env: nat -> Attempt)
    ensures |rows| <= 1 ==> !Gap(w, b, l, rows, env)
  {
  }

  lemma FirstRows(ledger: seq<Row>, b: Behavior, w: World, k: nat)
    requires Increasing(ledger) && k <= |Pending(ledger, b, w.watermark)|
    ensures IsRead(ledger, w, b, Pending(ledger, b, w.watermark)[..k])
  {
    var p := Pending(ledger, b, w.watermark);
    PendingIncreasing(ledger, b, w.watermark);
    assert forall r <- p[..k] :: r in p;
  }

  // The first pending rows pass over a row exactly when they have a gap: no matching row lies between them.
  lemma OverIsGap(ledger: seq<Row>, w: World, b: Behavior, l: Limits, k: nat, env: nat -> Attempt)
    requires Increasing(ledger) && k <= |Pending(ledger, b, w.watermark)|
    ensures var rows := Pending(ledger, b, w.watermark)[..k];
            PassesOver(ledger, w, b, l, rows, env) <==> Gap(w, b, l, rows, env)
  {
    var p := Pending(ledger, b, w.watermark);
    var rows := p[..k];
    PendingIncreasing(ledger, b, w.watermark);
    hide Consumes, Stranded, Accounted;
    if PassesOver(ledger, w, b, l, rows, env) {
      var r, j :| r in ledger && 0 <= j < |rows| && r.event in b.events && w.watermark < r.id <= rows[j].id
                  && LeavesOut(w, b, l, rows, env, r) && Consumes(w, b, l, rows[j], env(rows[j].id));
      PendingHas(ledger, b, w.watermark, r);
      hide Pending, PassesOver, Gap;
      OverGivesGap(w, b, l, p, k, env, r, j);
    } else if Gap(w, b, l, rows, env) {
      hide Pending, Increasing;
      GapGivesOver(ledger, w, b, l, p, k, env);
    }
  }

  lemma OverGivesGap(w: World, b: Behavior, l: Limits, p: seq<Row>, k: nat, env: nat -> Attempt, r: Row, j: nat)
    requires Increasing(p) && j < k <= |p| && r in p && r.id <= p[j].id
    requires LeavesOut(w, b, l, p[..k], env, r) && Consumes(w, b, l, p[j], env(p[j].id))
    ensures Gap(w, b, l, p[..k], env)
  {
    var rows := p[..k];
    var i := PlaceUpTo(p, j, r);
    assert rows[i] == r && rows[j] == p[j];
    ConsumedNotStranded(w, b, l, rows[j], env(rows[j].id));
    hide Consumes, Stranded, Accounted;
  }

  lemma GapGivesOver(ledger: seq<Row>, w: World, b: Behavior, l: Limits, p: seq<Row>, k: nat, env: nat -> Attempt)
    requires Increasing(p) && k <= |p| && forall r <- p :: r in ledger && r.event in b.events && r.id > w.watermark
    requires Gap(w, b, l, p[..k], env)
    ensures PassesOver(ledger, w, b, l, p[..k], env)
  {
    var rows := p[..k];
    hide Consumes, Stranded, Accounted;
    var i, j :| 0 <= i < j < |rows| && Stranded(w, b, l, rows[i], env(rows[i].id)) &&
        Consumes(w, b, l, rows[j], env(rows[j].id));
    assert rows[i] in rows && rows[i] == p[i] && p[i] in p && rows[j] == p[j];
    assert LeavesOut(w, b, l, rows, env, rows[i]);
  }

  lemma ConsumedNotStranded(w: World, b: Behavior, l: Limits, row: Row, a: Attempt)
    requires Consumes(w, b, l, row, a)
    ensures !Stranded(w, b, l, row, a)
  {
  }

  lemma PlaceUpTo(p: seq<Row>, j: nat, r: Row) returns (i: nat)
    requires Increasing(p) && j < |p| && r in p && r.id <= p[j].id
    ensures i <= j && p[i] == r
  {
    i :| 0 <= i < |p| && p[i] == r;
  }

  lemma {:induction false} PendingHas(rows: seq<Row>, b: Behavior, n: nat, r: Row)
    requires r in rows && r.id > n && r.event in b.events
    ensures r in Pending(rows, b, n)
    decreases |rows|
  {
    if rows[0] != r { PendingHas(rows[1..], b, n, r); }
  }

  // Two rows in flight, the first rejected and the second handled: the first is never read again.
  lemma BatchDrops(b: Behavior, l: Limits, first: Row, second: Row, env: nat -> Attempt)
    requires 0 < first.id < second.id && first.event in b.events && second.event in b.events && b.spaceFilter.None?
    requires l.maxAttempts > 1 && env(first.id).react.Rejected?
    requires env(second.id).react.Handled? && env(second.id).consume.Stored?
    ensures var w' := Batch(START.world, b, l, [first, second], env).1;
            && !Accounted(first, b, w')
            && Pending([first, second], b, w'.watermark) == []
  {
    var (o1, w1) := ConsumeOne(START.world, b, l, first, env(first.id));
    assert o1.Blocked? && [first, second][1..] == [second];
    var (o2, w2) := ConsumeOne(w1, b, l, second, env(second.id));
    assert [second][1..] == [];
    assert Batch(w1, b, l, [second], env).1 == w2 && w2.watermark == second.id;
    assert Pending([second], b, second.id) == Pending([], b, second.id);
  }

  // ---------------------------------------------------------------- the reads must agree

  // How many leading rows a pass will consume.
  function Leading(w: World, b: Behavior, l: Limits, p: seq<Row>, env: nat -> Attempt): (n: nat)
    ensures n <= |p|
    decreases |p|
  {
    if p == [] || !Consumes(w, b, l, p[0], env(p[0].id)) then 0 else 1 + Leading(w, b, l, p[1..], env)
  }

  lemma {:induction false} LeadingSame(w: World, w1: World, b: Behavior, l: Limits, p: seq<Row>, env: nat -> Attempt)
    requires forall r <- p :: Consumes(w, b, l, r, env(r.id)) <==> Consumes(w1, b, l, r, env(r.id))
    ensures Leading(w, b, l, p, env) == Leading(w1, b, l, p, env)
    decreases |p|
  {
    hide Consumes;
    if p != [] {
      assert p[0] in p;
      LeadingSame(w, w1, b, l, p[1..], env);
    }
  }

  // Another row is accounted for in one world as in the other.
  ghost predicate SameOthers(w: World, w': World, b: Behavior, p: seq<Row>) {
    forall r: Row :: (forall q <- p :: q.id != r.id) ==> (Accounted(r, b, w) <==> Accounted(r, b, w'))
  }

  // A pass consumes its leading rows and accounts for them; of other rows it changes nothing.
  lemma {:induction false} TailExact(w: World, b: Behavior, l: Limits, p: seq<Row>, env: nat -> Attempt)
    requires Increasing(p) && forall r <- p :: r.id > w.watermark
    ensures var n, w' := Leading(w, b, l, p, env), Tail(w, b, l, p, env);
            && w'.watermark == (if n == 0 then w.watermark else p[n - 1].id)
            && (forall i :: 0 <= i < n ==> Accounted(p[i], b, w'))
            && SameOthers(w, w', b, p)
    decreases |p|
  {
    if p != [] {
      var w1 := BatchRest(w, b, l, p, env);
      TailRest(w, b, l, p, env);
      if Consumes(w, b, l, p[0], env(p[0].id)) {
        ConsumedNotStranded(w, b, l, p[0], env(p[0].id));
        LeadingSame(w, w1, b, l, p[1..], env);
        hide InBatch, ConsumeOne, Consumes, Stranded;
        TailExact(w1, b, l, p[1..], env);
        ExtendOthers(w, w1, Tail(w1, b, l, p[1..], env), b, p);
      }
    }
  }

  lemma TailRest(w: World, b: Behavior, l: Limits, p: seq<Row>, env: nat -> Attempt)
    requires p != [] && p[0].id > w.watermark
    ensures var (o, w1) := InBatch(w, b, l, p[0], env(p[0].id));
            var w' := Tail(w, b, l, p, env);
            if o.Consumed? then w' == Tail(w1, b, l, p[1..], env)
            else w'.watermark == w.watermark && SameOthers(w, w', b, p)
  {
    AttemptExact(w, b, l, p[0], env(p[0].id));
    var (o, w1) := InBatch(w, b, l, p[0], env(p[0].id));
    var (o2, w2) := ConsumeOne(w, b, l, p[0], env(p[0].id));
    assert w1.reacted == w2.reacted && w1.dead == w2.dead && w1.watermark == w2.watermark;
    hide ConsumeOne, Consumes, Stranded;
    assert !o.Consumed? ==> SameOthers(w, w2, b, p) by {
      forall r: Row | forall q <- p :: q.id != r.id ensures Accounted(r, b, w) <==> Accounted(r, b, w2) {
        assert p[0] in p && SameAt(w, w1, r.id);
      }
    }
  }

  lemma ExtendOthers(w: World, w1: World, w': World, b: Behavior, p: seq<Row>)
    requires p != [] && Increasing(p) && SameOthers(w1, w', b, p[1..]) && Accounted(p[0], b, w1)
    requires forall id: nat :: id != p[0].id ==> SameAt(w, w1, id)
    ensures SameOthers(w, w', b, p) && Accounted(p[0], b, w')
  {
    hide FilteredOut;
    forall r | r in p[1..] ensures r.id != p[0].id { LaterRow(p, r); }
    forall r: Row | forall q <- p :: q.id != r.id ensures Accounted(r, b, w) <==> Accounted(r, b, w') {
      assert p[0] in p && forall q <- p[1..] :: q in p;
      assert SameAt(w, w1, r.id);
    }
  }

  // A matching row up to the last row consumed that was not consumed.
  predicate Skipped(r: Row, b: Behavior, w: World, consumed: seq<Row>) {
    r.event in b.events && consumed != [] && w.watermark < r.id <= consumed[|consumed| - 1].id && r !in consumed
  }

  lemma PlaceIn(p: seq<Row>, n: nat, r: Row) returns (i: nat)
    requires r in p && n <= |p|
    ensures i < |p| && p[i] == r && (i < n ==> r in p[..n])
  {
    i :| 0 <= i < |p| && p[i] == r;
    if i < n { assert p[..n][i] == r; }
  }

  // A pass whose reads returned `read` drops nothing exactly when every matching row they missed, up to the last row
  // the pass will consume, is accounted for already. Separate reads per event type can miss one.
  lemma ReadsMustAgree(s: System, b: Behavior, l: Limits, read: seq<Row>, env: nat -> Attempt)
    requires Increasing(s.ledger) && NoDrop(s.ledger, b, s.world)
    requires Increasing(read) && (forall r <- read :: r in s.ledger)
    ensures var w := s.world;
            var p := Pending(read, b, w.watermark);
            var consumed := p[..Leading(w, b, l, p, env)];
            NoDrop(s.ledger, b, Tail(w, b, l, p, env)) <==>
                forall r <- s.ledger :: Skipped(r, b, w, consumed) ==> Accounted(r, b, w)
  {
    var w := s.world;
    var p := Pending(read, b, w.watermark);
    var w' := Tail(w, b, l, p, env);
    var n := Leading(w, b, l, p, env);
    PendingIncreasing(read, b, w.watermark);
    TailExact(w, b, l, p, env);
    hide Tail, Leading, Accounted;
    forall r | r in s.ledger && r !in p ensures Accounted(r, b, w) <==> Accounted(r, b, w') {
      SameRow(s.ledger, p, r);
    }
    forall r | r in p && r !in p[..n] ensures r.id > w'.watermark {
      var i := PlaceIn(p, n, r);
    }
    forall r | r in p[..n] ensures Accounted(r, b, w') && r in p {}
    hide SameOthers, Increasing;
    ReadsAgreeIff(s.ledger, b, w, w', p, n);
  }

  lemma ReadsAgreeIff(ledger: seq<Row>, b: Behavior, w: World, w': World, p: seq<Row>, n: nat)
    requires n <= |p| && NoDrop(ledger, b, w) && w'.watermark == (if n == 0 then w.watermark else p[n - 1].id)
    requires forall r <- p :: r.id > w.watermark
    requires forall r <- p[..n] :: Accounted(r, b, w') && r in p
    requires forall r :: r in p && r !in p[..n] ==> r.id > w'.watermark
    requires forall r :: r in ledger && r !in p ==> (Accounted(r, b, w) <==> Accounted(r, b, w'))
    ensures NoDrop(ledger, b, w') <==> forall r <- ledger :: Skipped(r, b, w, p[..n]) ==> Accounted(r, b, w)
  {
    hide Accounted;
    if forall r <- ledger :: Skipped(r, b, w, p[..n]) ==> Accounted(r, b, w) {
      forall r | r in ledger && r.event in b.events && r.id <= w'.watermark ensures Accounted(r, b, w') {
        if r !in p && r.id > w.watermark { assert Skipped(r, b, w, p[..n]); }
      }
    }
    if NoDrop(ledger, b, w') {
      forall r | r in ledger && Skipped(r, b, w, p[..n]) ensures Accounted(r, b, w) {
        assert r.id <= w'.watermark;
      }
    }
  }

  lemma SameRow(ledger: seq<Row>, p: seq<Row>, r: Row)
    requires Increasing(ledger) && r in ledger && forall q <- p :: q in ledger
    ensures (exists q <- p :: q.id == r.id) <==> r in p
  {
    if q :| q in p && q.id == r.id {
      var i :| 0 <= i < |ledger| && ledger[i] == q;
      var j :| 0 <= j < |ledger| && ledger[j] == r;
    }
  }
}
