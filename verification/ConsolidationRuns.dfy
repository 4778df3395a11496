/** Runs of memory compaction (src/memory/consolidation.ts): which facts each compaction counts, and what it changes. */
module ConsolidationRuns {
  import opened Consolidation

  // ---------------------------------------------------------------- one compaction

  lemma {:induction false} NewRowsCount(lastRow: nat, n: nat, rows: set<nat>)
    requires forall r :: r in rows <==> NewRow(lastRow, n, r)
    ensures |rows| == n
    decreases n
  {
    if n > 0 {
      assert NewRow(lastRow, n, lastRow + n);
      NewRowsCount(lastRow, n - 1, rows - {lastRow + n});
    } else {
      assert rows == {};
    }
  }

  // Other pools keep every row as it was; the rows that go are the deleted ones, and the rows that come are the adds.
  lemma OnlyThePool(table: Table, after: Table, pool: Pool, rows: seq<PoolRow>, actions: seq<Action>, lastRow: nat,
          at: int)
    requires Applied(table, after, pool, rows, actions, lastRow, at) && forall r <- table :: r <= lastRow
    ensures forall r <- table :: table[r].pool != pool ==> r in after && after[r] == table[r]
    ensures forall r <- after :: r in table ==>
        after[r].pool == table[r].pool && after[r].createdAt == table[r].createdAt
    ensures forall r <- after :: r !in table ==>
        after[r].pool == pool && after[r].generated && NewRow(lastRow, |Adds(actions)|, r)
    ensures table.Keys - after.Keys == Removed(table, pool, rows, actions)
  {
    forall r <- table | table[r].pool != pool ensures r in after && after[r] == table[r] {
      assert r !in Removed(table, pool, rows, actions) && r !in Changed(table, pool, rows, actions);
    }
    forall r <- after | r !in table ensures after[r] == Generated(pool, Adds(actions)[r - lastRow - 1], at) {
      assert NewRow(lastRow, |Adds(actions)|, r);
      var k := r - lastRow - 1;
      assert lastRow + 1 + k == r;
    }
    forall r <- after | r in table ensures after[r].pool == table[r].pool && after[r].createdAt == table[r].createdAt {
      if r in Changed(table, pool, rows, actions) {
        var i :| i in Updates(actions).Keys - Deletes(actions) && Names(table, pool, rows, i) &&
            RowAt(rows, i).rowid == r;
      }
    }
  }

  // The pool's size changes by the adds minus the deletes that took effect.
  lemma PoolSize(table: Table, after: Table, pool: Pool, rows: seq<PoolRow>, actions: seq<Action>, lastRow: nat,
          at: int)
    requires Applied(table, after, pool, rows, actions, lastRow, at) && forall r <- table :: r <= lastRow
    ensures |RowsOf(after, pool)| == |RowsOf(table, pool)| + |Adds(actions)| - |Removed(table, pool, rows, actions)|
  {
    OnlyThePool(table, after, pool, rows, actions, lastRow, at);
    var gone, come := Removed(table, pool, rows, actions), after.Keys - table.Keys;
    forall r ensures r in come <==> NewRow(lastRow, |Adds(actions)|, r) {}
    NewRowsCount(lastRow, |Adds(actions)|, come);
    RowsOfParts(table, after, pool, gone, come);
    hide RowsOf;
    SizeOfParts(RowsOf(after, pool), RowsOf(table, pool), gone, come);
  }

  lemma RowsOfParts(table: Table, after: Table, pool: Pool, gone: set<nat>, come: set<nat>)
    requires gone == table.Keys - after.Keys && come == after.Keys - table.Keys
    requires forall r <- table :: table[r].pool != pool ==> r in after
    requires forall r <- after :: if r in table then after[r].pool == table[r].pool else after[r].pool == pool
    ensures RowsOf(after, pool) == RowsOf(table, pool) - gone + come && gone <= RowsOf(table, pool) &&
        come !! RowsOf(table, pool)
  {
  }

  lemma SizeOfParts<T>(a: set<T>, b: set<T>, gone: set<T>, come: set<T>)
    requires gone <= b && come !! b && a == b - gone + come
    ensures |a| == |b| + |come| - |gone|
  {
  }

  // The reported count is the number of rows that went, came, or were rewritten.
  lemma CountIsEffect(table: Table, after: Table, pool: Pool, rows: seq<PoolRow>, actions: seq<Action>, lastRow: nat,
          at: int)
    requires Applied(table, after, pool, rows, actions, lastRow, at) && forall r <- table :: r <= lastRow
    ensures var changed := Changed(table, pool, rows, actions);
            && |Removed(table, pool, rows, actions)| + |changed| + |Adds(actions)|
               == |table.Keys - after.Keys| + |changed| + |after.Keys - table.Keys|
            && (Distinct(rows) ==> changed <= after.Keys * table.Keys)
            && forall r <- after.Keys * table.Keys :: after[r] != table[r] ==> r in changed
  {
    OnlyThePool(table, after, pool, rows, actions, lastRow, at);
    NewRowsCount(lastRow, |Adds(actions)|, after.Keys - table.Keys);
    if Distinct(rows) {
      forall r <- Changed(table, pool, rows, actions) ensures r in after && r in table {
        var i :| i in Updates(actions).Keys - Deletes(actions) && Names(table, pool, rows, i) &&
            RowAt(rows, i).rowid == r;
      }
    }
  }

  // An index that is both updated and deleted loses its row.
  lemma DeleteBeatsUpdate(table: Table, after: Table, pool: Pool, rows: seq<PoolRow>, actions: seq<Action>,
          lastRow: nat, at: int, i: nat)
    requires Applied(table, after, pool, rows, actions, lastRow, at) && forall r <- table :: r <= lastRow
    requires Delete(i) in actions && Names(table, pool, rows, i)
    ensures RowAt(rows, i).rowid !in after
  {
    assert i in Deletes(actions);
    assert RowAt(rows, i).rowid in Removed(table, pool, rows, actions);
    assert RowAt(rows, i).rowid in table;
  }

  // ---------------------------------------------------------------- runs

  // A compaction between its read and its commit: the window (last, max] of its pool, the facts counted in it, the rows
  // shown to the model.
  datatype Reading = Reading(pool: Pool, last: nat, max: nat, facts: set<nat>, rows: seq<PoolRow>)

  // `reading` holds the compactions in flight; any number may be, of one pool too. History: `born`, every row ever
  // inserted, row r at place r - 1; `counted`, the facts that compactions have counted; `covered`, the facts, counted
  // or forgotten before, that lay in their windows.
  datatype State = State(table: Table, markers: map<Pool, nat>, born: seq<Memory>, reading: map<nat, Reading>,
                         counted: multiset<nat>, covered: multiset<nat>)

  function Marker(s: State, pool: Pool): nat {
    if pool in s.markers then s.markers[pool] else 0
  }

  predicate IsFact(s: State, pool: Pool, r: nat) {
    1 <= r <= |s.born| && s.born[r - 1].pool == pool && !s.born[r - 1].generated
  }

  function Window(s: State, pool: Pool, last: nat, max: nat): set<nat> {
    set r | last < r <= max && IsFact(s, pool, r)
  }

  ghost predicate Insert(s: State, t: State, m: Memory) {
    t == s.(table := s.table[|s.born| + 1 := m], born := s.born + [m])
  }

  ghost predicate Forget(s: State, t: State, r: nat) {
    t == s.(table := s.table - {r})
  }

  // The read of consolidatePool: enough facts past the marker.
  ghost predicate Read(s: State, t: State, k: nat, compactAfter: int, reading: Reading) {
    && reading.pool != User("") && k !in s.reading && compactAfter > 0
    && reading.last == Marker(s, reading.pool) && reading.facts == NewFacts(s.table, reading.pool, reading.last)
    && |reading.facts| >= compactAfter && IsMaxRowId(reading.facts, reading.last, reading.max)
    && Listing(s.table, reading.pool, reading.rows)
    && t == s.(reading := s.reading[k := reading])
  }

  // The model call failed: nothing is written.
  ghost predicate Abandon(s: State, t: State, k: nat) {
    k in s.reading && t == s.(reading := s.reading - {k})
  }

  ghost predicate Commit(s: State, t: State, k: nat, actions: seq<Action>, at: int) {
    && k in s.reading
    && var reading := s.reading[k];
       && Applied(s.table, t.table, reading.pool, reading.rows, actions, |s.born|, at)
       && |t.born| == |s.born| + |Adds(actions)| && t.born[..|s.born|] == s.born
       && (forall i :: 0 <= i < |Adds(actions)| ==>
           t.born[|s.born| + i] == Generated(reading.pool, Adds(actions)[i], at))
       && t.markers == s.markers[reading.pool := reading.max]
       && t.reading == s.reading - {k}
       && t.counted == s.counted + multiset(reading.facts)
       && t.covered == s.covered + multiset(Window(s, reading.pool, reading.last, reading.max))
  }

  datatype Event = Insert(m: Memory) | Forget(r: nat) | Read(k: nat, compactAfter: int, reading: Reading)
                 | Abandon(k: nat)
                 | Commit(k: nat, actions: seq<Action>, at: int)

  ghost predicate Next(s: State, t: State, e: Event) {
    match e
    case Insert(m) => Insert(s, t, m)
    case Forget(r) => Forget(s, t, r)
    case Read(k, compactAfter, reading) => Read(s, t, k, compactAfter, reading)
    case Abandon(k) => Abandon(s, t, k)
    case Commit(k, actions, at) => Commit(s, t, k, actions, at)
  }

  // ---------------------------------------------------------------- the invariant

  // A row keeps the pool and the origin it was inserted with.
  predicate Kept(s: State, r: nat) {
    1 <= r <= |s.born| && (r in s.table ==>
        s.table[r].pool == s.born[r - 1].pool && s.table[r].generated == s.born[r - 1].generated)
  }

  predicate RowsKept(s: State) {
    forall r <- s.table :: Kept(s, r)
  }

  predicate ReadingFits(s: State, reading: Reading) {
    && reading.last <= reading.max <= |s.born| && reading.max in reading.facts
    && (forall r <- reading.facts :: IsFact(s, reading.pool, r) && reading.last < r <= reading.max)
    && (forall r <- s.table :: IsFact(s, reading.pool, r) && reading.last < r <= reading.max ==> r in reading.facts)
    && Distinct(reading.rows)
    && (forall row <- reading.rows :: 1 <= row.rowid <= |s.born| && row.generated == s.born[row.rowid - 1].generated)
  }

  // Every fact still in the table was counted exactly once when its pool's marker has passed it, and never otherwise;
  // no fact was counted twice.
  predicate CountsFit(s: State) {
    && (forall r <- s.counted ::
          s.counted[r] == 1 && 1 <= r <= |s.born| && !s.born[r - 1].generated && r <= Marker(s, s.born[r - 1].pool))
    && (forall r <- s.table :: Kept(s, r) && !s.table[r].generated && r <= Marker(s, s.table[r].pool) ==>
        r in s.counted)
  }

  // The windows lie end to end: every fact ever inserted is in exactly one when its pool's marker has passed it, and in
  // none otherwise.
  ghost predicate Tiled(s: State) {
    && (forall r <- s.covered :: 1 <= r <= |s.born|)
    && forall pool, r: nat :: IsFact(s, pool, r) ==> s.covered[r] == if r <= Marker(s, pool) then 1 else 0
  }

  ghost predicate Exact(s: State) {
    CountsFit(s) && Tiled(s)
  }

  // A marker is a fact that was counted; a reading started at or before it.
  predicate MarkersFit(s: State) {
    && (forall pool <- s.markers :: IsFact(s, pool, s.markers[pool]) && s.markers[pool] in s.counted)
    && (forall k <- s.reading :: s.reading[k].last <= Marker(s, s.reading[k].pool))
  }

  ghost predicate Inv(s: State) {
    && RowsKept(s) && MarkersFit(s) && Exact(s)
    && (forall k <- s.reading :: ReadingFits(s, s.reading[k]))
  }

  // A step that inserts and removes rows, and rewrites only what compactions may.
  ghost predicate Frame(s: State, t: State) {
    && s.born <= t.born && RowsKept(t)
    && forall r <- t.table :: r <= |s.born| ==> r in s.table
  }

  lemma FrameFacts(s: State, t: State, pool: Pool, r: nat)
    requires s.born <= t.born && r <= |s.born|
    ensures IsFact(s, pool, r) <==> IsFact(t, pool, r)
  {
  }

  lemma FrameReading(s: State, t: State, reading: Reading)
    requires Frame(s, t) && ReadingFits(s, reading)
    ensures ReadingFits(t, reading)
  {
    hide RowsKept, Distinct;
    forall r: nat | r <= |s.born| ensures IsFact(s, reading.pool, r) <==> IsFact(t, reading.pool, r) {}
  }

  lemma FrameCounts(s: State, t: State)
    requires Frame(s, t) && RowsKept(s) && MarkersFit(s) && CountsFit(s) && t.markers == s.markers &&
        t.counted == s.counted
    ensures CountsFit(t)
  {
    forall r <- t.table | Kept(t, r) && !t.table[r].generated && r <= Marker(t, t.table[r].pool)
      ensures r in t.counted
    {
      assert r in s.table && Kept(s, r);
    }
  }

  lemma FrameTiles(s: State, t: State)
    requires s.born <= t.born && MarkersFit(s) && Tiled(s) && t.markers == s.markers && t.covered == s.covered
    ensures Tiled(t)
  {
    forall pool, r: nat | IsFact(t, pool, r) ensures t.covered[r] == if r <= Marker(t, pool) then 1 else 0 {
      if r <= |s.born| { assert IsFact(s, pool, r); } else { assert r !in s.covered; }
    }
  }

  // Every event but the commit leaves the markers and the counts alone.
  lemma QuietKeeps(s: State, t: State)
    requires Inv(s) && Frame(s, t) && t.markers == s.markers && t.counted == s.counted && t.covered == s.covered
    requires forall k <- t.reading ::
               || (k in s.reading && t.reading[k] == s.reading[k])
               || (ReadingFits(t, t.reading[k]) && t.reading[k].last <= Marker(t, t.reading[k].pool))
    ensures Inv(t)
  {
    FrameCounts(s, t);
    FrameTiles(s, t);
    hide CountsFit, Tiled;
    forall k <- t.reading ensures ReadingFits(t, t.reading[k]) {
      if k in s.reading && t.reading[k] == s.reading[k] { FrameReading(s, t, s.reading[k]); }
    }
    QuietMarkers(s, t);
  }

  lemma QuietMarkers(s: State, t: State)
    requires MarkersFit(s) && s.born <= t.born && t.markers == s.markers && t.counted == s.counted
    requires forall k <- t.reading ::
               (k in s.reading && t.reading[k] == s.reading[k]) || t.reading[k].last <= Marker(t, t.reading[k].pool)
    ensures MarkersFit(t)
  {
    forall pool <- t.markers ensures IsFact(t, pool, t.markers[pool]) { FrameFacts(s, t, pool, s.markers[pool]); }
  }

  lemma ListingDistinct(table: Table, pool: Pool, rows: seq<PoolRow>)
    requires Listing(table, pool, rows)
    ensures Distinct(rows)
  {
  }

  lemma ReadFits(s: State, t: State, k: nat, compactAfter: int, reading: Reading)
    requires RowsKept(s) && Read(s, t, k, compactAfter, reading)
    ensures ReadingFits(t, reading)
  {
    ListingDistinct(s.table, reading.pool, reading.rows);
    assert reading.facts != {};
  }

  // ---------------------------------------------------------------- the commit

  // A rewritten row keeps where it came from.
  lemma ChangedKept(s: State, t: State, k: nat, actions: seq<Action>, at: int, r: nat)
    requires RowsKept(s) && Commit(s, t, k, actions, at) && ReadingFits(s, s.reading[k])
    requires r in t.table && r in s.table
    ensures t.table[r].generated == s.table[r].generated
  {
    var pool, rows := s.reading[k].pool, s.reading[k].rows;
    if r in Changed(s.table, pool, rows, actions) {
      var i :| i in Updates(actions).Keys - Deletes(actions) && Names(s.table, pool, rows, i) &&
          RowAt(rows, i).rowid == r;
      assert t.table[r] == Rewrite(s.table[r], RowAt(rows, i), Updates(actions)[i]);
      hide Updates, Deletes, Adds, Live, Distinct, Applied;
      assert RowAt(rows, i) in rows && Kept(s, r);
    }
  }

  lemma CommitFrame(s: State, t: State, k: nat, actions: seq<Action>, at: int)
    requires RowsKept(s) && Commit(s, t, k, actions, at) && ReadingFits(s, s.reading[k])
    ensures Frame(s, t)
  {
    OnlyThePool(s.table, t.table, s.reading[k].pool, s.reading[k].rows, actions, |s.born|, at);
    forall r <- t.table | r in s.table
      ensures t.table[r].generated == s.table[r].generated
    {
      ChangedKept(s, t, k, actions, at, r);
    }
    hide Applied, ReadingFits;
    forall r <- t.table ensures Kept(t, r) {
      if r in s.table {
        assert Kept(s, r);
      } else {
        var i := r - |s.born| - 1;
        assert NewRow(|s.born|, |Adds(actions)|, r);
        assert |s.born| + 1 + i == r && t.born[|s.born| + i] == Generated(s.reading[k].pool, Adds(actions)[i], at);
      }
    }
  }

  // What a commit does to markers and counts.
  ghost predicate Counts(s: State, t: State, reading: Reading) {
    && Frame(s, t) && t.counted == s.counted + multiset(reading.facts)
    && t.covered == s.covered + multiset(Window(s, reading.pool, reading.last, reading.max))
    && forall p :: Marker(t, p) == if p == reading.pool then reading.max else Marker(s, p)
  }

  // Whether a commit may happen late: no other compaction of the pool was committed since its read.
  predicate Timely(s: State, k: nat)
    requires k in s.reading
  {
    s.reading[k].last == Marker(s, s.reading[k].pool)
  }

  lemma CountsOnce(s: State, t: State, reading: Reading)
    requires CountsFit(s) && Counts(s, t, reading) && ReadingFits(s, reading)
    requires Marker(s, reading.pool) <= reading.max && multiset(reading.facts) !! s.counted
    ensures forall r <- t.counted ::
              t.counted[r] == 1 && 1 <= r <= |t.born| && !t.born[r - 1].generated && r <= Marker(t, t.born[r - 1].pool)
  {
    hide Marker, Distinct, Window, RowsKept;
    forall r <- t.counted
      ensures t.counted[r] == 1 && 1 <= r <= |t.born| && !t.born[r - 1].generated && r <= Marker(t, t.born[r - 1].pool)
    {
      if r in reading.facts { assert IsFact(s, reading.pool, r); }
    }
  }

  lemma MissesNone(s: State, t: State, reading: Reading)
    requires CountsFit(s) && RowsKept(s) && MarkersFit(s) && Counts(s, t, reading) && ReadingFits(s, reading)
    requires reading.last <= Marker(s, reading.pool)
    ensures forall r <- t.table :: Kept(t, r) && !t.table[r].generated && r <= Marker(t, t.table[r].pool) ==>
        r in t.counted
  {
    hide Distinct, Window;
    forall r <- t.table | Kept(t, r) && !t.table[r].generated && r <= Marker(t, t.table[r].pool)
      ensures r in t.counted
    {
      assert r in s.table && Kept(s, r);
      if s.table[r].pool == reading.pool { assert IsFact(s, reading.pool, r); }
    }
  }

  // After a commit each fact is counted exactly as the marker says if and only if the window does not end before the
  // marker and no fact of it was counted before.
  lemma CommitCounts(s: State, t: State, reading: Reading)
    requires CountsFit(s) && RowsKept(s) && MarkersFit(s) && Counts(s, t, reading) && ReadingFits(s, reading)
    requires reading.last <= Marker(s, reading.pool)
    ensures CountsFit(t) <==> Marker(s, reading.pool) <= reading.max && multiset(reading.facts) !! s.counted
  {
    var m := Marker(s, reading.pool);
    MissesNone(s, t, reading);
    if m <= reading.max && multiset(reading.facts) !! s.counted {
      CountsOnce(s, t, reading);
    } else if m > reading.max {
      assert m in t.counted && IsFact(s, reading.pool, m);
    } else {
      var r :| r in reading.facts && r in s.counted;
      assert t.counted[r] >= 2;
    }
  }

  // And the windows still lie end to end if and only if the marker is still the one the read saw.
  lemma CommitTiles(s: State, t: State, reading: Reading)
    requires Tiled(s) && MarkersFit(s) && Counts(s, t, reading) && ReadingFits(s, reading)
    requires reading.last <= Marker(s, reading.pool)
    ensures Tiled(t) <==> reading.last == Marker(s, reading.pool)
  {
    var m, w := Marker(s, reading.pool), Window(s, reading.pool, reading.last, reading.max);
    hide RowsKept, Distinct;
    if reading.last == m {
      forall pool, r: nat | IsFact(t, pool, r) ensures t.covered[r] == if r <= Marker(t, pool) then 1 else 0 {
        if r <= |s.born| {
          assert IsFact(s, pool, r);
          assert r in w <==> pool == reading.pool && m < r <= reading.max;
        } else {
          assert r !in s.covered && r !in w;
        }
      }
    } else {
      assert IsFact(s, reading.pool, m) && s.covered[m] == 1;
      assert IsFact(t, reading.pool, m);
      assert m <= reading.max ==> m in w;
    }
  }

  // A commit keeps every fact in exactly one window, counted exactly once, if and only if no other compaction of the
  // pool was committed since its read: the marker is still the one it saw. That can be told before the commit.
  lemma CommitExact(s: State, t: State, k: nat, actions: seq<Action>, at: int)
    requires Inv(s) && Commit(s, t, k, actions, at)
    ensures Exact(t) <==> Timely(s, k)
    ensures CountsFit(t) <==>
        Marker(s, s.reading[k].pool) <= s.reading[k].max && multiset(s.reading[k].facts) !! s.counted
  {
    var reading := s.reading[k];
    CommitFrame(s, t, k, actions, at);
    assert Counts(s, t, reading);
    hide Applied, Adds;
    CommitCounts(s, t, reading);
    CommitTiles(s, t, reading);
    if Timely(s, k) { TimelyFresh(s, reading); }
  }

  // A window that starts at the marker holds no fact counted before.
  lemma TimelyFresh(s: State, reading: Reading)
    requires CountsFit(s) && ReadingFits(s, reading) && reading.last == Marker(s, reading.pool)
    ensures Marker(s, reading.pool) <= reading.max && multiset(reading.facts) !! s.counted
  {
    forall r | r in reading.facts ensures r !in s.counted { assert IsFact(s, reading.pool, r); }
  }

  lemma CommitKeeps(s: State, t: State, k: nat, actions: seq<Action>, at: int)
    requires Inv(s) && Commit(s, t, k, actions, at) && Timely(s, k)
    ensures Inv(t)
  {
    CommitExact(s, t, k, actions, at);
    CommitFrame(s, t, k, actions, at);
    CommitMarkers(s, t, s.reading[k]);
    hide Applied, Adds, Exact, MarkersFit;
    forall j <- t.reading ensures ReadingFits(t, t.reading[j]) { FrameReading(s, t, s.reading[j]); }
  }

  lemma CommitMarkers(s: State, t: State, reading: Reading)
    requires MarkersFit(s) && Frame(s, t) && ReadingFits(s, reading) && reading.last == Marker(s, reading.pool)
    requires t.markers == s.markers[reading.pool := reading.max] && t.counted == s.counted + multiset(reading.facts)
    requires forall j <- t.reading :: j in s.reading && t.reading[j] == s.reading[j]
    ensures MarkersFit(t)
  {
    hide RowsKept, Distinct;
    assert reading.max in reading.facts;
    forall pool <- t.markers ensures IsFact(t, pool, t.markers[pool]) && t.markers[pool] in t.counted {
      FrameFacts(s, t, pool, if pool == reading.pool then reading.max else s.markers[pool]);
    }
  }

  // Every event keeps the invariant, a commit if and only if it is timely.
  lemma NextExact(s: State, t: State, e: Event)
    requires Inv(s) && Next(s, t, e)
    ensures Inv(t) <==> (e.Commit? ==> Timely(s, e.k))
  {
    if e.Commit? {
      assert Commit(s, t, e.k, e.actions, e.at);
      hide Commit, Next;
      CommitExact(s, t, e.k, e.actions, e.at);
      if Timely(s, e.k) { CommitKeeps(s, t, e.k, e.actions, e.at); }
    } else {
      QuietNext(s, t, e);
    }
  }

  lemma QuietNext(s: State, t: State, e: Event)
    requires Inv(s) && Next(s, t, e) && !e.Commit?
    ensures Inv(t)
  {
    match e {
      case Insert(m) => InsertFrame(s, t, m); assert t.reading == s.reading;
      case Forget(r) => ForgetFrame(s, t, r);
      case Read(k, compactAfter, reading) => ReadFits(s, t, k, compactAfter, reading);
      case Abandon(k) =>
    }
    hide CountsFit, Tiled, ReadingFits, Listing, MarkersFit, Kept;
    QuietKeeps(s, t);
  }

  lemma ForgetFrame(s: State, t: State, r: nat)
    requires RowsKept(s) && Forget(s, t, r)
    ensures Frame(s, t)
  {
  }

  lemma InsertFrame(s: State, t: State, m: Memory)
    requires RowsKept(s) && Insert(s, t, m)
    ensures Frame(s, t)
  {
  }

  // ---------------------------------------------------------------- the theorems

  const EMPTY: State := State(map[], map[], [], map[], multiset{}, multiset{})

  ghost predicate IsRun(ss: seq<State>, es: seq<Event>) {
    |ss| == |es| + 1 && ss[0] == EMPTY && forall i :: 0 <= i < |es| ==> Next(ss[i], ss[i + 1], es[i])
  }

  // Up to place n, every commit is timely.
  ghost predicate AllTimely(ss: seq<State>, es: seq<Event>, n: nat)
    requires IsRun(ss, es) && n <= |es|
  {
    forall i :: 0 <= i < n && es[i].Commit? ==> es[i].k in ss[i].reading && Timely(ss[i], es[i].k)
  }

  lemma {:induction false} RunKeeps(ss: seq<State>, es: seq<Event>, i: nat)
    requires IsRun(ss, es) && i < |ss| && AllTimely(ss, es, i)
    ensures Inv(ss[i])
  {
    if i > 0 {
      assert AllTimely(ss, es, i - 1);
      RunKeeps(ss, es, i - 1);
      assert Next(ss[i - 1], ss[i], es[i - 1]);
      hide Inv, Timely;
      NextExact(ss[i - 1], ss[i], es[i - 1]);
    }
  }

  // Whatever is inserted or forgotten while model calls are out, no fact is counted by two compactions; and a fact that
  // is still there has been counted by one exactly when its pool's marker has reached it.
  lemma CountedExactlyOnce(ss: seq<State>, es: seq<Event>, i: nat)
    requires IsRun(ss, es) && i < |ss| && AllTimely(ss, es, i)
    ensures var s := ss[i];
            && (forall r :: s.counted[r] <= 1)
            && (forall r <- s.table :: !s.table[r].generated ==>
                s.counted[r] == if r <= Marker(s, s.table[r].pool) then 1 else 0)
            && (forall r <- s.table :: s.table[r].generated ==> s.counted[r] == 0)
  {
    RunKeeps(ss, es, i);
    var s := ss[i];
    hide IsRun, AllTimely, Tiled, ReadingFits, MarkersFit;
    forall r <- s.table ensures Kept(s, r) {}
    forall r ensures s.counted[r] <= 1 {
      if r in s.counted {}
    }
    forall r <- s.table | r in s.counted ensures !s.table[r].generated && r <= Marker(s, s.table[r].pool) {
      assert Kept(s, r) && s.counted[r] == 1;
    }
  }

  lemma {:induction false} MarkersGrow(ss: seq<State>, es: seq<Event>, i: nat, j: nat, pool: Pool)
    requires IsRun(ss, es) && i <= j < |ss| && AllTimely(ss, es, j)
    ensures Marker(ss[i], pool) <= Marker(ss[j], pool)
    decreases j
  {
    hide Inv, Next, Marker, Timely;
    if i < j {
      assert AllTimely(ss, es, j - 1);
      MarkersGrow(ss, es, i, j - 1, pool);
      RunKeeps(ss, es, j - 1);
      assert Next(ss[j - 1], ss[j], es[j - 1]);
      MarkerStep(ss[j - 1], ss[j], es[j - 1], pool);
    }
  }

  lemma MarkerStep(s: State, t: State, e: Event, pool: Pool)
    requires Inv(s) && Next(s, t, e) && (e.Commit? ==> Timely(s, e.k))
    ensures Marker(s, pool) <= Marker(t, pool)
  {
    hide RowsKept, Exact, Applied, Listing;
    if e.Commit? {
      assert ReadingFits(s, s.reading[e.k]);
    }
  }

  // One compaction of a pool at a time is enough: a commit is timely when no other compaction of its pool is committed
  // between its read and it.
  lemma {:induction false} AloneIsTimely(ss: seq<State>, es: seq<Event>, i: nat, j: nat)
    requires IsRun(ss, es) && i < j < |es| && es[i].Read? && j < |ss|
    requires es[i].k in ss[j].reading && ss[j].reading[es[i].k] == es[i].reading
    requires forall n :: i < n < j && es[n].Commit? && es[n].k in ss[n].reading ==>
        ss[n].reading[es[n].k].pool != es[i].reading.pool
    ensures Timely(ss[j], es[i].k)
  {
    MarkerStays(ss, es, i, j, es[i].reading.pool);
    assert Next(ss[i], ss[i + 1], es[i]);
  }

  lemma {:induction false} MarkerStays(ss: seq<State>, es: seq<Event>, i: nat, j: nat, pool: Pool)
    requires IsRun(ss, es) && i < j < |ss| && es[i].Read?
    requires forall n :: i < n < j && es[n].Commit? && es[n].k in ss[n].reading ==> ss[n].reading[es[n].k].pool != pool
    ensures Marker(ss[j], pool) == Marker(ss[i], pool)
    decreases j
  {
    hide Applied, Listing;
    assert Next(ss[j - 1], ss[j], es[j - 1]);
    if j - 1 > i { MarkerStays(ss, es, i, j - 1, pool); }
  }

  // ---------------------------------------------------------------- two compactions of one pool that overlap

  // Two facts of one pool; the second comes between the reads.
  function One(m: Memory): State {
    State(map[1 := m], map[], [m], map[], multiset{}, multiset{})
  }

  function Two(m: Memory, n: Memory): State {
    State(map[1 := m, 2 := n], map[], [m, n], map[], multiset{}, multiset{})
  }

  function Early(m: Memory): Reading {
    Reading(Org, 0, 1, {1}, [PoolRow(1, m.content, false)])
  }

  function Late(m: Memory, n: Memory): Reading {
    Reading(Org, 0, 2, {1, 2}, [PoolRow(1, m.content, false), PoolRow(2, n.content, false)])
  }

  // After both reads; after the late commit; after the early one.
  function Both(m: Memory, n: Memory): State {
    Two(m, n).(reading := map[0 := Early(m), 1 := Late(m, n)])
  }

  function LateDone(m: Memory, n: Memory): State {
    Two(m, n).(reading := map[0 := Early(m)], markers := map[Org := 2], counted := multiset{1, 2},
        covered := multiset{1, 2})
  }

  function EarlyDone(m: Memory, n: Memory): State {
    Two(m, n).(markers := map[Org := 1], counted := multiset{1, 1, 2}, covered := multiset{1, 1, 2})
  }

  predicate OrgFact(m: Memory) {
    m.pool == Org && !m.generated
  }

  // The commits come in the other order: the marker goes back, a fact is counted twice, and one is new again.
  lemma OverlapCountsAgain(m: Memory, n: Memory)
    requires OrgFact(m) && OrgFact(n) && m.createdAt <= n.createdAt
    ensures Read(One(m), One(m).(reading := map[0 := Early(m)]), 0, 1, Early(m))
    ensures Insert(One(m).(reading := map[0 := Early(m)]), Two(m, n).(reading := map[0 := Early(m)]), n)
    ensures Read(Two(m, n).(reading := map[0 := Early(m)]), Both(m, n), 1, 1, Late(m, n))
    ensures Commit(Both(m, n), LateDone(m, n), 1, [], 0) && Commit(LateDone(m, n), EarlyDone(m, n), 0, [], 0)
    ensures Timely(Both(m, n), 1) && !Timely(LateDone(m, n), 0)
    ensures var t := EarlyDone(m, n);
            t.counted[1] == 2 && Marker(t, Org) < Marker(LateDone(m, n), Org) &&
                2 in NewFacts(t.table, Org, Marker(t, Org))
  {
    hide Read, Commit;
    EarlyRead(m);
    LateRead(m, n);
    var s := Both(m, n);
    assert s.reading - {1} == map[0 := Early(m)];
    assert multiset{1, 2} == multiset{} + multiset({1, 2}) && multiset{1, 1, 2} == multiset{1, 2} + multiset({1});
    assert Window(s, Org, 0, 2) == {1, 2} by { assert IsFact(s, Org, 1) && IsFact(s, Org, 2); }
    EmptyCommit(s, LateDone(m, n), 1);
    var t := LateDone(m, n);
    assert t.reading - {0} == map[];
    assert Window(t, Org, 0, 1) == {1} by { assert IsFact(t, Org, 1); }
    EmptyCommit(t, EarlyDone(m, n), 0);
  }

  lemma EarlyRead(m: Memory)
    requires OrgFact(m)
    ensures Read(One(m), One(m).(reading := map[0 := Early(m)]), 0, 1, Early(m))
  {
    assert NewFacts(One(m).table, Org, 0) == {1};
    assert Early(m).rows[0].rowid == 1;
  }

  lemma LateRead(m: Memory, n: Memory)
    requires OrgFact(m) && OrgFact(n) && m.createdAt <= n.createdAt
    ensures Read(Two(m, n).(reading := map[0 := Early(m)]), Both(m, n), 1, 1, Late(m, n))
  {
    assert NewFacts(Two(m, n).table, Org, 0) == {1, 2};
    assert Late(m, n).rows[0].rowid == 1 && Late(m, n).rows[1].rowid == 2;
  }

  lemma EmptyCommit(s: State, t: State, k: nat)
    requires k in s.reading && t.table == s.table && t.born == s.born && t.reading == s.reading - {k}
    requires t.markers == s.markers[s.reading[k].pool := s.reading[k].max] &&
        t.counted == s.counted + multiset(s.reading[k].facts)
    requires t.covered == s.covered + multiset(Window(s, s.reading[k].pool, s.reading[k].last, s.reading[k].max))
    ensures Commit(s, t, k, [], 0)
  {
    NoActions(s.table, s.reading[k].pool, s.reading[k].rows, |s.born|);
    hide Applied;
    assert Adds([]) == [];
  }

  lemma NoActions(table: Table, pool: Pool, rows: seq<PoolRow>, lastRow: nat)
    ensures Applied(table, table, pool, rows, [], lastRow, 0)
  {
    assert Live(table, pool, rows, {}) == {};
    assert Deletes([]) == {} && Updates([]) == map[] && Adds([]) == [];
  }

  // The row id SQLite gives a new row of a table without AUTOINCREMENT.
  ghost predicate IsNextRowId(table: Table, next: nat) {
    next >= 1 && (forall r <- table :: r < next) && (next > 1 ==> next - 1 in table)
  }

  // With such row ids a new fact is seen by the next compaction at that marker exactly when some row at or past the
  // marker is left. When the newest rows are gone, deleted by a compaction or forgotten, their ids come again, and a
  // fact that gets one at or below the marker is not seen.
  lemma ReusedRowIdSeen(table: Table, next: nat, m: Memory, marker: nat)
    requires IsNextRowId(table, next) && !m.generated
    ensures next in NewFacts(table[next := m], m.pool, marker) <==> marker == 0 || exists r <- table :: r >= marker
  {
    if r :| r in table && r >= marker {
      assert r < next;
    }
    if next > marker && marker > 0 {
      assert next - 1 in table && next - 1 >= marker;
    }
  }
}
