/** What src/memory/consolidation.ts does to each row, told from the actions alone. */
module ConsolidationRows {
  import opened Text
  import opened Consolidation
  import Runs = ConsolidationRuns

  // The j-th action is the last update of index i.
  predicate LastUpdate(actions: seq<Action>, j: nat, i: nat) {
    && j < |actions| && actions[j].Update? && actions[j].index == i
    && forall m :: j < m < |actions| && actions[m].Update? ==> actions[m].index != i
  }

  predicate Updated(actions: seq<Action>, i: nat) {
    exists j :: 0 <= j < |actions| && actions[j].Update? && actions[j].index == i
  }

  // How many of the first j actions are adds.
  function AddsBefore(actions: seq<Action>, j: nat): nat
    requires j <= |actions|
  {
    if j == 0 then 0 else AddsBefore(actions, j - 1) + if actions[j - 1].Add? then 1 else 0
  }

  lemma {:induction false} UpdatesByPlace(actions: seq<Action>)
    ensures forall i :: i in Updates(actions) <==> Updated(actions, i)
    ensures forall i, j: nat :: LastUpdate(actions, j, i) ==>
              i in Updates(actions) && Updates(actions)[i] == actions[j].text
  {
    if actions != [] {
      var n := |actions| - 1;
      var rest, last := actions[..n], actions[n];
      UpdatesByPlace(rest);
      hide Updates;
      assert Updates(actions) == if last.Update? then Updates(rest)[last.index := last.text] else Updates(rest) by {
        UpdatesLast(actions);
      }
      forall i ensures i in Updates(actions) <==> Updated(actions, i) {
        if Updated(rest, i) {
          var j :| 0 <= j < |rest| && rest[j].Update? && rest[j].index == i;
          assert actions[j] == rest[j];
        }
        if Updated(actions, i) {
          var j :| 0 <= j < |actions| && actions[j].Update? && actions[j].index == i;
          assert j < n ==> rest[j] == actions[j];
        }
      }
      forall i, j: nat | LastUpdate(actions, j, i)
        ensures i in Updates(actions) && Updates(actions)[i] == actions[j].text
      {
        if j < n {
          assert rest[j] == actions[j] && forall m :: 0 <= m < n ==> rest[m] == actions[m];
          assert LastUpdate(rest, j, i);
        }
      }
    }
  }

  lemma UpdatesLast(actions: seq<Action>)
    requires actions != []
    ensures var rest, last := actions[..|actions| - 1], actions[|actions| - 1];
            Updates(actions) == if last.Update? then Updates(rest)[last.index := last.text] else Updates(rest)
  {
  }

  lemma {:induction false} AddsByPlace(actions: seq<Action>)
    ensures |Adds(actions)| == AddsBefore(actions, |actions|)
    ensures forall j :: 0 <= j < |actions| && actions[j].Add? ==>
              AddsBefore(actions, j) < |Adds(actions)| && Adds(actions)[AddsBefore(actions, j)] == actions[j].text
  {
    if actions != [] {
      var rest := actions[..|actions| - 1];
      AddsByPlace(rest);
      forall j | 0 <= j <= |rest| ensures AddsBefore(actions, j) == AddsBefore(rest, j) {
        AddsPrefix(actions, rest, j);
      }
    }
  }

  lemma {:induction false} AddsPrefix(actions: seq<Action>, rest: seq<Action>, j: nat)
    requires rest <= actions && j <= |rest|
    ensures AddsBefore(actions, j) == AddsBefore(rest, j)
    decreases j
  {
    if j > 0 { AddsPrefix(actions, rest, j - 1); }
  }

  // The row shown to the model at place k, one-based for the model: gone exactly when it is deleted; with the text of
  // its last update and what the model was shown as superseded; and as it was otherwise.
  lemma RowByPlace(table: Table, after: Table, pool: Pool, rows: seq<PoolRow>, actions: seq<Action>, lastRow: nat,
          at: int, k: nat)
    requires Applied(table, after, pool, rows, actions, lastRow, at)
    requires Distinct(rows) && (forall r <- table :: r <= lastRow)
    requires k < |rows| && rows[k].rowid in table && table[rows[k].rowid].pool == pool
    ensures var r := rows[k].rowid;
            && (r in after <==> Delete(k + 1) !in actions)
            && (Delete(k + 1) !in actions && !Updated(actions, k + 1) ==> after[r] == table[r])
            && (forall j: nat :: Delete(k + 1) !in actions && LastUpdate(actions, j, k + 1) ==>
                  && after[r].content == actions[j].text && after[r].superseded == Some(rows[k].content)
                  && after[r].pool == pool && after[r].createdAt == table[r].createdAt
                  && after[r].generated == rows[k].generated)
  {
    var r := rows[k].rowid;
    UpdatesByPlace(actions);
    assert RowAt(rows, k + 1) == rows[k] && Names(table, pool, rows, k + 1);
    assert forall i :: Names(table, pool, rows, i) && RowAt(rows, i).rowid == r ==> i == k + 1;
    assert r in Removed(table, pool, rows, actions) <==> k + 1 in Deletes(actions);
    assert r in Changed(table, pool, rows, actions) <==> k + 1 in Updates(actions).Keys - Deletes(actions);
    assert k + 1 in Deletes(actions) <==> Delete(k + 1) in actions;
  }

  // Every other row stays as it was.
  lemma OtherRowsStay(table: Table, after: Table, pool: Pool, rows: seq<PoolRow>, actions: seq<Action>, lastRow: nat,
          at: int, r: nat)
    requires Applied(table, after, pool, rows, actions, lastRow, at) && r in table
    requires table[r].pool != pool || forall k :: 0 <= k < |rows| ==> rows[k].rowid != r
    ensures r in after && after[r] == table[r]
  {
    assert forall i :: Names(table, pool, rows, i) ==> RowAt(rows, i).rowid != r;
  }

  // The adds become new rows of the pool, in their order, after all others; and no other row is new.
  lemma NewRowsByPlace(table: Table, after: Table, pool: Pool, rows: seq<PoolRow>, actions: seq<Action>, lastRow: nat,
          at: int)
    requires Applied(table, after, pool, rows, actions, lastRow, at) && forall r <- table :: r <= lastRow
    ensures forall j :: 0 <= j < |actions| && actions[j].Add? ==>
              var r := lastRow + 1 + AddsBefore(actions, j);
              r in after && after[r] == Memory(pool, actions[j].text, true, None, at)
    ensures forall r <- after :: r in table || lastRow < r <= lastRow + AddsBefore(actions, |actions|)
  {
    hide Applied, AddsBefore;
    AddsByPlace(actions);
    NewRowsFrom(table, after, pool, rows, actions, lastRow, at);
  }

  lemma NewRowsFrom(table: Table, after: Table, pool: Pool, rows: seq<PoolRow>, actions: seq<Action>, lastRow: nat,
          at: int)
    requires Applied(table, after, pool, rows, actions, lastRow, at)
    ensures forall n :: 0 <= n < |Adds(actions)| ==>
              && lastRow + 1 + n in after
              && after[lastRow + 1 + n] == Memory(pool, Adds(actions)[n], true, None, at)
    ensures forall r <- after :: r in table || lastRow < r <= lastRow + |Adds(actions)|
  {
    hide Adds, Removed, Changed, Updates, Deletes, Names, RowAt, Rewrite;
  }

  // ---------------------------------------------------------------- what a compaction reads

  // A fact of the pool that no compaction of it has passed: told by a user, and newer than the marker.
  predicate NewFact(s: Runs.State, pool: Pool, r: nat) {
    && r in s.table && s.table[r].pool == pool && !s.table[r].generated
    && (pool in s.markers ==> r > s.markers[pool]) && (pool !in s.markers ==> r > 0)
  }

  // A row of the pool comes before another when it is older, or as old and was inserted before.
  predicate Older(table: Table, a: nat, b: nat)
    requires a in table && b in table
  {
    table[a].createdAt < table[b].createdAt || (table[a].createdAt == table[b].createdAt && a < b)
  }

  // A compaction starts from all new facts of its pool, at least as many as asked for, and ends its window at the last
  // of them. The model is shown every row of the pool, the oldest first.
  lemma ReadSees(s: Runs.State, t: Runs.State, k: nat, compactAfter: int, reading: Runs.Reading)
    requires Runs.Next(s, t, Runs.Event.Read(k, compactAfter, reading))
    ensures forall r :: r in reading.facts <==> NewFact(s, reading.pool, r)
    ensures 0 < compactAfter <= |reading.facts| && reading.max in reading.facts
    ensures forall r <- reading.facts :: r <= reading.max
    ensures forall r <- s.table :: s.table[r].pool == reading.pool ==>
              exists n :: 0 <= n < |reading.rows| && reading.rows[n].rowid == r
    ensures forall n :: 0 <= n < |reading.rows| ==>
              var row := reading.rows[n];
              && row.rowid in s.table && s.table[row.rowid].pool == reading.pool
              && row.content == s.table[row.rowid].content && row.generated == s.table[row.rowid].generated
    ensures forall m, n :: 0 <= m < n < |reading.rows| ==>
              Older(s.table, reading.rows[m].rowid, reading.rows[n].rowid)
    ensures t.table == s.table && t.markers == s.markers
  {
    assert reading.facts != {};
    forall r <- s.table | s.table[r].pool == reading.pool
      ensures exists n :: 0 <= n < |reading.rows| && reading.rows[n].rowid == r
    {
      assert r in RowsOf(s.table, reading.pool);
    }
    forall n | 0 <= n < |reading.rows|
      ensures reading.rows[n].rowid in s.table && s.table[reading.rows[n].rowid].pool == reading.pool
      ensures reading.rows[n].content == s.table[reading.rows[n].rowid].content
      ensures reading.rows[n].generated == s.table[reading.rows[n].rowid].generated
    {
      assert reading.rows[n] in reading.rows;
    }
  }

  lemma {:induction false} OldestOf(table: Table, ids: set<nat>) returns (r: nat)
    requires ids != {} && ids <= table.Keys
    ensures r in ids && forall o <- ids :: o == r || Older(table, r, o)
    decreases ids
  {
    var some: nat :| some in ids;
    var rest := ids - {some};
    if rest == {} {
      assert ids == {some};
      r := some;
    } else {
      var q := OldestOf(table, rest);
      r := if Older(table, some, q) then some else q;
      forall o <- ids ensures o == r || Older(table, r, o) { assert o == some || o in rest; }
    }
  }

  lemma {:induction false} SortedRows(table: Table, ids: set<nat>) returns (rs: seq<nat>)
    requires ids <= table.Keys
    ensures forall r :: r in rs <==> r in ids
    ensures forall m, n :: 0 <= m < n < |rs| ==> Older(table, rs[m], rs[n])
    decreases ids
  {
    if ids == {} {
      rs := [];
    } else {
      var first := OldestOf(table, ids);
      var rest := SortedRows(table, ids - {first});
      rs := [first] + rest;
      forall m, n | 0 <= m < n < |rs| ensures Older(table, rs[m], rs[n]) {
        assert rs[n] == rest[n - 1] && rest[n - 1] in rest;
      }
    }
  }

  lemma {:induction false} LastOf(ids: set<nat>) returns (max: nat)
    requires ids != {}
    ensures max in ids && forall r <- ids :: r <= max
    decreases ids
  {
    var some: nat :| some in ids;
    var rest := ids - {some};
    if rest == {} {
      assert ids == {some};
      max := some;
    } else {
      var m := LastOf(rest);
      max := if m > some then m else some;
      forall r <- ids ensures r <= max { assert r == some || r in rest; }
    }
  }

  ghost predicate MayRead(s: Runs.State, k: nat, pool: Pool, compactAfter: int) {
    exists t: Runs.State, reading: Runs.Reading ::
      reading.pool == pool && Runs.Next(s, t, Runs.Event.Read(k, compactAfter, reading))
  }

  // A compaction of a pool goes on to the model exactly when a threshold is set, there are that many new facts, and a
  // pool of a user has a name.
  lemma ReadsWhenEnough(s: Runs.State, k: nat, pool: Pool, compactAfter: int, facts: set<nat>)
    requires k !in s.reading && forall r :: r in facts <==> NewFact(s, pool, r)
    ensures MayRead(s, k, pool, compactAfter) <==> pool != User("") && compactAfter > 0 && |facts| >= compactAfter
  {
    var last := Runs.Marker(s, pool);
    assert facts == NewFacts(s.table, pool, last);
    if pool != User("") && compactAfter > 0 && |facts| >= compactAfter {
      assert facts != {};
      var max := LastOf(facts);
      var ids := RowsOf(s.table, pool);
      var rs := SortedRows(s.table, ids);
      var rows := seq(|rs|, n requires 0 <= n < |rs| && rs[n] in s.table =>
        PoolRow(rs[n], s.table[rs[n]].content, s.table[rs[n]].generated));
      ListsRows(s.table, pool, rs, rows);
      var reading := Runs.Reading(pool, last, max, facts, rows);
      hide Listing;
      var t := s.(reading := s.reading[k := reading]);
      assert Runs.Next(s, t, Runs.Event.Read(k, compactAfter, reading));
    }
    if t: Runs.State, reading: Runs.Reading :|
       reading.pool == pool && Runs.Next(s, t, Runs.Event.Read(k, compactAfter, reading)) {
      assert reading.facts == facts;
    }
  }

  lemma ListsRows(table: Table, pool: Pool, rs: seq<nat>, rows: seq<PoolRow>)
    requires forall r :: r in rs <==> r in RowsOf(table, pool)
    requires forall m, n :: 0 <= m < n < |rs| ==> rs[m] in table && rs[n] in table && Older(table, rs[m], rs[n])
    requires |rows| == |rs| && forall n :: 0 <= n < |rs| ==>
               rs[n] in table && rows[n] == PoolRow(rs[n], table[rs[n]].content, table[rs[n]].generated)
    ensures Listing(table, pool, rows)
  {
    forall n | 0 <= n < |rs| ensures rs[n] in RowsOf(table, pool) { assert rs[n] in rs; }
    forall r <- RowsOf(table, pool) ensures exists n :: 0 <= n < |rows| && rows[n].rowid == r {
      var n :| 0 <= n < |rs| && rs[n] == r;
      assert rows[n].rowid == r;
    }
  }

  // ---------------------------------------------------------------- what else happens in a run

  // A forgotten row goes and nothing else changes.
  lemma ForgetExact(s: Runs.State, t: Runs.State, r: nat)
    ensures Runs.Next(s, t, Runs.Event.Forget(r)) <==>
              && t.(table := s.table) == s && r !in t.table
              && (forall q <- s.table :: q != r ==> q in t.table && t.table[q] == s.table[q])
              && forall q <- t.table :: q in s.table
  {
    hide Listing, Applied, Generated;
    if t.(table := s.table) == s && r !in t.table && (forall q <- t.table :: q in s.table)
       && (forall q <- s.table :: q != r ==> q in t.table && t.table[q] == s.table[q]) {
      assert t.table == s.table - {r};
    }
  }

  // A compaction that is given up is in flight no more, and nothing else changes.
  lemma AbandonExact(s: Runs.State, t: Runs.State, k: nat)
    ensures Runs.Next(s, t, Runs.Event.Abandon(k)) <==>
              && k in s.reading && k !in t.reading && t.(reading := s.reading) == s
              && (forall j <- s.reading :: j != k ==> j in t.reading && t.reading[j] == s.reading[j])
              && forall j <- t.reading :: j in s.reading
  {
    hide Listing, Applied, Generated;
    if k !in t.reading && t.(reading := s.reading) == s && (forall j <- t.reading :: j in s.reading)
       && (forall j <- s.reading :: j != k ==> j in t.reading && t.reading[j] == s.reading[j]) {
      assert t.reading == s.reading - {k};
    }
  }

  // One that is committed is in flight no more, and its pool's marker, and no other, is the end of its window.
  lemma CommitCloses(s: Runs.State, t: Runs.State, k: nat, actions: seq<Action>, at: int)
    requires Runs.Next(s, t, Runs.Event.Commit(k, actions, at))
    ensures k in s.reading && k !in t.reading
    ensures forall j <- s.reading :: j != k ==> j in t.reading && t.reading[j] == s.reading[j]
    ensures Runs.Marker(t, s.reading[k].pool) == s.reading[k].max
    ensures forall pool: Pool :: pool != s.reading[k].pool ==> Runs.Marker(t, pool) == Runs.Marker(s, pool)
  {
    hide Applied;
  }

  // Without AUTOINCREMENT a new row comes right after the last one left, or first.
  lemma NextRowExact(table: Table, next: nat)
    ensures Runs.IsNextRowId(table, next) <==>
              if table == map[] then next == 1
              else next >= 1 && next - 1 in table && forall r <- table :: r < next
  {
    if table != map[] {
      var some :| some in table;
      if Runs.IsNextRowId(table, next) && next == 1 { assert some == 0; }
    }
  }
}
