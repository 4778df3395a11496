/** Memory compaction: src/memory/consolidation.ts, with other writers active while the model call is out. */
module Consolidation {
  import opened Text

  datatype Pool = Org | User(principal: string)

  datatype Memory = Memory(pool: Pool, content: string, generated: bool, superseded: Option<string>, createdAt: int)

  type Table = map<nat, Memory>

  // A row as read before the model call.
  datatype PoolRow = PoolRow(rowid: nat, content: string, generated: bool)

  datatype Action = Update(index: nat, text: string) | Delete(index: nat) | Add(text: string)

  predicate InPool(table: Table, pool: Pool, r: nat) {
    r in table && table[r].pool == pool
  }

  function RowsOf(table: Table, pool: Pool): set<nat> {
    set r | r in table && table[r].pool == pool
  }

  function NewFacts(table: Table, pool: Pool, last: nat): set<nat> {
    set r | r in table && table[r].pool == pool && r > last && !table[r].generated
  }

  // MAX(rowid), or the marker itself when there is no new fact.
  predicate IsMaxRowId(facts: set<nat>, last: nat, max: nat) {
    if facts == {} then max == last else max in facts && forall r <- facts :: r <= max
  }

  predicate Distinct(rows: seq<PoolRow>) {
    forall j, k :: 0 <= j < k < |rows| ==> rows[j].rowid != rows[k].rowid
  }

  // The pool's rows, oldest first.
  ghost predicate Listing(table: Table, pool: Pool, rows: seq<PoolRow>) {
    && (forall row <- rows ::
          InPool(table, pool, row.rowid) &&
          row == PoolRow(row.rowid, table[row.rowid].content, table[row.rowid].generated))
    && (forall r <- RowsOf(table, pool) :: exists k :: 0 <= k < |rows| && rows[k].rowid == r)
    && (forall j, k :: 0 <= j < k < |rows| ==>
          var a, b := table[rows[j].rowid].createdAt, table[rows[k].rowid].createdAt;
          a < b || (a == b && rows[j].rowid < rows[k].rowid))
  }

  // ---------------------------------------------------------------- what the actions ask for

  function Deletes(actions: seq<Action>): set<nat> {
    set a | a in actions && a.Delete? :: a.index
  }

  // A later update of the same index replaces an earlier one.
  function Updates(actions: seq<Action>): map<nat, string> {
    if actions == [] then map[]
    else
      var rest, last := Updates(actions[..|actions| - 1]), actions[|actions| - 1];
      if last.Update? then rest[last.index := last.text] else rest
  }

  function Adds(actions: seq<Action>): seq<string> {
    if actions == [] then []
    else
      var rest, last := Adds(actions[..|actions| - 1]), actions[|actions| - 1];
      if last.Add? then rest + [last.text] else rest
  }

  // Indexes are one-based.
  function RowAt(rows: seq<PoolRow>, i: nat): PoolRow
    requires 1 <= i <= |rows|
  {
    rows[i - 1]
  }

  // The index names a row that is still in the pool.
  predicate Names(table: Table, pool: Pool, rows: seq<PoolRow>, i: nat) {
    1 <= i <= |rows| && InPool(table, pool, RowAt(rows, i).rowid)
  }

  // The rows that a set of one-based indexes names and that are still in the pool.
  function Live(table: Table, pool: Pool, rows: seq<PoolRow>, indexes: set<nat>): set<nat> {
    set i | i in indexes && Names(table, pool, rows, i) :: RowAt(rows, i).rowid
  }

  function Removed(table: Table, pool: Pool, rows: seq<PoolRow>, actions: seq<Action>): set<nat> {
    Live(table, pool, rows, Deletes(actions))
  }

  function Changed(table: Table, pool: Pool, rows: seq<PoolRow>, actions: seq<Action>): set<nat> {
    Live(table, pool, rows, Updates(actions).Keys - Deletes(actions))
  }

  // An updated row: the text of the model, and as superseded the content that the model was shown.
  function Rewrite(m: Memory, row: PoolRow, text: string): Memory {
    m.(content := text, superseded := Some(row.content), generated := row.generated)
  }

  function Generated(pool: Pool, text: string, at: int): Memory {
    Memory(pool, text, true, None, at)
  }

  predicate NewRow(lastRow: nat, n: nat, r: nat) {
    lastRow < r <= lastRow + n
  }

  // The table after the actions, row by row; new rows follow `lastRow`.
  ghost predicate Applied(table: Table, after: Table, pool: Pool, rows: seq<PoolRow>, actions: seq<Action>,
          lastRow: nat, at: int)
  {
    var adds := Adds(actions);
    && (forall r :: r in after <==>
        (r in table && r !in Removed(table, pool, rows, actions)) || NewRow(lastRow, |adds|, r))
    && (forall i <- Updates(actions).Keys - Deletes(actions) :: Names(table, pool, rows, i) ==>
          var r := RowAt(rows, i).rowid;
          r in after && after[r] == Rewrite(table[r], RowAt(rows, i), Updates(actions)[i]))
    && (forall r <- after.Keys * table.Keys :: r !in Changed(table, pool, rows, actions) ==> after[r] == table[r])
    && (forall k :: 0 <= k < |adds| ==>
        lastRow + 1 + k in after && after[lastRow + 1 + k] == Generated(pool, adds[k], at))
  }

  // ---------------------------------------------------------------- applyActions

  class Store {
    var table: Table
    var markers: map<Pool, nat>
    var lastRow: nat

    ghost predicate Valid()
      reads this
    {
      forall r <- table :: r <= lastRow
    }

    constructor ()
      ensures Valid() && table == map[] && markers == map[]
    {
      table, markers, lastRow := map[], map[], 0;
    }

    method Collect(actions: seq<Action>) returns (updates: map<nat, string>, deletes: set<nat>, adds: seq<string>)
      ensures updates == Updates(actions) && deletes == Deletes(actions) && adds == Adds(actions)
    {
      updates, deletes, adds := map[], {}, [];
      for k := 0 to |actions|
        invariant updates == Updates(actions[..k]) && deletes == Deletes(actions[..k]) && adds == Adds(actions[..k])
      {
        assert actions[..k + 1][..k] == actions[..k];
        assert actions[..k + 1] == actions[..k] + [actions[k]];
        match actions[k] {
          case Update(i, text) => updates := updates[i := text];
          case Delete(i) => deletes := deletes + {i};
          case Add(text) => adds := adds + [text];
        }
      }
      assert actions[..|actions|] == actions;
    }

    method DeleteRows(pool: Pool, rows: seq<PoolRow>, deletes: set<nat>) returns (applied: nat)
      requires Distinct(rows)
      modifies `table
      ensures table == old(table) - Live(old(table), pool, rows, deletes)
      ensures applied == |Live(old(table), pool, rows, deletes)|
    {
      applied := 0;
      ghost var start, done: set<nat> := table, {};
      var todo := deletes;
      NothingDone(table, pool, rows, map[]);
      while todo != {}
        invariant done == deletes - todo && todo <= deletes
        invariant RowsDeleted(start, table, pool, rows, done, applied)
      {
        hide RowsDeleted;
        var i :| i in todo;
        DeletedOneMore(start, table, pool, rows, done, applied, i);
        if Names(table, pool, rows, i) {
          table := table - {RowAt(rows, i).rowid};
          applied := applied + 1;
        }
        todo, done := todo - {i}, done + {i};
      }
      assert done == deletes;
    }

    method UpdateRows(pool: Pool, rows: seq<PoolRow>, updates: map<nat, string>, deletes: set<nat>)
      returns (applied: nat)
      requires Distinct(rows)
      modifies `table
      ensures RowsUpdated(old(table), table, pool, rows, updates, updates.Keys - deletes, applied)
    {
      applied := 0;
      ghost var start, done: set<nat> := table, {};
      var todo := updates.Keys;
      NothingDone(table, pool, rows, updates);
      while todo != {}
        invariant done == updates.Keys - todo - deletes && todo <= updates.Keys
        invariant RowsUpdated(start, table, pool, rows, updates, done, applied)
      {
        hide RowsUpdated;
        var i :| i in todo;
        todo := todo - {i};
        if i !in deletes {
          if Names(table, pool, rows, i) {
            UpdateHit(start, table, pool, rows, updates, done, applied, i);
            var row := RowAt(rows, i);
            table := table[row.rowid := Rewrite(table[row.rowid], row, updates[i])];
            applied := applied + 1;
          } else {
            UpdateMiss(start, table, pool, rows, updates, done, applied, i);
          }
          done := done + {i};
        }
      }
      assert done == updates.Keys - deletes;
    }

    method InsertRows(pool: Pool, adds: seq<string>, at: int)
      requires Valid()
      modifies `table, `lastRow
      ensures Valid() && lastRow == old(lastRow) + |adds|
      ensures forall r :: r in table <==> r in old(table) || NewRow(old(lastRow), |adds|, r)
      ensures forall r <- old(table) :: table[r] == old(table)[r]
      ensures forall k :: 0 <= k < |adds| ==>
          old(lastRow) + 1 + k in table && table[old(lastRow) + 1 + k] == Generated(pool, adds[k], at)
    {
      for k := 0 to |adds|
        invariant Valid() && lastRow == old(lastRow) + k
        invariant forall r :: r in table <==> r in old(table) || NewRow(old(lastRow), k, r)
        invariant forall r <- old(table) :: table[r] == old(table)[r]
        invariant forall j :: 0 <= j < k ==> table[old(lastRow) + 1 + j] == Generated(pool, adds[j], at)
      {
        lastRow := lastRow + 1;
        table := table[lastRow := Generated(pool, adds[k], at)];
      }
    }

    method ApplyActions(pool: Pool, rows: seq<PoolRow>, actions: seq<Action>, marker: nat, at: int)
      returns (applied: nat)
      requires Valid() && Distinct(rows)
      modifies this
      ensures Valid() && lastRow == old(lastRow) + |Adds(actions)|
      ensures Applied(old(table), table, pool, rows, actions, old(lastRow), at)
      ensures applied == |Removed(old(table), pool, rows, actions)| + |Changed(old(table), pool, rows, actions)| +
          |Adds(actions)|
      ensures markers == old(markers)[pool := marker]
    {
      var updates, deletes, adds := Collect(actions);
      applied := DeleteRows(pool, rows, deletes);
      ghost var kept := table;
      var more := UpdateRows(pool, rows, updates, deletes);
      ghost var changed := table;
      LiveAfterDeletes(old(table), pool, rows, deletes, updates.Keys - deletes);
      InsertRows(pool, adds, at);
      AppliedInSteps(old(table), kept, changed, table, pool, rows, actions, old(lastRow), at);
      applied := applied + more + |adds|;
      markers := markers[pool := marker];
    }
  }

  lemma LiveOneMore(table: Table, pool: Pool, rows: seq<PoolRow>, done: set<nat>, i: nat)
    requires Distinct(rows)
    ensures Live(table, pool, rows, done + {i}) ==
        Live(table, pool, rows, done) + (if Names(table, pool, rows, i) then {RowAt(rows, i).rowid} else {})
    ensures 1 <= i <= |rows| && i !in done ==> RowAt(rows, i).rowid !in Live(table, pool, rows, done)
    ensures forall j <- done :: Names(table, pool, rows, j) ==> RowAt(rows, j).rowid in Live(table, pool, rows, done)
  {
    var live := Live(table, pool, rows, done);
    forall r | r in live ensures r in Live(table, pool, rows, done + {i}) {
      var j :| j in done && Names(table, pool, rows, j) && RowAt(rows, j).rowid == r;
      assert j in done + {i};
    }
    if Names(table, pool, rows, i) {
      assert i in done + {i};
    }
  }

  // The table with the deletes of the indexes in `done` carried out, and how many took effect.
  predicate RowsDeleted(table: Table, after: Table, pool: Pool, rows: seq<PoolRow>, done: set<nat>, applied: nat) {
    after == table - Live(table, pool, rows, done) && applied == |Live(table, pool, rows, done)|
  }

  // The same for the updates.
  predicate RowsUpdated(table: Table, after: Table, pool: Pool, rows: seq<PoolRow>, updates: map<nat, string>,
          done: set<nat>, applied: nat)
  {
    && done <= updates.Keys && after.Keys == table.Keys && applied == |Live(table, pool, rows, done)|
    && (forall i <- done :: Names(table, pool, rows, i) ==>
          var r := RowAt(rows, i).rowid; after[r] == Rewrite(table[r], RowAt(rows, i), updates[i]))
    && (forall r <- table :: r !in Live(table, pool, rows, done) ==> after[r] == table[r])
  }

  lemma NothingDone(table: Table, pool: Pool, rows: seq<PoolRow>, updates: map<nat, string>)
    ensures RowsDeleted(table, table, pool, rows, {}, 0) && RowsUpdated(table, table, pool, rows, updates, {}, 0)
  {
    assert Live(table, pool, rows, {}) == {};
  }

  lemma DeletedOneMore(table: Table, before: Table, pool: Pool, rows: seq<PoolRow>, done: set<nat>, applied: nat,
          i: nat)
    requires Distinct(rows) && RowsDeleted(table, before, pool, rows, done, applied) && i !in done
    ensures if Names(before, pool, rows, i) then
              RowsDeleted(table, before - {RowAt(rows, i).rowid}, pool, rows, done + {i}, applied + 1)
            else RowsDeleted(table, before, pool, rows, done + {i}, applied)
  {
    LiveOneMore(table, pool, rows, done, i);
    hide Live, Distinct, RowAt;
    var live := Live(table, pool, rows, done);
    assert Names(before, pool, rows, i) <==> Names(table, pool, rows, i);
    if Names(before, pool, rows, i) {
      DropOneMore(table, live, RowAt(rows, i).rowid);
    }
  }

  lemma DropOneMore(table: Table, live: set<nat>, r: nat)
    requires r !in live
    ensures table - (live + {r}) == (table - live) - {r} && |live + {r}| == |live| + 1
  {
  }

  lemma UpdateHit(table: Table, before: Table, pool: Pool, rows: seq<PoolRow>, updates: map<nat, string>,
          done: set<nat>, applied: nat, i: nat)
    requires Distinct(rows) && i in updates && i !in done &&
        RowsUpdated(table, before, pool, rows, updates, done, applied)
    requires Names(before, pool, rows, i)
    ensures RowsUpdated(table,
        before[RowAt(rows, i).rowid := Rewrite(before[RowAt(rows, i).rowid], RowAt(rows, i), updates[i])],
                        pool, rows, updates, done + {i}, applied + 1)
  {
    LiveOneMore(table, pool, rows, done, i);
    UpdateKeepsPool(table, before, pool, rows, updates, done, applied);
    hide RowsUpdated, Live, Distinct, Rewrite;
    UpdateOne(table, before, pool, rows, updates, done, applied, i);
  }

  lemma UpdateMiss(table: Table, before: Table, pool: Pool, rows: seq<PoolRow>, updates: map<nat, string>,
          done: set<nat>, applied: nat, i: nat)
    requires Distinct(rows) && i in updates && i !in done &&
        RowsUpdated(table, before, pool, rows, updates, done, applied)
    requires !Names(before, pool, rows, i)
    ensures RowsUpdated(table, before, pool, rows, updates, done + {i}, applied)
  {
    LiveOneMore(table, pool, rows, done, i);
    UpdateKeepsPool(table, before, pool, rows, updates, done, applied);
    assert !Names(table, pool, rows, i);
    SkipOne(table, before, pool, rows, updates, done, applied, i);
  }

  lemma SkipOne(table: Table, before: Table, pool: Pool, rows: seq<PoolRow>, updates: map<nat, string>, done: set<nat>,
                applied: nat, i: nat)
    requires i in updates && RowsUpdated(table, before, pool, rows, updates, done, applied)
    requires !Names(table, pool, rows, i) && Live(table, pool, rows, done + {i}) == Live(table, pool, rows, done)
    ensures RowsUpdated(table, before, pool, rows, updates, done + {i}, applied)
  {
    hide Live, RowAt, Rewrite;
    forall j <- done + {i} | Names(table, pool, rows, j)
      ensures before[RowAt(rows, j).rowid] == Rewrite(table[RowAt(rows, j).rowid], RowAt(rows, j), updates[j])
    {
      assert j in done;
    }
  }

  lemma UpdateOne(table: Table, before: Table, pool: Pool, rows: seq<PoolRow>, updates: map<nat, string>,
          done: set<nat>, applied: nat, i: nat)
    requires i in updates && i !in done && RowsUpdated(table, before, pool, rows, updates, done, applied)
    requires Names(table, pool, rows, i) && RowAt(rows, i).rowid !in Live(table, pool, rows, done)
    requires Live(table, pool, rows, done + {i}) == Live(table, pool, rows, done) + {RowAt(rows, i).rowid}
    requires forall j <- done :: Names(table, pool, rows, j) ==> RowAt(rows, j).rowid in Live(table, pool, rows, done)
    ensures RowsUpdated(table,
        before[RowAt(rows, i).rowid := Rewrite(before[RowAt(rows, i).rowid], RowAt(rows, i), updates[i])],
                        pool, rows, updates, done + {i}, applied + 1)
  {
    hide Live, RowAt, Rewrite;
    var live, row := Live(table, pool, rows, done), RowAt(rows, i);
    var after := before[row.rowid := Rewrite(before[row.rowid], row, updates[i])];
    assert before[row.rowid] == table[row.rowid];
    assert after.Keys == table.Keys;
    assert |live + {row.rowid}| == |live| + 1;
    forall j <- done + {i} | Names(table, pool, rows, j)
      ensures after[RowAt(rows, j).rowid] == Rewrite(table[RowAt(rows, j).rowid], RowAt(rows, j), updates[j])
    {
      if j != i { assert j in done && RowAt(rows, j).rowid in live; }
    }
  }

  lemma UpdateKeepsPool(table: Table, after: Table, pool: Pool, rows: seq<PoolRow>, updates: map<nat, string>,
          done: set<nat>, applied: nat)
    requires RowsUpdated(table, after, pool, rows, updates, done, applied)
    ensures forall i :: Names(after, pool, rows, i) <==> Names(table, pool, rows, i)
  {
    forall r <- table ensures after[r].pool == table[r].pool {
      if r in Live(table, pool, rows, done) {
        var i :| i in done && Names(table, pool, rows, i) && RowAt(rows, i).rowid == r;
      }
    }
  }

  lemma StillThere(table: Table, pool: Pool, rows: seq<PoolRow>, deletes: set<nat>, i: nat)
    requires Distinct(rows) && 1 <= i <= |rows| && i !in deletes
    ensures InPool(table - Live(table, pool, rows, deletes), pool, RowAt(rows, i).rowid) <==>
        InPool(table, pool, RowAt(rows, i).rowid)
  {
    LiveOneMore(table, pool, rows, deletes, i);
  }

  // A row that no delete removed is still there for the updates.
  lemma LiveAfterDeletes(table: Table, pool: Pool, rows: seq<PoolRow>, deletes: set<nat>, updates: set<nat>)
    requires Distinct(rows) && deletes !! updates
    ensures Live(table - Live(table, pool, rows, deletes), pool, rows, updates) == Live(table, pool, rows, updates)
  {
    var kept := table - Live(table, pool, rows, deletes);
    forall i | i in updates && 1 <= i <= |rows|
      ensures InPool(kept, pool, RowAt(rows, i).rowid) <==> InPool(table, pool, RowAt(rows, i).rowid)
    {
      StillThere(table, pool, rows, deletes, i);
    }
  }

  lemma AppliedInSteps(table: Table, kept: Table, changed: Table, after: Table, pool: Pool, rows: seq<PoolRow>,
                       actions: seq<Action>, lastRow: nat, at: int)
    requires Distinct(rows) && forall r <- table :: r <= lastRow
    requires kept == table - Removed(table, pool, rows, actions)
    requires RowsUpdated(kept, changed, pool, rows, Updates(actions), Updates(actions).Keys - Deletes(actions),
                         |Changed(kept, pool, rows, actions)|)
    requires forall r :: r in after <==> r in changed || NewRow(lastRow, |Adds(actions)|, r)
    requires forall r <- changed :: after[r] == changed[r]
    requires forall k :: 0 <= k < |Adds(actions)| ==>
        lastRow + 1 + k in after && after[lastRow + 1 + k] == Generated(pool, Adds(actions)[k], at)
    ensures Applied(table, after, pool, rows, actions, lastRow, at)
  {
    var updates, indexes := Updates(actions), Updates(actions).Keys - Deletes(actions);
    LiveAfterDeletes(table, pool, rows, Deletes(actions), indexes);
    hide Updates, Adds, Deletes, Live, RowAt, Distinct, Rewrite, Generated;
    forall i <- indexes | Names(table, pool, rows, i)
      ensures var r := RowAt(rows, i).rowid; r in after && after[r] == Rewrite(table[r], RowAt(rows, i), updates[i])
    {
      StillThere(table, pool, rows, Deletes(actions), i);
    }
  }
}
