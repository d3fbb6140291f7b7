/**
 * The daily clean-up of the main tables (internal/store/retention.go): rows in 0 < ts < cutoff go in
 * batches, lowest ids first, and between two batches the writer commits whatever has queued up.
 *
 * A script says what the surroundings do: in each round the context may be cancelled, the DELETE may
 * fail, or rows arrive in any table while the loop yields. After the script nothing arrives.
 */
module Retention {
  import opened Wrappers

  datatype Row = Row(id: int, ts: int, data: int)

  /** A table in id order, and a record of every row committed to it so far. */
  datatype Table = Table(rows: seq<Row>, arrived: seq<Row>)

  datatype Arrival = Arrival(table: nat, ts: int, data: int)

  datatype Turn = Stops | Breaks | Yields(arrivals: seq<Arrival>)

  datatype Status = Done | Cancelled | Failed

  datatype Outcome = Outcome(db: seq<Table>, total: nat, status: Status, script: seq<Turn>)

  predicate InRange(cutoff: int, r: Row) { 0 < r.ts < cutoff }

  /** The rows the clean-up must leave alone. */
  function Keep(cutoff: int, rows: seq<Row>): (kept: seq<Row>)
    ensures |kept| <= |rows|
  {
    if rows == [] then [] else
      (if InRange(cutoff, rows[0]) then [] else [rows[0]]) + Keep(cutoff, rows[1..])
  }

  /** One DELETE: the first rows in range go, as many as the limit says; a negative limit is none. */
  function Cut(cutoff: int, limit: int, rows: seq<Row>): (left: seq<Row>)
    ensures |left| <= |rows|
    decreases |rows|
  {
    if rows == [] || limit == 0 then rows
    else if InRange(cutoff, rows[0]) then Cut(cutoff, limit - 1, rows[1..])
    else [rows[0]] + Cut(cutoff, limit, rows[1..])
  }

  /** INTEGER PRIMARY KEY: one more than the largest id in the table. */
  function NextId(rows: seq<Row>): int {
    if rows == [] then 1 else rows[|rows| - 1].id + 1
  }

  function Insert(t: Table, ts: int, data: int): Table {
    var r := Row(NextId(t.rows), ts, data);
    Table(t.rows + [r], t.arrived + [r])
  }

  function Commit(db: seq<Table>, arrivals: seq<Arrival>): (r: seq<Table>)
    ensures |r| == |db|
    decreases |arrivals|
  {
    if arrivals == [] then db else
      var a := arrivals[0];
      Commit(if a.table < |db| then db[a.table := Insert(db[a.table], a.ts, a.data)] else db, arrivals[1..])
  }

  function Arrivals(script: seq<Turn>): seq<Arrival> {
    if script != [] && script[0].Yields? then script[0].arrivals else []
  }

  function Later(script: seq<Turn>): (rest: seq<Turn>)
    ensures script != [] ==> |rest| == |script| - 1
  {
    if script == [] then [] else script[1..]
  }

  /** cleanupTable */
  function Clean(db: seq<Table>, t: nat, cutoff: int, batch: int, script: seq<Turn>): (o: Outcome)
    requires t < |db|
    ensures |o.db| == |db|
    decreases |script|, |db[t].rows|
  {
    if script != [] && script[0].Stops? then Outcome(db, 0, Cancelled, Later(script))
    else if script != [] && script[0].Breaks? then Outcome(db, 0, Failed, Later(script))
    else
      var left := Cut(cutoff, batch, db[t].rows);
      var n := |db[t].rows| - |left|;
      if n == 0 then Outcome(db, 0, Done, Later(script)) else
        var o := Clean(Commit(db[t := db[t].(rows := left)], Arrivals(script)), t, cutoff, batch, Later(script));
        o.(total := n + o.total)
  }

  // ---------------------------------------------------------------- what the clean-up is to keep

  /** The rows but those with 0 < ts < cutoff, each as often as before, in the order before. */
  ghost predicate IsKept(cutoff: int, kept: seq<Row>, rows: seq<Row>) {
    && (forall r :: multiset(kept)[r] == if 0 < r.ts < cutoff then 0 else multiset(rows)[r])
    && exists at :: Picks(kept, rows, at)
  }

  predicate NoneInRange(cutoff: int, rows: seq<Row>) {
    forall i :: 0 <= i < |rows| ==> !(0 < rows[i].ts < cutoff)
  }

  lemma {:induction false} KeepCounts(cutoff: int, rows: seq<Row>, r: Row)
    ensures multiset(Keep(cutoff, rows))[r] == if 0 < r.ts < cutoff then 0 else multiset(rows)[r]
  {
    if rows != [] {
      KeepCounts(cutoff, rows[1..], r);
      assert rows == [rows[0]] + rows[1..];
      var rest := Keep(cutoff, rows[1..]);
      assert [] + rest == rest;
    }
  }

  lemma {:induction false} KeepPicks(cutoff: int, rows: seq<Row>) returns (at: seq<nat>)
    ensures Picks(Keep(cutoff, rows), rows, at)
  {
    if rows == [] {
      at := [];
    } else {
      var rest := Keep(cutoff, rows[1..]);
      var before := KeepPicks(cutoff, rows[1..]);
      hide Picks;
      var moved := PicksLater(rest, rows, before);
      if InRange(cutoff, rows[0]) {
        assert [] + rest == rest;
        at := moved;
      } else {
        PicksFirst(rest, rows, moved);
        at := [0] + moved;
      }
    }
  }

  /** The filter by which the clean-up is judged keeps exactly the rows outside 0 < ts < cutoff, in order. */
  lemma KeepExact(cutoff: int, rows: seq<Row>)
    ensures IsKept(cutoff, Keep(cutoff, rows), rows)
    ensures Keep(cutoff, rows) == rows <==> NoneInRange(cutoff, rows)
  {
    forall r ensures multiset(Keep(cutoff, rows))[r] == if 0 < r.ts < cutoff then 0 else multiset(rows)[r] {
      KeepCounts(cutoff, rows, r);
    }
    var at := KeepPicks(cutoff, rows);
    KeepsAll(cutoff, rows);
  }

  lemma {:induction false} KeepsAll(cutoff: int, rows: seq<Row>)
    ensures Keep(cutoff, rows) == rows <==> NoneInRange(cutoff, rows)
  {
    if rows != [] {
      var rest := rows[1..];
      KeepsAll(cutoff, rest);
      assert forall i :: 0 <= i < |rest| ==> rest[i] == rows[i + 1];
      assert [rows[0]] + rest == rows;
      if InRange(cutoff, rows[0]) {
        assert |Keep(cutoff, rows)| < |rows|;
      } else {
        assert Keep(cutoff, rows) == [rows[0]] + Keep(cutoff, rest);
        assert Keep(cutoff, rows)[1..] == Keep(cutoff, rest);
      }
    }
  }

  // ---------------------------------------------------------------- one batch

  lemma {:induction false} KeepSplit(cutoff: int, a: seq<Row>, b: seq<Row>)
    ensures Keep(cutoff, a + b) == Keep(cutoff, a) + Keep(cutoff, b)
  {
    if a == [] {
      assert a + b == b;
    } else {
      assert (a + b)[1..] == a[1..] + b;
      KeepSplit(cutoff, a[1..], b);
    }
  }

  lemma {:induction false} CutKeeps(cutoff: int, limit: int, rows: seq<Row>)
    ensures Keep(cutoff, Cut(cutoff, limit, rows)) == Keep(cutoff, rows)
    decreases |rows|
  {
    if rows != [] && limit != 0 {
      CutKeeps(cutoff, if InRange(cutoff, rows[0]) then limit - 1 else limit, rows[1..]);
    }
  }

  /** A batch that removes nothing found nothing, unless batches are empty. */
  lemma {:induction false} CutNothing(cutoff: int, limit: int, rows: seq<Row>)
    requires limit != 0 && |Cut(cutoff, limit, rows)| == |rows|
    ensures Keep(cutoff, rows) == rows
  {
    if rows != [] {
      CutNothing(cutoff, limit, rows[1..]);
    }
  }

  lemma {:induction false} CutSame(cutoff: int, limit: int, rows: seq<Row>)
    requires |Cut(cutoff, limit, rows)| == |rows|
    ensures Cut(cutoff, limit, rows) == rows
    decreases |rows|
  {
    if rows != [] && limit != 0 && !InRange(cutoff, rows[0]) {
      CutSame(cutoff, limit, rows[1..]);
    }
  }

  predicate Ascending(rows: seq<Row>) { forall i, j :: 0 <= i < j < |rows| ==> rows[i].id < rows[j].id }

  /** In a table in id order the batch takes the lowest ids: what it takes is below what it leaves. */
  lemma {:induction false} CutTakesLowest(cutoff: int, limit: int, rows: seq<Row>, taken: Row, left: Row)
    requires Ascending(rows) && taken in rows && taken !in Cut(cutoff, limit, rows)
    requires left in Cut(cutoff, limit, rows) && InRange(cutoff, left)
    ensures InRange(cutoff, taken) && taken.id < left.id
    decreases |rows|
  {
    CutSubset(cutoff, limit, rows, left);
    if InRange(cutoff, rows[0]) {
      if taken != rows[0] {
        CutTakesLowest(cutoff, limit - 1, rows[1..], taken, left);
      } else {
        CutSubset(cutoff, limit - 1, rows[1..], left);
      }
    } else {
      CutTakesLowest(cutoff, limit, rows[1..], taken, left);
    }
  }

  lemma {:induction false} CutSubset(cutoff: int, limit: int, rows: seq<Row>, r: Row)
    requires r in Cut(cutoff, limit, rows)
    ensures r in rows
    decreases |rows|
  {
    if rows != [] && limit != 0 {
      if InRange(cutoff, rows[0]) {
        CutSubset(cutoff, limit - 1, rows[1..], r);
      } else if r != rows[0] {
        CutSubset(cutoff, limit, rows[1..], r);
      }
    }
  }

  lemma {:induction false} CutAscending(cutoff: int, limit: int, rows: seq<Row>)
    requires Ascending(rows)
    ensures Ascending(Cut(cutoff, limit, rows))
    decreases |rows|
  {
    if rows != [] && limit != 0 {
      var deeper := if InRange(cutoff, rows[0]) then limit - 1 else limit;
      CutAscending(cutoff, deeper, rows[1..]);
      var left := Cut(cutoff, deeper, rows[1..]);
      forall i | 0 <= i < |left| ensures rows[0].id < left[i].id {
        CutSubset(cutoff, deeper, rows[1..], left[i]);
      }
    }
  }

  // ---------------------------------------------------------------- what becomes of a table

  /** The rows committed to a table between two moments. */
  function Since(a: Table, b: Table): seq<Row> {
    if |a.arrived| <= |b.arrived| then b.arrived[|a.arrived|..] else []
  }

  /** Rows were only added, at the end. */
  predicate Grown(a: Table, b: Table) {
    a.arrived <= b.arrived && b.rows == a.rows + Since(a, b)
  }

  /** Rows were added, and none outside the range was lost or moved. */
  predicate Kept(cutoff: int, a: Table, b: Table) {
    a.arrived <= b.arrived && Keep(cutoff, b.rows) == Keep(cutoff, a.rows) + Keep(cutoff, Since(a, b))
  }

  lemma GrownThen(a: Table, b: Table, c: Table)
    requires Grown(a, b) && Grown(b, c)
    ensures Grown(a, c)
  {
  }

  lemma GrownKeeps(cutoff: int, a: Table, b: Table)
    requires Grown(a, b)
    ensures Kept(cutoff, a, b)
  {
    KeepSplit(cutoff, a.rows, Since(a, b));
  }

  lemma KeptThen(cutoff: int, a: Table, b: Table, c: Table)
    requires Kept(cutoff, a, b) && Kept(cutoff, b, c)
    ensures Kept(cutoff, a, c)
  {
    hide Keep;
    var ab, bc := Since(a, b), Since(b, c);
    assert c.arrived == a.arrived + (ab + bc);
    assert Since(a, c) == ab + bc;
    calc {
      Keep(cutoff, c.rows);
      Keep(cutoff, a.rows) + Keep(cutoff, ab) + Keep(cutoff, bc);
      Keep(cutoff, a.rows) + (Keep(cutoff, ab) + Keep(cutoff, bc));
      { KeepSplit(cutoff, ab, bc); }
      Keep(cutoff, a.rows) + Keep(cutoff, ab + bc);
    }
  }

  lemma {:induction false} CommitGrows(db: seq<Table>, arrivals: seq<Arrival>, u: nat)
    requires u < |db|
    ensures Grown(db[u], Commit(db, arrivals)[u])
    decreases |arrivals|
  {
    if arrivals != [] {
      var a := arrivals[0];
      var next := if a.table < |db| then db[a.table := Insert(db[a.table], a.ts, a.data)] else db;
      assert Grown(db[u], next[u]);
      CommitGrows(next, arrivals[1..], u);
      GrownThen(db[u], next[u], Commit(db, arrivals)[u]);
    }
  }

  /**
   * Whatever happens meanwhile, cleaning a table loses no row outside the range, neither an old one
   * nor one that arrived between the batches, and only ever adds to the other tables.
   */
  lemma {:induction false} CleanKeeps(db: seq<Table>, t: nat, cutoff: int, batch: int, script: seq<Turn>, u: nat)
    requires t < |db| && u < |db|
    ensures var o := Clean(db, t, cutoff, batch, script);
      if u == t then Kept(cutoff, db[u], o.db[u]) else Grown(db[u], o.db[u])
    decreases |script|, |db[t].rows|
  {
    hide Kept, Grown;
    var o := Clean(db, t, cutoff, batch, script);
    Unchanged(cutoff, db[u]);
    if script == [] || script[0].Yields? {
      var left := Cut(cutoff, batch, db[t].rows);
      if |left| < |db[t].rows| {
        var cut := db[t := db[t].(rows := left)];
        var next := Commit(cut, Arrivals(script));
        CommitGrows(cut, Arrivals(script), u);
        CleanKeeps(next, t, cutoff, batch, Later(script), u);
        if u == t {
          CutIsKept(cutoff, batch, db[t]);
          GrownKeeps(cutoff, cut[u], next[u]);
          KeptThen(cutoff, cut[u], next[u], o.db[u]);
          KeptThen(cutoff, db[u], cut[u], o.db[u]);
        } else {
          GrownThen(db[u], next[u], o.db[u]);
        }
      }
    }
  }

  lemma Unchanged(cutoff: int, a: Table)
    ensures Grown(a, a) && Kept(cutoff, a, a)
  {
  }

  lemma CutIsKept(cutoff: int, batch: int, a: Table)
    ensures Kept(cutoff, a, a.(rows := Cut(cutoff, batch, a.rows)))
  {
    CutKeeps(cutoff, batch, a.rows);
    assert Since(a, a) == [];
  }

  /** Spelled out: of every row outside 0 < ts < cutoff the cleaned table has as many as it had and got. */
  lemma CleanSpares(db: seq<Table>, t: nat, cutoff: int, batch: int, script: seq<Turn>, r: Row)
    requires t < |db| && !(0 < r.ts < cutoff)
    ensures var after := Clean(db, t, cutoff, batch, script).db[t];
      multiset(after.rows)[r] == multiset(db[t].rows)[r] + multiset(Since(db[t], after))[r]
  {
    var after := Clean(db, t, cutoff, batch, script).db[t];
    CleanKeeps(db, t, cutoff, batch, script, t);
    KeepCounts(cutoff, after.rows, r);
    KeepCounts(cutoff, db[t].rows, r);
    KeepCounts(cutoff, Since(db[t], after), r);
  }

  /** The arrivals meant for a table, in order. */
  function For(arrivals: seq<Arrival>, u: nat): seq<Arrival> {
    if arrivals == [] then []
    else (if arrivals[0].table == u then [arrivals[0]] else []) + For(arrivals[1..], u)
  }

  /** The rows are the arrivals, one for one, with successive ids from the given one. */
  predicate Hold(rows: seq<Row>, arrivals: seq<Arrival>, first: int) {
    && |rows| == |arrivals|
    && forall i :: 0 <= i < |rows| ==>
         rows[i] == Row(first + i, arrivals[i].ts, arrivals[i].data)
  }

  /** What a yield commits to a table is what has queued up for it, in order, with successive ids. */
  lemma {:induction false} CommitExact(db: seq<Table>, arrivals: seq<Arrival>, u: nat)
    requires u < |db|
    ensures var after := Commit(db, arrivals)[u];
      && Grown(db[u], after)
      && Hold(Since(db[u], after), For(arrivals, u), NextId(db[u].rows))
    decreases |arrivals|
  {
    if arrivals != [] {
      var a := arrivals[0];
      var next := if a.table < |db| then db[a.table := Insert(db[a.table], a.ts, a.data)] else db;
      CommitExact(next, arrivals[1..], u);
      assert Commit(db, arrivals) == Commit(next, arrivals[1..]);
      var after := Commit(db, arrivals)[u];
      hide Commit, Grown, Hold;
      if a.table == u {
        assert next[u] == Insert(db[u], a.ts, a.data);
        FirstHolds(db[u], a, after, For(arrivals[1..], u));
      } else {
        assert next[u] == db[u] && [] + For(arrivals[1..], u) == For(arrivals[1..], u);
      }
    }
  }

  lemma FirstHolds(t: Table, a: Arrival, after: Table, rest: seq<Arrival>)
    requires var next := Insert(t, a.ts, a.data);
      Grown(next, after) && Hold(Since(next, after), rest, NextId(next.rows))
    ensures Grown(t, after) && Hold(Since(t, after), [a] + rest, NextId(t.rows))
  {
    var next := Insert(t, a.ts, a.data);
    assert Since(t, after) == [Row(NextId(t.rows), a.ts, a.data)] + Since(next, after);
  }

  /** The number reported is the number of rows removed: rows before and since, less the rows left. */
  lemma {:induction false} CleanCounts(db: seq<Table>, t: nat, cutoff: int, batch: int, script: seq<Turn>)
    requires t < |db|
    ensures var o := Clean(db, t, cutoff, batch, script);
      o.total + |o.db[t].rows| - |o.db[t].arrived| == |db[t].rows| - |db[t].arrived|
    decreases |script|, |db[t].rows|
  {
    if script == [] || script[0].Yields? {
      var left := Cut(cutoff, batch, db[t].rows);
      if |left| < |db[t].rows| {
        var cut := db[t := db[t].(rows := left)];
        CommitGrows(cut, Arrivals(script), t);
        CleanCounts(Commit(cut, Arrivals(script)), t, cutoff, batch, Later(script));
      }
    }
  }

  lemma {:induction false} CleanLeavesNone(db: seq<Table>, t: nat, cutoff: int, batch: int, script: seq<Turn>)
    requires t < |db| && batch != 0
    ensures var o := Clean(db, t, cutoff, batch, script);
      o.status == Done ==> Keep(cutoff, o.db[t].rows) == o.db[t].rows
    decreases |script|, |db[t].rows|
  {
    if script == [] || script[0].Yields? {
      var left := Cut(cutoff, batch, db[t].rows);
      if |left| < |db[t].rows| {
        CleanLeavesNone(Commit(db[t := db[t].(rows := left)], Arrivals(script)), t, cutoff, batch, Later(script));
      } else {
        CutNothing(cutoff, batch, db[t].rows);
      }
    }
  }

  /** A normal return means no row in range is left exactly when batches are not empty, or none was there. */
  lemma DoneLeavesNoneExactly(db: seq<Table>, t: nat, cutoff: int, batch: int, script: seq<Turn>)
    requires t < |db| && Clean(db, t, cutoff, batch, script).status == Done
    ensures var rows := Clean(db, t, cutoff, batch, script).db[t].rows;
      NoneInRange(cutoff, rows) <==> batch != 0 || NoneInRange(cutoff, db[t].rows)
  {
    KeepExact(cutoff, db[t].rows);
    KeepExact(cutoff, Clean(db, t, cutoff, batch, script).db[t].rows);
    if batch != 0 {
      CleanLeavesNone(db, t, cutoff, batch, script);
    }
  }

  /** Rows stay in id order, so that taking the first rows in range is taking the lowest ids. */
  lemma {:induction false} CommitAscending(db: seq<Table>, arrivals: seq<Arrival>, u: nat)
    requires u < |db| && Ascending(db[u].rows)
    ensures Ascending(Commit(db, arrivals)[u].rows)
    decreases |arrivals|
  {
    if arrivals != [] {
      var a := arrivals[0];
      var next := if a.table < |db| then db[a.table := Insert(db[a.table], a.ts, a.data)] else db;
      CommitAscending(next, arrivals[1..], u);
    }
  }

  lemma {:induction false} CleanAscending(db: seq<Table>, t: nat, cutoff: int, batch: int, script: seq<Turn>, u: nat)
    requires t < |db| && u < |db| && Ascending(db[u].rows)
    ensures Ascending(Clean(db, t, cutoff, batch, script).db[u].rows)
    decreases |script|, |db[t].rows|
  {
    if script == [] || script[0].Yields? {
      var left := Cut(cutoff, batch, db[t].rows);
      if |left| < |db[t].rows| {
        var cut := db[t := db[t].(rows := left)];
        if u == t {
          CutAscending(cutoff, batch, db[t].rows);
        }
        CommitAscending(cut, Arrivals(script), u);
        CleanAscending(Commit(cut, Arrivals(script)), t, cutoff, batch, Later(script), u);
      }
    }
  }

  /** Undisturbed, the batches together are one filter, and the sum of their counts is what it removes. */
  lemma CleanIsOneFilter(db: seq<Table>, t: nat, cutoff: int, batch: int)
    requires t < |db| && batch != 0
    ensures Clean(db, t, cutoff, batch, []) ==
      Outcome(db[t := db[t].(rows := Keep(cutoff, db[t].rows))],
              |db[t].rows| - |Keep(cutoff, db[t].rows)|, Done, [])
  {
    Undisturbed(db, t, cutoff, batch);
    CleanLeavesNone(db, t, cutoff, batch, []);
    CleanKeeps(db, t, cutoff, batch, [], t);
    CleanCounts(db, t, cutoff, batch, []);
    var o := Clean(db, t, cutoff, batch, []);
    assert Since(db[t], o.db[t]) == [];
    assert o.db[t].rows == Keep(cutoff, db[t].rows);
    assert o.db[t] == db[t].(rows := Keep(cutoff, db[t].rows));
  }

  lemma {:induction false} Undisturbed(db: seq<Table>, t: nat, cutoff: int, batch: int)
    requires t < |db|
    ensures var o := Clean(db, t, cutoff, batch, []);
      && o.status == Done && o.script == []
      && o.db[t].arrived == db[t].arrived
      && o.db == db[t := o.db[t]]
    decreases |db[t].rows|
  {
    var left := Cut(cutoff, batch, db[t].rows);
    if |left| < |db[t].rows| {
      Undisturbed(db[t := db[t].(rows := left)], t, cutoff, batch);
    }
  }

  /** Why a clean-up ended: it was cancelled or failed only where the surroundings say so. */
  lemma {:induction false} StatusIsReason(db: seq<Table>, t: nat, cutoff: int, batch: int, script: seq<Turn>)
    requires t < |db|
    ensures var o := Clean(db, t, cutoff, batch, script);
      && (o.status == Cancelled ==> Stops in script) && (o.status == Failed ==> Breaks in script)
      && (script != [] && script[0].Stops? ==> o.status == Cancelled && o.db == db)
      && (script != [] && script[0].Breaks? ==> o.status == Failed && o.db == db)
    decreases |script|, |db[t].rows|
  {
    if script == [] || script[0].Yields? {
      var left := Cut(cutoff, batch, db[t].rows);
      if |left| < |db[t].rows| {
        var next := Commit(db[t := db[t].(rows := left)], Arrivals(script));
        CommitGrows(db[t := db[t].(rows := left)], Arrivals(script), t);
        StatusIsReason(next, t, cutoff, batch, Later(script));
      }
    }
  }

  /** A later cutoff filters what an earlier one left as it filters the whole. */
  lemma {:induction false} LaterCutoff(early: int, late: int, rows: seq<Row>)
    requires early <= late
    ensures Keep(late, Keep(early, rows)) == Keep(late, rows)
  {
    if rows != [] {
      LaterCutoff(early, late, rows[1..]);
      if !InRange(early, rows[0]) {
        assert Keep(early, rows) == [rows[0]] + Keep(early, rows[1..]);
        assert Keep(early, rows)[1..] == Keep(early, rows[1..]);
      } else {
        assert Keep(early, rows) == Keep(early, rows[1..]);
        assert Keep(late, rows) == Keep(late, rows[1..]);
      }
    }
  }

  /**
   * A clean-up that was cancelled or failed anywhere is made good by a later one: together they leave
   * the filtered table, with everything that arrived, and together they count what was removed.
   */
  lemma ResumingFinishes(db: seq<Table>, t: nat, early: int, late: int, batch: int, script: seq<Turn>)
    requires t < |db| && batch != 0 && early <= late
    ensures var o := Clean(db, t, early, batch, script);
      var again := Clean(o.db, t, late, batch, []);
      var all := db[t].rows + Since(db[t], o.db[t]);
      && again.status == Done
      && again.db[t].rows == Keep(late, all)
      && o.total + again.total == |all| - |Keep(late, all)|
  {
    var o := Clean(db, t, early, batch, script);
    var arrived := Since(db[t], o.db[t]);
    CleanKeeps(db, t, early, batch, script, t);
    CleanCounts(db, t, early, batch, script);
    CleanIsOneFilter(o.db, t, late, batch);
    KeepSplit(early, db[t].rows, arrived);
    LaterCutoff(early, late, o.db[t].rows);
    LaterCutoff(early, late, db[t].rows + arrived);
  }
}
