/** One daily round of retention: the event tables, the credentials, the record (internal/store/retention.go). */
module RetentionRound {
  import opened Wrappers
  import opened Retention

  /** A cutoff of None stands for a disabled retention period. */
  datatype Config = Config(events: Option<int>, creds: Option<int>, batch: int)

  datatype Note = EventsCleaned(total: nat) | CredsCleaned(total: nat)

  datatype Round = Round(db: seq<Table>, notes: seq<Note>, recorded: bool, ok: bool, script: seq<Turn>)

  /** The event tables i..n, one after the other, up to the first that does not finish. */
  function CleanAll(db: seq<Table>, i: nat, n: nat, cutoff: int, batch: int, script: seq<Turn>): (o: Outcome)
    requires i <= n <= |db|
    ensures |o.db| == |db|
    decreases n - i
  {
    if i == n then Outcome(db, 0, Done, script) else
      var o := Clean(db, i, cutoff, batch, script);
      if o.status != Done then o.(total := 0) else
        var more := CleanAll(o.db, i + 1, n, cutoff, batch, o.script);
        if more.status != Done then more else more.(total := o.total + more.total)
  }

  function Events(db: seq<Table>, c: Config, script: seq<Turn>): (o: Outcome)
    requires db != []
    ensures |o.db| == |db|
  {
    if c.events.Some? then CleanAll(db, 0, |db| - 1, c.events.value, c.batch, script) else Outcome(db, 0, Done, script)
  }

  function Creds(db: seq<Table>, c: Config, script: seq<Turn>): (o: Outcome)
    requires db != []
    ensures |o.db| == |db|
  {
    if c.creds.Some? then Clean(db, |db| - 1, c.creds.value, c.batch, script) else Outcome(db, 0, Done, script)
  }

  /** runRetentionOnce: the event tables, then the credentials (the last table), then meta. */
  function RunOnce(db: seq<Table>, c: Config, script: seq<Turn>, metaOk: bool): (r: Round)
    requires db != []
    ensures |r.db| == |db|
  {
    if c.events.None? && c.creds.None? then Round(db, [], false, true, script) else
      var e := Events(db, c, script);
      if e.status != Done then Round(e.db, [], false, false, e.script) else
        var notes := if c.events.Some? then [EventsCleaned(e.total)] else [];
        var k := Creds(e.db, c, e.script);
        if k.status != Done then Round(k.db, notes, false, false, k.script) else
          Round(k.db, if c.creds.Some? then notes + [CredsCleaned(k.total)] else notes, metaOk, metaOk, k.script)
  }

  /** A table that was cleaned at some moment and has only grown since. */
  predicate CleanedAt(cutoff: int, before: Table, mid: Table, after: Table, finished: bool) {
    && Kept(cutoff, before, mid) && Grown(mid, after)
    && (finished ==> Keep(cutoff, mid.rows) == mid.rows)
  }

  lemma {:induction false} CleanAllKeeps(db: seq<Table>, i: nat, n: nat, cutoff: int, batch: int, script: seq<Turn>,
                                         u: nat) returns (mid: Table)
    requires i <= n <= |db| && u < |db| && batch != 0
    ensures var o := CleanAll(db, i, n, cutoff, batch, script);
      if i <= u < n then CleanedAt(cutoff, db[u], mid, o.db[u], o.status == Done) else Grown(db[u], o.db[u])
    decreases n - i
  {
    hide Kept, Grown, Keep;
    Unchanged(cutoff, db[u]);
    mid := db[u];
    if i < n {
      var o := Clean(db, i, cutoff, batch, script);
      CleanKeeps(db, i, cutoff, batch, script, u);
      CleanLeavesNone(db, i, cutoff, batch, script);
      Unchanged(cutoff, o.db[u]);
      mid := o.db[u];
      if o.status == Done {
        var later := CleanAllKeeps(o.db, i + 1, n, cutoff, batch, o.script, u);
        var after := CleanAll(db, i, n, cutoff, batch, script).db[u];
        if i < u < n {
          mid := later;
          GrownKeeps(cutoff, db[u], o.db[u]);
          KeptThen(cutoff, db[u], o.db[u], mid);
        } else if u != i {
          GrownThen(db[u], o.db[u], after);
        }
      } else if u != i {
        GrownKeeps(cutoff, db[u], o.db[u]);
      }
    }
  }

  /**
   * One round cleans each event table at some moment of it: no row outside the range is ever lost, no
   * row that arrives afterwards either, and once the round is recorded every row that was in range at
   * that moment is gone.
   */
  lemma RoundCleansEvents(db: seq<Table>, c: Config, script: seq<Turn>, metaOk: bool, u: nat) returns (mid: Table)
    requires u < |db| - 1 && c.events.Some? && c.batch != 0
    ensures var r := RunOnce(db, c, script, metaOk);
      CleanedAt(c.events.value, db[u], mid, r.db[u], r.recorded)
  {
    hide Kept, Grown, Keep;
    var e := Events(db, c, script);
    mid := CleanAllKeeps(db, 0, |db| - 1, c.events.value, c.batch, script, u);
    if e.status == Done {
      var k := Creds(e.db, c, e.script);
      Unchanged(0, e.db[u]);
      if c.creds.Some? {
        CleanKeeps(e.db, |db| - 1, c.creds.value, c.batch, e.script, u);
      }
      GrownThen(mid, e.db[u], k.db[u]);
    }
  }

  /** The credentials likewise; and the tables of a disabled period only grow. */
  lemma RoundCleansCreds(db: seq<Table>, c: Config, script: seq<Turn>, metaOk: bool) returns (mid: Table)
    requires db != [] && c.creds.Some? && c.batch != 0
    ensures var r := RunOnce(db, c, script, metaOk);
      CleanedAt(c.creds.value, db[|db| - 1], mid, r.db[|db| - 1], r.recorded)
  {
    hide Kept, Grown, Keep;
    var u := |db| - 1;
    var e := Events(db, c, script);
    Unchanged(c.creds.value, db[u]);
    if c.events.Some? {
      var m := CleanAllKeeps(db, 0, u, c.events.value, c.batch, script, u);
    }
    GrownKeeps(c.creds.value, db[u], e.db[u]);
    Unchanged(c.creds.value, e.db[u]);
    mid := e.db[u];
    if e.status == Done {
      var k := Creds(e.db, c, e.script);
      CleanKeeps(e.db, u, c.creds.value, c.batch, e.script, u);
      CleanLeavesNone(e.db, u, c.creds.value, c.batch, e.script);
      KeptThen(c.creds.value, db[u], e.db[u], k.db[u]);
      Unchanged(c.creds.value, k.db[u]);
      mid := k.db[u];
    }
  }

  // ---------------------------------------------------------------- what a round reports

  /** Rows that came less rows that are there: what was removed so far, up to a constant of the table. */
  function Removed(t: Table): int { |t.arrived| - |t.rows| }

  /** The rows removed from the tables i..n between two states. */
  function RemovedFrom(before: seq<Table>, after: seq<Table>, i: nat, n: nat): int
    requires i <= n <= |before| == |after|
    decreases n - i
  {
    if i == n then 0 else Removed(after[i]) - Removed(before[i]) + RemovedFrom(before, after, i + 1, n)
  }

  lemma {:induction false} GrownRemoves(a: seq<Table>, b: seq<Table>, c: seq<Table>, i: nat, n: nat)
    requires i <= n <= |a| == |b| == |c| && forall u :: i <= u < n ==> Grown(a[u], b[u])
    ensures RemovedFrom(a, c, i, n) == RemovedFrom(b, c, i, n)
    ensures RemovedFrom(c, a, i, n) == RemovedFrom(c, b, i, n)
    decreases n - i
  {
    if i < n {
      GrownRemoves(a, b, c, i + 1, n);
    }
  }

  lemma OthersGrow(db: seq<Table>, t: nat, cutoff: int, batch: int, script: seq<Turn>)
    requires t < |db|
    ensures forall u :: 0 <= u < |db| && u != t ==> Grown(db[u], Clean(db, t, cutoff, batch, script).db[u])
  {
    forall u | 0 <= u < |db| && u != t ensures Grown(db[u], Clean(db, t, cutoff, batch, script).db[u]) {
      CleanKeeps(db, t, cutoff, batch, script, u);
    }
  }

  lemma {:induction false} CleanAllGrows(db: seq<Table>, i: nat, n: nat, cutoff: int, batch: int, script: seq<Turn>)
    requires i <= n <= |db|
    ensures forall u :: 0 <= u < |db| && (u < i || u >= n) ==>
      Grown(db[u], CleanAll(db, i, n, cutoff, batch, script).db[u])
    decreases n - i
  {
    if i < n {
      var o := Clean(db, i, cutoff, batch, script);
      OthersGrow(db, i, cutoff, batch, script);
      if o.status == Done {
        CleanAllGrows(o.db, i + 1, n, cutoff, batch, o.script);
        forall u | 0 <= u < |db| && (u < i || u >= n)
          ensures Grown(db[u], CleanAll(db, i, n, cutoff, batch, script).db[u])
        {
          GrownThen(db[u], o.db[u], CleanAll(o.db, i + 1, n, cutoff, batch, o.script).db[u]);
        }
      }
    }
  }

  lemma {:induction false} CleanAllCounts(db: seq<Table>, i: nat, n: nat, cutoff: int, batch: int, script: seq<Turn>)
    requires i <= n <= |db| && CleanAll(db, i, n, cutoff, batch, script).status == Done
    ensures var o := CleanAll(db, i, n, cutoff, batch, script); o.total == RemovedFrom(db, o.db, i, n)
    decreases n - i
  {
    if i < n {
      var o := Clean(db, i, cutoff, batch, script);
      var more := CleanAll(o.db, i + 1, n, cutoff, batch, o.script);
      CleanCounts(db, i, cutoff, batch, script);
      OthersGrow(db, i, cutoff, batch, script);
      CleanAllCounts(o.db, i + 1, n, cutoff, batch, o.script);
      CleanAllGrows(o.db, i + 1, n, cutoff, batch, o.script);
      GrownRemoves(db, o.db, more.db, i + 1, n);
      assert Grown(o.db[i], more.db[i]);
    }
  }

  /** A round reports the rows it removed: those of the event tables in one note, those of the credentials in
      another, each if its period is enabled and it finished; it is recorded when all of it finished and the
      record was written. */
  lemma RoundReports(db: seq<Table>, c: Config, script: seq<Turn>, metaOk: bool)
    requires db != []
    ensures var r, n := RunOnce(db, c, script, metaOk), |db| - 1;
      && (forall k :: 0 <= k < |r.notes| ==> match r.notes[k]
            case EventsCleaned(total) => k == 0 && c.events.Some? && total == RemovedFrom(db, r.db, 0, n)
            case CredsCleaned(total) => k == |r.notes| - 1 && c.creds.Some? && total == RemovedFrom(db, r.db, n, n + 1))
      && (r.recorded ==>
            metaOk && |r.notes| == (if c.events.Some? then 1 else 0) + if c.creds.Some? then 1 else 0)
      && (r.ok && metaOk && (c.events.Some? || c.creds.Some?) ==> r.recorded)
  {
    var n := |db| - 1;
    var e := Events(db, c, script);
    if c.events.Some? && e.status == Done {
      CleanAllCounts(db, 0, n, c.events.value, c.batch, script);
      CleanAllGrows(db, 0, n, c.events.value, c.batch, script);
    }
    if e.status == Done && c.creds.Some? {
      var k := Creds(e.db, c, e.script);
      OthersGrow(e.db, n, c.creds.value, c.batch, e.script);
      GrownRemoves(e.db, k.db, db, 0, n);
      CleanCounts(e.db, n, c.creds.value, c.batch, e.script);
    }
  }

  lemma RoundSparesDisabled(db: seq<Table>, c: Config, script: seq<Turn>, metaOk: bool, u: nat)
    requires u < |db|
    requires if u == |db| - 1 then c.creds.None? else c.events.None?
    ensures Grown(db[u], RunOnce(db, c, script, metaOk).db[u])
  {
    hide Kept, Grown, Keep;
    var e := Events(db, c, script);
    Unchanged(0, db[u]);
    if c.events.Some? {
      AllSpared(db, 0, |db| - 1, c.events.value, c.batch, script);
    }
    if c.creds.Some? && e.status == Done {
      CleanKeeps(e.db, |db| - 1, c.creds.value, c.batch, e.script, u);
    }
  }

  lemma {:induction false} AllSpared(db: seq<Table>, i: nat, n: nat, cutoff: int, batch: int, script: seq<Turn>)
    requires i <= n < |db|
    ensures Grown(db[n], CleanAll(db, i, n, cutoff, batch, script).db[n])
    decreases n - i
  {
    hide Kept, Grown, Keep;
    Unchanged(cutoff, db[n]);
    if i < n {
      var o := Clean(db, i, cutoff, batch, script);
      CleanKeeps(db, i, cutoff, batch, script, n);
      if o.status == Done {
        AllSpared(o.db, i + 1, n, cutoff, batch, o.script);
        GrownThen(db[n], o.db[n], CleanAll(db, i, n, cutoff, batch, script).db[n]);
      }
    }
  }
}
