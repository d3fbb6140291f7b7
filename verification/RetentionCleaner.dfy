/** The loops of internal/store/retention.go, over tables updated in place. */
module RetentionCleaner {
  import opened Wrappers
  import opened Retention
  import opened RetentionRound

  class Cleaner {
    var db: seq<Table>
    var script: seq<Turn>

    /** The yield callback: the writer takes what has queued up. */
    method Yield(arrivals: seq<Arrival>)
      modifies this`db
      ensures db == Commit(old(db), arrivals)
    {
      var i := 0;
      while i < |arrivals|
        invariant i <= |arrivals|
        invariant Commit(db, arrivals[i..]) == Commit(old(db), arrivals)
      {
        var a := arrivals[i];
        assert arrivals[i..][1..] == arrivals[i + 1..];
        if a.table < |db| {
          db := db[a.table := Insert(db[a.table], a.ts, a.data)];
        }
        i := i + 1;
      }
    }

    method CleanupTable(t: nat, cutoff: int, batch: int) returns (total: nat, status: Status)
      requires t < |db|
      modifies this
      ensures Outcome(db, total, status, script) == Clean(old(db), t, cutoff, batch, old(script))
    {
      total := 0;
      while true
        invariant |db| == |old(db)|
        invariant var o := Clean(db, t, cutoff, batch, script);
          Clean(old(db), t, cutoff, batch, old(script)) == o.(total := total + o.total)
        decreases |script|, |db[t].rows|
      {
        var turn := if script == [] then Yields([]) else script[0];
        ghost var was := script;
        script := if script == [] then [] else script[1..];
        if turn.Stops? {
          return total, Cancelled;
        }
        if turn.Breaks? {
          return total, Failed;
        }
        ghost var rows := db[t].rows;
        var before := |db[t].rows|;
        db := db[t := db[t].(rows := Cut(cutoff, batch, db[t].rows))];
        var n := before - |db[t].rows|;
        if n == 0 {
          CutSame(cutoff, batch, rows);
          return total, Done;
        }
        total := total + n;
        Yield(turn.arrivals);
      }
    }

    /** The loop of runRetentionOnce over the event tables. */
    method CleanupAll(n: nat, cutoff: int, batch: int) returns (total: nat, status: Status)
      requires n <= |db|
      modifies this
      ensures Outcome(db, total, status, script) == CleanAll(old(db), 0, n, cutoff, batch, old(script))
    {
      total := 0;
      var t := 0;
      while t < n
        invariant t <= n <= |db| == |old(db)|
        invariant var more := CleanAll(db, t, n, cutoff, batch, script);
          CleanAll(old(db), 0, n, cutoff, batch, old(script))
            == if more.status != Done then more else more.(total := total + more.total)
      {
        var removed;
        removed, status := CleanupTable(t, cutoff, batch);
        if status != Done {
          return 0, status;
        }
        total := total + removed;
        t := t + 1;
      }
      status := Done;
    }

    /** runRetentionOnce: tables whose retention is disabled are left alone; the first failure ends the round. */
    method RunRetentionOnce(c: Config, metaOk: bool) returns (notes: seq<Note>, recorded: bool, ok: bool)
      requires db != []
      modifies this
      ensures Round(db, notes, recorded, ok, script) == RunOnce(old(db), c, old(script), metaOk)
    {
      notes := [];
      if c.events.None? && c.creds.None? {
        return notes, false, true;
      }
      if c.events.Some? {
        var total, status := CleanupAll(|db| - 1, c.events.value, c.batch);
        if status != Done {
          return notes, false, false;
        }
        notes := notes + [EventsCleaned(total)];
      }
      if c.creds.Some? {
        var total, status := CleanupTable(|db| - 1, c.creds.value, c.batch);
        if status != Done {
          return notes, false, false;
        }
        notes := notes + [CredsCleaned(total)];
      }
      return notes, metaOk, metaOk;
    }
  }
}
