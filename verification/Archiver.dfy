/** ArchiveMonthDB as the source writes it, one operation after the other, each of which may fail or
    be the last thing the process does. */
module Archiver {
  import opened Wrappers
  import opened MonthArchive

  lemma WithoutStep(s: seq<string>, month: string, done: seq<string>, i: nat)
    requires i < |s|
    ensures done + Without(s[i..], month)
      == (if s[i] == month then done else done + [s[i]]) + Without(s[i + 1..], month)
  {
  }

  /** The in-place filter `remain := copied[:0]`: reads and writes the same array. */
  method FilterOut(a: array<string>, month: string) returns (kept: nat)
    modifies a
    ensures kept <= a.Length && a[..kept] == Without(old(a[..]), month)
  {
    ghost var was, done: seq<string> := a[..], [];
    kept := 0;
    var i := 0;
    assert was[0..] == was && done + Without(was, month) == Without(was, month);
    while i < a.Length
      invariant kept <= i <= a.Length == |was|
      invariant forall j :: i <= j < a.Length ==> a[j] == was[j]
      invariant a[..kept] == done
      invariant Without(was, month) == done + Without(was[i..], month)
    {
      WithoutStep(was, month, done, i);
      if a[i] != month {
        a[kept] := a[i];
        kept := kept + 1;
        done := done + [was[i]];
      }
      i := i + 1;
    }
    assert was[i..] == [] && done + [] == done;
  }

  class Archive {
    const cal: Calendar
    var main: Tables
    var meta: Option<string>
    var finals: map<string, File>
    var tmpDb: map<string, File>
    var tmpGz: map<string, File>
    var ops: nat                    // operations attempted in this run

    ghost function View(): Disk
      reads this
    {
      Disk(main, meta, finals, tmpDb, tmpGz)
    }

    /** The rest of the run, from operation `pc` on. */
    ghost function Rest(pc: Pc, month: string, fate: nat -> Fate): Machine
      reads this
    {
      Exec(cal, Machine(View(), pc, month, Running), fate, ops)
    }

    /** The rest of the run, once operation `pc` has succeeded. */
    ghost function After(pc: Pc, month: string, fate: nat -> Fate): Machine
      reads this
    {
      Exec(cal, Next(cal, Machine(View(), pc, month, Running)), fate, ops)
    }

    /** A run that is over stays as it is. */
    lemma Finished(m: Machine, fate: nat -> Fate)
      requires m.pc == Idle
      ensures Exec(cal, m, fate, ops) == m
    {
    }

    /** One operation meets its fate: only a success goes on. */
    method Attempt(ghost pc: Pc, ghost month: string, fate: nat -> Fate) returns (ok: bool, o: Outcome)
      requires pc != Idle
      modifies this`ops
      ensures !ok ==> Machine(View(), Idle, month, o) == old(Rest(pc, month, fate))
      ensures ok ==> After(pc, month, fate) == old(Rest(pc, month, fate))
    {
      ok := fate(ops) == Succeeds;
      o := if fate(ops) == Fails then Error else Running;
      if ok { ops := ops + 1; }
    }

    method ArchiveMonth(month: string, fate: nat -> Fate) returns (o: Outcome)
      modifies this
      ensures Machine(View(), Idle, month, o) == MonthArchive.ArchiveMonth(cal, old(View()), month, fate)
    {
      hide Exec, ReadCopied, Split, Join, Without, MonthRows, MaxTs;
      ops := 0;
      if !ValidMonth(month) {
        Finished(Begin(View(), month), fate);
        return Error;
      }
      ghost var start := Rest(MakeDir, month, fate);
      var ok;
      ok, o := Attempt(MakeDir, month, fate);
      if !ok { return; }
      assert start == Rest(DropTmpDb, month, fate);
      // residue of an earlier run
      ok, o := Attempt(DropTmpDb, month, fate);
      if !ok { return; }
      tmpDb := tmpDb[month := Absent];
      assert start == Rest(DropTmpGz, month, fate);
      ok, o := Attempt(DropTmpGz, month, fate);
      if !ok { return; }
      tmpGz := tmpGz[month := Absent];
      assert start == Rest(ReadMeta, month, fate);
      o := Consult(month, fate);
    }

    /** From the reading of copied_months on. */
    method Consult(month: string, fate: nat -> Fate) returns (o: Outcome)
      modifies this
      ensures Machine(View(), Idle, month, o) == old(Rest(ReadMeta, month, fate))
    {
      hide Exec, ReadCopied, Split, Join, Without, MonthRows, MaxTs;
      ghost var start := Rest(ReadMeta, month, fate);
      var ok;
      ok, o := Attempt(ReadMeta, month, fate);
      if !ok { return; }
      var copied := ReadCopied(meta);
      var finalExists := Get(finals, month) != Absent;
      if month in copied {
        if finalExists {
          Finished(Machine(View(), Idle, month, Done), fate);
          return Done;
        }
        assert start == Rest(Forget, month, fate);
        ok, o := ForgetMonth(month, copied, fate);
        if !ok { return; }
      } else if finalExists {
        assert start == Rest(DropFinal, month, fate);
        ok, o := Attempt(DropFinal, month, fate);
        if !ok { return; }
        finals := finals[month := Absent];
      }
      assert start == Rest(CheckData, month, fate);
      o := ExportData(month, fate);
    }

    /** From the count of the month's rows on: a month without data is done. */
    method ExportData(month: string, fate: nat -> Fate) returns (o: Outcome)
      modifies this
      ensures Machine(View(), Idle, month, o) == old(Rest(CheckData, month, fate))
    {
      hide Exec, ReadCopied, Split, Join, Without, MonthRows, MaxTs;
      ghost var start := Rest(CheckData, month, fate);
      var ok;
      ok, o := Attempt(CheckData, month, fate);
      if !ok { return; }
      if !HasRows(MonthRows(cal, main, month)) {
        Finished(Machine(View(), Idle, month, Done), fate);
        return Done;
      }
      assert start == Rest(Attach, month, fate);
      o := ExportAndPublish(month, fate);
    }

    method ForgetMonth(month: string, copied: seq<string>, fate: nat -> Fate) returns (ok: bool, o: Outcome)
      requires copied == ReadCopied(meta)
      modifies this
      ensures !ok ==> Machine(View(), Idle, month, o) == old(Rest(Forget, month, fate))
      ensures ok ==> Rest(CheckData, month, fate) == old(Rest(Forget, month, fate))
    {
      hide Exec, ReadCopied, Split, Join, Without, MonthRows, MaxTs;
      ok, o := Attempt(Forget, month, fate);
      if !ok { return; }
      var a := new string[|copied|](i requires 0 <= i < |copied| => copied[i]);
      assert a[..] == copied;
      var kept := FilterOut(a, month);
      meta := Some(Join(a[..kept]));
    }

    /** From ATTACH to the record of the month. */
    method ExportAndPublish(month: string, fate: nat -> Fate) returns (o: Outcome)
      modifies this
      ensures Machine(View(), Idle, month, o) == old(Rest(Attach, month, fate))
    {
      hide Exec, ReadCopied, Split, Join, Without, MonthRows, MaxTs;
      ghost var start := Rest(Attach, month, fate);
      var ok;
      ok, o := ExportMonth(month, fate);
      if !ok { return; }
      assert start == Rest(Chmod, month, fate);
      ok, o := Attempt(Chmod, month, fate);
      if !ok { return; }
      assert start == Rest(OpenGz, month, fate);
      ok, o := GzipFile(month, fate);
      if !ok { return; }
      assert start == Rest(Rename, month, fate);
      o := Publish(month, fate);
    }

    /** gzipFile: the target exists, torn, until it is closed. */
    method GzipFile(month: string, fate: nat -> Fate) returns (ok: bool, o: Outcome)
      modifies this`tmpGz, this`ops
      ensures !ok ==> Machine(View(), Idle, month, o) == old(Rest(OpenGz, month, fate))
      ensures ok ==> Rest(Rename, month, fate) == old(Rest(OpenGz, month, fate))
    {
      hide Exec, ReadCopied, Split, Join, Without, MonthRows, MaxTs;
      ghost var start := Rest(OpenGz, month, fate);
      ok, o := Attempt(OpenGz, month, fate);
      if !ok { return; }
      tmpGz := tmpGz[month := Torn];
      assert start == Rest(FinishGz, month, fate);
      ok, o := Attempt(FinishGz, month, fate);
      if !ok { return; }
      var copy := Get(tmpDb, month);
      tmpGz := tmpGz[month := Gz(if copy.Copy? then copy.tables else [])];
    }

    method Publish(month: string, fate: nat -> Fate) returns (o: Outcome)
      modifies this
      ensures Machine(View(), Idle, month, o) == old(Rest(Rename, month, fate))
    {
      hide Exec, ReadCopied, Split, Join, Without, MonthRows, MaxTs;
      ghost var start := Rest(Rename, month, fate);
      var ok;
      ok, o := Attempt(Rename, month, fate);
      if !ok { return; }
      finals, tmpGz := finals[month := Get(tmpGz, month)], tmpGz[month := Absent];
      assert start == Rest(DropScratch, month, fate);
      ok, o := Attempt(DropScratch, month, fate);
      if !ok { return; }
      tmpDb := tmpDb[month := Absent];
      assert start == Rest(Record, month, fate);
      o := RecordMonth(month, fate);
    }

    method RecordMonth(month: string, fate: nat -> Fate) returns (o: Outcome)
      modifies this
      ensures Machine(View(), Idle, month, o) == old(Rest(Record, month, fate))
    {
      hide Exec, ReadCopied, Split, Join, Without, MonthRows, MaxTs;
      ghost var start := Rest(Record, month, fate);
      var ok;
      ok, o := Attempt(Record, month, fate);
      if !ok { return; }
      var copied := ReadCopied(meta);
      if month !in copied { meta := Some(Join(copied + [month])); }
      Finished(Machine(View(), Idle, month, Done), fate);
      return Done;
    }

    /** exportMonth: two statements for each table, then its two checks. */
    method ExportMonth(month: string, fate: nat -> Fate) returns (ok: bool, o: Outcome)
      modifies this
      ensures !ok ==> Machine(View(), Idle, month, o) == old(Rest(Attach, month, fate))
      ensures ok ==> Rest(Chmod, month, fate) == old(Rest(Attach, month, fate))
    {
      hide Exec, ReadCopied, Split, Join, Without, MonthRows, MaxTs;
      ghost var start := Rest(Attach, month, fate);
      ok, o := Attempt(Attach, month, fate);
      if !ok { return; }
      var copy: Tables := [];
      tmpDb := tmpDb[month := Copy(copy)];
      var i := 0;
      while i < |main|
        invariant i <= |main| && main == old(main) && |copy| == i
        invariant Get(tmpDb, month) == Copy(copy) && ok
        invariant start == Rest(CopyFrom(|main|, i), month, fate)
      {
        ok, o, copy := CopyTable(month, copy, fate);
        if !ok { return; }
        i := i + 1;
      }
      i := 0;
      while i < |main|
        invariant i <= |main| && |copy| == |main|
        invariant Get(tmpDb, month) == Copy(copy) && ok
        invariant start == Rest(VerifyFrom(|main|, i), month, fate)
      {
        ok, o := VerifyTable(month, copy, i, fate);
        if !ok { return; }
        i := i + 1;
      }
    }

    method CopyTable(month: string, copy: Tables, fate: nat -> Fate) returns (ok: bool, o: Outcome, copy': Tables)
      requires |copy| < |main| && Get(tmpDb, month) == Copy(copy)
      modifies this`tmpDb, this`ops
      ensures !ok ==> Machine(View(), Idle, month, o) == old(Rest(CreateTable(|copy|), month, fate))
      ensures ok ==> |copy'| == |copy| + 1 && Get(tmpDb, month) == Copy(copy')
      ensures ok ==> Rest(CopyFrom(|main|, |copy'|), month, fate) == old(Rest(CreateTable(|copy|), month, fate))
    {
      hide Exec, ReadCopied, Split, Join, Without, MonthRows, MaxTs;
      ghost var start := Rest(CreateTable(|copy|), month, fate);
      copy' := copy;
      ok, o := Attempt(CreateTable(|copy|), month, fate);
      if !ok { return; }
      copy' := copy + [[]];
      tmpDb := tmpDb[month := Copy(copy')];
      assert start == Rest(CopyRows(|copy|), month, fate);
      ok, o := Attempt(CopyRows(|copy|), month, fate);
      if !ok { return; }
      copy' := copy'[|copy| := copy'[|copy|] + MonthRows(cal, main, month)[|copy|]];
      tmpDb := tmpDb[month := Copy(copy')];
    }

    method VerifyTable(month: string, copy: Tables, i: nat, fate: nat -> Fate) returns (ok: bool, o: Outcome)
      requires i < |main| == |copy| && Get(tmpDb, month) == Copy(copy)
      modifies this`ops
      ensures !ok ==> Machine(View(), Idle, month, o) == old(Rest(Verify(i), month, fate))
      ensures ok ==> Rest(VerifyFrom(|main|, i + 1), month, fate) == old(Rest(Verify(i), month, fate))
    {
      hide Exec, ReadCopied, Split, Join, Without, MonthRows, MaxTs;
      ghost var start := Rest(Verify(i), month, fate);
      ok, o := Attempt(Verify(i), month, fate);
      if !ok { return; }
      if !Agree(MonthRows(cal, main, month)[i], copy[i]) {
        Finished(Machine(View(), Idle, month, Error), fate);
        return false, Error;
      }
    }
  }
}
