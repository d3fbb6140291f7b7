/** Crash safety of the monthly archive. */
module ArchiveTheorems {
  import opened Wrappers
  import opened MonthArchive

  // ---------------------------------------------------------------- copied_months

  predicate Plain(m: string) { m != "" && ',' !in m }

  lemma {:induction false} SplitPlain(m: string)
    requires ',' !in m
    ensures Split(m) == [m]
  {
    if m != "" {
      SplitPlain(m[1..]);
      assert [m[0]] + m[1..] == m;
    }
  }

  lemma {:induction false} SplitFirst(m: string, rest: string)
    requires ',' !in m
    ensures Split(m + "," + rest) == [m] + Split(rest)
  {
    var s := m + "," + rest;
    if m == "" {
      assert s[1..] == rest;
    } else {
      SplitFirst(m[1..], rest);
      assert s[1..] == m[1..] + "," + rest;
      assert [m[0]] + m[1..] == m;
      assert ([m[1..]] + Split(rest))[1..] == Split(rest);
    }
  }

  lemma {:induction false} SplitJoin(ms: seq<string>)
    requires ms != [] && forall m :: m in ms ==> Plain(m)
    ensures Split(Join(ms)) == ms
  {
    assert ms[0] in ms;
    if |ms| == 1 {
      SplitPlain(ms[0]);
    } else {
      forall m | m in ms[1..] ensures Plain(m) { assert m in ms; }
      SplitJoin(ms[1..]);
      SplitFirst(ms[0], Join(ms[1..]));
      assert ms[0] + "," + Join(ms[1..]) == Join(ms);
      assert [ms[0]] + ms[1..] == ms;
    }
  }

  /** What is written to copied_months is what is read back, the empty list included. */
  lemma MetaRoundTrip(ms: seq<string>)
    requires forall m :: m in ms ==> ValidMonth(m)
    ensures ReadCopied(Some(Join(ms))) == ms
  {
    if ms != [] {
      forall m | m in ms ensures Plain(m) { }
      SplitJoin(ms);
      assert ms[0] in ms && Join(ms) != "";
    }
  }

  lemma {:induction false} WithoutFacts(ms: seq<string>, month: string)
    ensures forall m :: m in Without(ms, month) <==> m in ms && m != month
  {
    if ms != [] { WithoutFacts(ms[1..], month); }
  }

  /** What is left of a list without a month: every other one as often and in the order as before. */
  lemma {:induction false} WithoutCounts(ms: seq<string>, month: string, m: string)
    ensures multiset(Without(ms, month))[m] == if m == month then 0 else multiset(ms)[m]
  {
    if ms != [] {
      WithoutCounts(ms[1..], month, m);
      assert ms == [ms[0]] + ms[1..];
    }
  }

  lemma {:induction false} WithoutPicks(ms: seq<string>, month: string) returns (at: seq<nat>)
    ensures Picks(Without(ms, month), ms, at)
  {
    if ms == [] {
      at := [];
    } else {
      var rest := Without(ms[1..], month);
      var before := WithoutPicks(ms[1..], month);
      hide Picks;
      at := PicksLater(rest, ms, before);
      if ms[0] != month {
        PicksFirst(rest, ms, at);
        at := [0] + at;
      }
    }
  }

  /** The months are those from 01 to 12 of a year in four digits. */
  lemma ValidMonthExact(m: string)
    ensures ValidMonth(m) <==>
      && |m| == 7 && m[4] == '-' && (forall i :: 0 <= i < 7 && i != 4 ==> Digit(m[i]))
      && 1 <= 10 * (m[5] as int - '0' as int) + (m[6] as int - '0' as int) <= 12
  {
  }

  ghost predicate MetaOk(d: Disk) {
    forall m :: m in ReadCopied(d.meta) ==> ValidMonth(m)
  }

  /** Forgetting and recording a month change that month alone. */
  lemma MetaSteps(d: Disk, month: string)
    requires MetaOk(d) && ValidMonth(month)
    ensures var f := d.(meta := Some(Join(Without(ReadCopied(d.meta), month))));
      MetaOk(f) && forall m :: Recorded(f, m) <==> Recorded(d, m) && m != month
    ensures var r := d.(meta := Some(Join(ReadCopied(d.meta) + [month])));
      MetaOk(r) && forall m :: Recorded(r, m) <==> Recorded(d, m) || m == month
  {
    var ms := ReadCopied(d.meta);
    WithoutFacts(ms, month);
    MetaRoundTrip(Without(ms, month));
    MetaRoundTrip(ms + [month]);
  }

  // ---------------------------------------------------------------- what belongs to a month

  predicate InMonth(cal: Calendar, month: string, r: Row) {
    var (lo, hi) := cal.bounds(month);
    lo <= r.ts < hi
  }

  predicate HasData(cal: Calendar, main: Tables, month: string) {
    exists i, k :: 0 <= i < |main| && 0 <= k < |main[i]| && InMonth(cal, month, main[i][k])
  }

  /** The part is the rows of the month, each as often as it is in the table, in the table's order. */
  ghost predicate IsMonthOf(cal: Calendar, month: string, part: seq<Row>, rows: seq<Row>) {
    && (forall r :: multiset(part)[r] == if InMonth(cal, month, r) then multiset(rows)[r] else 0)
    && exists at :: Picks(part, rows, at)
  }

  /** The tables are those of the month, one by one. */
  ghost predicate AreMonthOf(cal: Calendar, month: string, parts: Tables, main: Tables) {
    |parts| == |main| && forall i :: 0 <= i < |main| ==> IsMonthOf(cal, month, parts[i], main[i])
  }

  lemma {:induction false} BetweenCounts(rows: seq<Row>, lo: int, hi: int, r: Row)
    ensures multiset(Between(rows, lo, hi))[r] == if lo <= r.ts < hi then multiset(rows)[r] else 0
  {
    if rows != [] {
      BetweenCounts(rows[1..], lo, hi, r);
      assert rows == [rows[0]] + rows[1..];
      var rest := Between(rows[1..], lo, hi);
      assert [] + rest == rest;
    }
  }

  lemma {:induction false} BetweenPicks(rows: seq<Row>, lo: int, hi: int) returns (at: seq<nat>)
    ensures Picks(Between(rows, lo, hi), rows, at)
  {
    if rows == [] {
      at := [];
    } else {
      var rest := Between(rows[1..], lo, hi);
      var before := BetweenPicks(rows[1..], lo, hi);
      hide Picks;
      var moved := PicksLater(rest, rows, before);
      if lo <= rows[0].ts < hi {
        PicksFirst(rest, rows, moved);
        at := [0] + moved;
      } else {
        assert [] + rest == rest;
        at := moved;
      }
    }
  }

  /** The rows a run copies are those of the month. */
  lemma MonthRowsExact(cal: Calendar, main: Tables, month: string)
    ensures AreMonthOf(cal, month, MonthRows(cal, main, month), main)
    ensures HasRows(MonthRows(cal, main, month)) <==> HasData(cal, main, month)
  {
    var (lo, hi) := cal.bounds(month);
    var parts := MonthRows(cal, main, month);
    forall i | 0 <= i < |main| ensures IsMonthOf(cal, month, parts[i], main[i]) {
      forall r ensures multiset(parts[i])[r] == if InMonth(cal, month, r) then multiset(main[i])[r] else 0 {
        BetweenCounts(main[i], lo, hi, r);
      }
      var at := BetweenPicks(main[i], lo, hi);
    }
    if i :| 0 <= i < |parts| && parts[i] != [] {
      var r := parts[i][0];
      assert IsMonthOf(cal, month, parts[i], main[i]) && multiset(parts[i])[r] > 0;
      assert r in main[i];
    }
    if i, k :| 0 <= i < |main| && 0 <= k < |main[i]| && InMonth(cal, month, main[i][k]) {
      assert IsMonthOf(cal, month, parts[i], main[i]) && multiset(main[i])[main[i][k]] > 0;
      assert main[i][k] in parts[i];
    }
  }

  /** What the check of the export compares: the greatest time of the rows. */
  lemma {:induction false} MaxTsIsGreatest(rows: seq<Row>, t: int)
    ensures MaxTs(rows) == None <==> rows == []
    ensures MaxTs(rows) == Some(t) <==>
      (exists i :: 0 <= i < |rows| && rows[i].ts == t) && forall i :: 0 <= i < |rows| ==> rows[i].ts <= t
  {
    if rows != [] {
      var rest := rows[1..];
      MaxTsIsGreatest(rest, t);
      assert forall i :: 0 <= i < |rest| ==> rest[i] == rows[i + 1];
      if rest != [] { MaxTsIsGreatest(rest, MaxTs(rest).value); }
    }
  }

  // ---------------------------------------------------------------- one run

  /** What holds when the operation at `pc` is about to run. `gone` allows the final file just
      renamed to have been removed from outside. */
  ghost predicate RunInv(cal: Calendar, m: Machine, gone: bool) {
    var d, month := m.disk, m.month;
    var rows := MonthRows(cal, d.main, month);
    var n := |rows|;
    var final, db, gz := Get(d.finals, month), Get(d.tmpDb, month), Get(d.tmpGz, month);
    var rank := Left(n, m.pc);
    m.pc != Idle ==>
      && ValidMonth(month) && MetaOk(d) && m.outcome == Running
      && (m.pc == Forget ==> final == Absent)
      && (m.pc == DropFinal || rank <= 13 + 3 * n ==> !Recorded(d, month))
      && (3 <= rank <= 13 + 3 * n ==> final == Absent)
      && (rank <= 12 + 3 * n ==> HasRows(rows))
      && (rank <= 2 ==> final == Gz(rows) || (gone && final == Absent))
      && (match m.pc
          case MakeDir => true
          case DropTmpDb => true
          case DropTmpGz => db == Absent
          case CreateTable(i) => i < n && db == Copy(rows[..i]) && gz == Absent
          case CopyRows(i) => i < n && db == Copy(rows[..i] + [[]]) && gz == Absent
          case Verify(i) => i < n && db == Copy(rows) && gz == Absent
          case Chmod => db == Copy(rows) && gz == Absent
          case OpenGz => db == Copy(rows) && gz == Absent
          case FinishGz => db == Copy(rows)
          case Rename => db == Copy(rows) && gz == Gz(rows)
          case DropScratch => gz == Absent
          case _ => db == Absent && gz == Absent)
  }

  lemma FilledIn(rows: Tables, i: nat)
    requires i < |rows|
    ensures var none: seq<Row> := [];
      none + rows[i] == rows[i] && (rows[..i] + [none])[i := rows[i]] == rows[..i + 1]
    ensures i + 1 == |rows| ==> rows[..i + 1] == rows
  {
  }

  lemma AfterCopies(cal: Calendar, m: Machine, i: nat, gone: bool)
    requires m.pc == CopyRows(i) && RunInv(cal, m, gone)
    ensures RunInv(cal, Next(cal, m), gone)
  {
    var rows := MonthRows(cal, m.disk.main, m.month);
    var d := m.disk.(tmpDb := m.disk.tmpDb[m.month := Copy(rows[..i + 1])]);
    CopiedRows(cal, m, i);
    assert i + 1 == |rows| ==> rows[..i + 1] == rows;
    LeftCopies(|rows|, i);
    SameRecords(m.disk, d);
    hide Next, Left, MonthRows, ReadCopied, ValidMonth, Join, Between, HasRows, MetaOk, Recorded;
  }

  lemma LeftCopies(n: nat, i: nat)
    requires i < n
    ensures 6 < Left(n, CopyRows(i)) <= 12 + 3 * n && 6 < Left(n, CopyFrom(n, i + 1)) <= 12 + 3 * n
  {
  }

  /** The rows of table i are in the copy. */
  lemma CopiedRows(cal: Calendar, m: Machine, i: nat)
    requires m.pc == CopyRows(i) && i < |m.disk.main|
    requires Get(m.disk.tmpDb, m.month) == Copy(MonthRows(cal, m.disk.main, m.month)[..i] + [[]])
    ensures var rows := MonthRows(cal, m.disk.main, m.month);
      Next(cal, m) == m.(disk := m.disk.(tmpDb := m.disk.tmpDb[m.month := Copy(rows[..i + 1])]),
                         pc := CopyFrom(|m.disk.main|, i + 1))
  {
    hide MonthRows;
    FilledIn(MonthRows(cal, m.disk.main, m.month), i);
  }

  lemma SameRecords(d: Disk, r: Disk)
    requires r.meta == d.meta
    ensures (MetaOk(d) <==> MetaOk(r)) && forall m :: Recorded(d, m) <==> Recorded(r, m)
  {
  }

  lemma NextInv(cal: Calendar, m: Machine, gone: bool)
    requires RunInv(cal, m, gone) && m.pc != Idle
    ensures RunInv(cal, Next(cal, m), gone) && Next(cal, m).disk.main == m.disk.main
  {
    if Left(|m.disk.main|, m.pc) <= 6 {
      FinishInv(cal, m, gone);
    } else if Left(|m.disk.main|, m.pc) <= 12 + 3 * |m.disk.main| {
      ExportInv(cal, m, gone);
    } else if m.pc == Forget {
      MetaSteps(m.disk, m.month);
    }
  }

  lemma FinishInv(cal: Calendar, m: Machine, gone: bool)
    requires RunInv(cal, m, gone) && 0 < Left(|m.disk.main|, m.pc) <= 6
    ensures RunInv(cal, Next(cal, m), gone) && Next(cal, m).disk.main == m.disk.main
  {
    hide ReadCopied, ValidMonth, Join;
  }

  lemma ExportInv(cal: Calendar, m: Machine, gone: bool)
    requires RunInv(cal, m, gone) && 6 < Left(|m.disk.main|, m.pc) <= 12 + 3 * |m.disk.main|
    ensures RunInv(cal, Next(cal, m), gone) && Next(cal, m).disk.main == m.disk.main
  {
    var d, month := m.disk, m.month;
    var rows := MonthRows(cal, d.main, month);
    hide ReadCopied, Agree, ValidMonth, Join, Between;
    match m.pc
    case CopyRows(i) => AfterCopies(cal, m, i, gone);
    case CreateTable(i) => assert CopyTables(m) == rows[..i];
    case Attach =>
      assert rows[..0] == [];
      assert |rows| > 0;
    case _ =>
  }

  /** No operation touches another month, and none touches the main tables. */
  lemma NextFrame(cal: Calendar, m: Machine, other: string)
    requires other != m.month && ValidMonth(m.month) && MetaOk(m.disk)
    ensures var d, r := m.disk, Next(cal, m).disk;
      && r.main == d.main && MetaOk(r) && Next(cal, m).month == m.month
      && Get(r.finals, other) == Get(d.finals, other)
      && Get(r.tmpDb, other) == Get(d.tmpDb, other) && Get(r.tmpGz, other) == Get(d.tmpGz, other)
      && (Recorded(r, other) <==> Recorded(d, other))
  {
    hide Next, Recorded, MetaOk;
    NextRecords(cal, m);
    NextFinals(cal, m, other);
    NextScratch(cal, m, other);
  }

  lemma NextFinals(cal: Calendar, m: Machine, other: string)
    requires other != m.month
    ensures var d, r := m.disk, Next(cal, m).disk;
      r.main == d.main && Next(cal, m).month == m.month && Get(r.finals, other) == Get(d.finals, other)
  {
    hide ReadCopied, MonthRows, Agree, HasRows, CopyTables, Join, Without;
  }

  lemma NextScratch(cal: Calendar, m: Machine, other: string)
    requires other != m.month
    ensures var d, r := m.disk, Next(cal, m).disk;
      Get(r.tmpDb, other) == Get(d.tmpDb, other) && Get(r.tmpGz, other) == Get(d.tmpGz, other)
  {
    hide ReadCopied, MonthRows, Agree, HasRows, CopyTables, Join, Without;
  }

  lemma NextRecords(cal: Calendar, m: Machine)
    requires ValidMonth(m.month) && MetaOk(m.disk)
    ensures MetaOk(Next(cal, m).disk)
    ensures forall o :: o != m.month ==> (Recorded(Next(cal, m).disk, o) <==> Recorded(m.disk, o))
  {
    MetaSteps(m.disk, m.month);
    hide ReadCopied, MonthRows, Agree, HasRows, CopyTables, ValidMonth, Join;
    match m.pc
    case Forget =>
    case Record =>
    case _ => assert Next(cal, m).disk.meta == m.disk.meta;
  }

  lemma {:induction false} ExecFrame(cal: Calendar, m: Machine, fate: nat -> Fate, k: nat, other: string)
    requires other != m.month && ValidMonth(m.month) && MetaOk(m.disk)
    ensures var d, r := m.disk, Exec(cal, m, fate, k).disk;
      && r.main == d.main && MetaOk(r)
      && Get(r.finals, other) == Get(d.finals, other)
      && Get(r.tmpDb, other) == Get(d.tmpDb, other) && Get(r.tmpGz, other) == Get(d.tmpGz, other)
      && (Recorded(r, other) <==> Recorded(d, other))
    decreases Left(|m.disk.main|, m.pc)
  {
    if m.pc != Idle && fate(k) == Succeeds {
      NextCloser(cal, m);
      NextFrame(cal, m, other);
      ExecFrame(cal, Next(cal, m), fate, k + 1, other);
    }
  }

  /** Archiving one month, however it is cut short, leaves every other month and the main tables alone. */
  lemma OtherMonthsUntouched(cal: Calendar, d: Disk, month: string, fate: nat -> Fate, other: string)
    requires MetaOk(d) && other != month
    ensures var r := ArchiveMonth(cal, d, month, fate).disk;
      && r.main == d.main
      && Get(r.finals, other) == Get(d.finals, other)
      && Get(r.tmpDb, other) == Get(d.tmpDb, other) && Get(r.tmpGz, other) == Get(d.tmpGz, other)
      && (Recorded(r, other) <==> Recorded(d, other))
  {
    if ValidMonth(month) { ExecFrame(cal, Begin(d, month), fate, 0, other); }
  }

  // ---------------------------------------------------------------- an uninterrupted run

  ghost predicate AllSucceed(fate: nat -> Fate) { forall k :: fate(k) == Succeeds }

  ghost predicate NoTemps(d: Disk, month: string) {
    Get(d.tmpDb, month) == Absent && Get(d.tmpGz, month) == Absent
  }

  /** From the export on, a run goes through to a complete, recorded copy. */
  lemma {:induction false} ExportCompletes(cal: Calendar, m: Machine, fate: nat -> Fate, k: nat)
    requires AllSucceed(fate) && RunInv(cal, m, false) && m.pc != Idle
    requires Left(|m.disk.main|, m.pc) <= 12 + 3 * |m.disk.main|
    ensures var r := Exec(cal, m, fate, k);
      && r.outcome == Done && NoTemps(r.disk, m.month) && Recorded(r.disk, m.month) && MetaOk(r.disk)
      && Get(r.disk.finals, m.month) == Gz(MonthRows(cal, m.disk.main, m.month))
    decreases Left(|m.disk.main|, m.pc)
  {
    NextCloser(cal, m);
    NextInv(cal, m, false);
    if m.pc == Record {
      MetaSteps(m.disk, m.month);
    } else {
      ExportAdvances(cal, m);
      ExportCompletes(cal, Next(cal, m), fate, k + 1);
    }
  }

  lemma {:induction false} AgreeRefl(rows: seq<Row>)
    ensures Agree(rows, rows)
  {
  }

  /** No check of the export fails: the copy it verifies is exact. */
  lemma ExportAdvances(cal: Calendar, m: Machine)
    requires RunInv(cal, m, false) && m.pc != Idle && m.pc != Record
    requires Left(|m.disk.main|, m.pc) <= 12 + 3 * |m.disk.main|
    ensures Next(cal, m).pc != Idle && Next(cal, m).month == m.month
  {
    var rows := MonthRows(cal, m.disk.main, m.month);
    match m.pc
    case Verify(i) => AgreeRefl(rows[i]);
    case CopyRows(i) => assert |CopyTables(m)| == i + 1;
    case _ =>
  }

  lemma RunCompletes(cal: Calendar, d: Disk, month: string, fate: nat -> Fate)
    requires ValidMonth(month) && MetaOk(d) && AllSucceed(fate)
    ensures var m := ArchiveMonth(cal, d, month, fate);
      && m.outcome == Done && MetaOk(m.disk) && NoTemps(m.disk, month)
      && (HasRows(MonthRows(cal, d.main, month)) ==> Recorded(m.disk, month))
      && Get(m.disk.finals, month) == (
           if Recorded(d, month) && Get(d.finals, month) != Absent then Get(d.finals, month)
           else if HasRows(MonthRows(cal, d.main, month)) then Gz(MonthRows(cal, d.main, month)) else Absent)
      && (Recorded(m.disk, month) <==> Get(m.disk.finals, month) != Absent)
  {
    var m3 := Cleared(cal, d, month);
    var m4 := Next(cal, m3);
    Opening(cal, d, month, fate);
    if m4.pc != Idle {
      FromClean(cal, m4, fate);
    }
  }

  /** One uninterrupted run, whatever a crash or a failure left behind: a recorded month keeps the archive it
      has; any other is skipped if no table has a row of it, and is else recorded with an archive of exactly
      its rows; no temporary files are left. */
  lemma RunHeals(cal: Calendar, d: Disk, month: string, fate: nat -> Fate)
    requires ValidMonth(month) && MetaOk(d) && AllSucceed(fate)
    ensures var m := ArchiveMonth(cal, d, month, fate);
      var before, after := Get(d.finals, month), Get(m.disk.finals, month);
      && m.outcome == Done && MetaOk(m.disk) && NoTemps(m.disk, month)
      && (HasData(cal, d.main, month) ==> Recorded(m.disk, month))
      && (Recorded(m.disk, month) <==> after != Absent)
      && if Recorded(d, month) && before != Absent then after == before
         else if HasData(cal, d.main, month) then after.Gz? && AreMonthOf(cal, month, after.tables, d.main)
         else after == Absent
  {
    hide MonthRows, ArchiveMonth;
    RunCompletes(cal, d, month, fate);
    MonthRowsExact(cal, d.main, month);
  }

  /** The state in which copied_months is read: both temporary files are gone. */
  function Cleared(cal: Calendar, d: Disk, month: string): Machine
    requires ValidMonth(month)
  {
    Machine(d.(tmpDb := d.tmpDb[month := Absent], tmpGz := d.tmpGz[month := Absent]), ReadMeta, month, Running)
  }

  lemma Opening(cal: Calendar, d: Disk, month: string, fate: nat -> Fate)
    requires ValidMonth(month) && AllSucceed(fate)
    ensures ArchiveMonth(cal, d, month, fate) == Exec(cal, Next(cal, Cleared(cal, d, month)), fate, 4)
  {
    var m0 := Begin(d, month);
    var m1 := Next(cal, m0);
    var m2 := Next(cal, m1);
    var m3 := Next(cal, m2);
    assert m3 == Cleared(cal, d, month);
    ExecOne(cal, m0, fate, 0);
    ExecOne(cal, m1, fate, 1);
    ExecOne(cal, m2, fate, 2);
    ExecOne(cal, m3, fate, 3);
  }

  lemma ExecOne(cal: Calendar, m: Machine, fate: nat -> Fate, k: nat)
    requires AllSucceed(fate) && m.pc != Idle
    ensures Exec(cal, m, fate, k) == Exec(cal, Next(cal, m), fate, k + 1)
  {
  }

  /** From Forget, DropFinal or CheckData on, with the temporary files gone. */
  lemma FromClean(cal: Calendar, m: Machine, fate: nat -> Fate)
    requires AllSucceed(fate) && RunInv(cal, m, false)
    requires (m.pc == Forget && Recorded(m.disk, m.month))
      || (m.pc == DropFinal && Get(m.disk.finals, m.month) != Absent) || m.pc == CheckData
    ensures forall k :: var r := Exec(cal, m, fate, k);
      && r.outcome == Done && MetaOk(r.disk) && NoTemps(r.disk, m.month)
      && (if HasRows(MonthRows(cal, m.disk.main, m.month))
          then Recorded(r.disk, m.month) && Get(r.disk.finals, m.month) == Gz(MonthRows(cal, m.disk.main, m.month))
          else !Recorded(r.disk, m.month) && Get(r.disk.finals, m.month) == Absent)
    decreases Left(|m.disk.main|, m.pc)
  {
    forall k: nat
      ensures var r := Exec(cal, m, fate, k);
        && r.outcome == Done && MetaOk(r.disk) && NoTemps(r.disk, m.month)
        && (if HasRows(MonthRows(cal, m.disk.main, m.month))
            then Recorded(r.disk, m.month) && Get(r.disk.finals, m.month) == Gz(MonthRows(cal, m.disk.main, m.month))
            else !Recorded(r.disk, m.month) && Get(r.disk.finals, m.month) == Absent)
    {
      ExecOne(cal, m, fate, k);
      NextInv(cal, m, false);
      if m.pc != CheckData {
        MetaSteps(m.disk, m.month);
        FromClean(cal, Next(cal, m), fate);
      } else if HasRows(MonthRows(cal, m.disk.main, m.month)) {
        ExportCompletes(cal, Next(cal, m), fate, k + 1);
      }
    }
  }

  /** A second uninterrupted run, with or without data in the month, changes nothing. */
  lemma SecondRunIsIdle(cal: Calendar, d: Disk, month: string, fate: nat -> Fate)
    requires ValidMonth(month) && MetaOk(d) && AllSucceed(fate)
    ensures var r := ArchiveMonth(cal, d, month, fate).disk;
      SameDisk(ArchiveMonth(cal, r, month, fate).disk, r)
  {
    RunCompletes(cal, d, month, fate);
    OtherMonthsUntouched(cal, d, month, fate, month + "x");
    var r := ArchiveMonth(cal, d, month, fate).disk;
    Opening(cal, r, month, fate);
    var m4 := Next(cal, Cleared(cal, r, month));
    if m4.pc != Idle {
      ExecOne(cal, m4, fate, 4);
      assert m4.pc == CheckData && !HasRows(MonthRows(cal, r.main, month));
    }
  }

  /** Equal up to how an absent file is written down. */
  ghost predicate SameDisk(a: Disk, b: Disk) {
    && a.main == b.main && a.meta == b.meta
    && forall m :: Get(a.finals, m) == Get(b.finals, m) && Get(a.tmpDb, m) == Get(b.tmpDb, m)
                   && Get(a.tmpGz, m) == Get(b.tmpGz, m)
  }

  // ---------------------------------------------------------------- every history

  /** A machine with its past: months whose copy was removed from outside, and the month contents
      that exports set out to copy. */
  datatype World = World(m: Machine, removed: set<string>, exports: set<(string, Tables)>)

  datatype Event =
    | BeginRun(month: string)
    | Op                          // the next operation succeeds
    | OpFails
    | Crash
    | RemoveFinal(month: string)  // somebody deletes an archive
    | CleanTmpDb(month: string)   // CleanStaleTmp at startup, file by file
    | CleanTmpGz(month: string)
    | MainChanges(main: Tables)   // between runs, the writer goes on writing

  function Step(cal: Calendar, w: World, e: Event): World {
    var m, d := w.m, w.m.disk;
    match e
    case BeginRun(month) => if m.pc == Idle then w.(m := Begin(d, month)) else w
    case Op =>
      World(Next(cal, m),
            if m.pc == Rename then w.removed - {m.month} else w.removed,
            if m.pc == CheckData && HasRows(MonthRows(cal, d.main, m.month))
            then w.exports + {(m.month, MonthRows(cal, d.main, m.month))} else w.exports)
    case OpFails => w.(m := Stop(m, Error))
    case Crash => w.(m := Stop(m, Running))
    case RemoveFinal(month) =>
      w.(m := m.(disk := d.(finals := d.finals[month := Absent])), removed := w.removed + {month})
    case CleanTmpDb(month) => if m.pc == Idle then w.(m := m.(disk := d.(tmpDb := d.tmpDb[month := Absent]))) else w
    case CleanTmpGz(month) => if m.pc == Idle then w.(m := m.(disk := d.(tmpGz := d.tmpGz[month := Absent]))) else w
    case MainChanges(main) =>
      if m.pc == Idle && |main| == |d.main| then w.(m := m.(disk := d.(main := main))) else w
  }

  function Run(cal: Calendar, main: Tables, events: seq<Event>): World {
    if events == [] then World(Machine(Disk(main, None, map[], map[], map[]), Idle, "", Done), {}, {})
    else Step(cal, Run(cal, main, events[..|events| - 1]), events[|events| - 1])
  }

  /** An archive is whole and holds what an export of its month set out to copy; a recorded month has
      one, unless somebody removed it. */
  ghost predicate Archived(w: World, month: string) {
    var f := Get(w.m.disk.finals, month);
    && (f == Absent || (f.Gz? && (month, f.tables) in w.exports))
    && (Recorded(w.m.disk, month) && month !in w.removed ==> f != Absent)
  }

  ghost predicate WorldInv(cal: Calendar, w: World) {
    && MetaOk(w.m.disk)
    && (w.m.pc != Idle ==> RunInv(cal, w.m, w.m.month in w.removed))
    && (0 < Left(|w.m.disk.main|, w.m.pc) <= 12 + 3 * |w.m.disk.main| ==>
          (w.m.month, MonthRows(cal, w.m.disk.main, w.m.month)) in w.exports)
    && forall month :: Archived(w, month)
  }

  lemma OpInv(cal: Calendar, w: World)
    requires WorldInv(cal, w) && w.m.pc != Idle
    ensures WorldInv(cal, Step(cal, w, Op))
  {
    var r := Step(cal, w, Op);
    var m := w.m;
    NextInv(cal, m, m.month in w.removed);
    NextCloser(cal, m);
    NextKeeps(cal, m, m.month in w.removed);
    RenamedInv(cal, w);
    forall month ensures Archived(r, month) {
      assert Archived(w, month) && Archived(w, m.month);
      if month != m.month { NextFrame(cal, m, month); } else { OwnMonth(cal, w); }
    }
  }

  /** After the rename the copy is there, whatever was removed before. */
  lemma RenamedInv(cal: Calendar, w: World)
    requires RunInv(cal, w.m, w.m.month in w.removed) && w.m.pc != Idle
    ensures var r := Step(cal, w, Op); r.m.pc != Idle ==> RunInv(cal, r.m, r.m.month in r.removed)
  {
    NextInv(cal, w.m, w.m.month in w.removed);
    if w.m.pc == Rename { FinishInv(cal, w.m, false); }
  }

  lemma NextKeeps(cal: Calendar, m: Machine, gone: bool)
    requires RunInv(cal, m, gone) && m.pc != Idle
    ensures MetaOk(Next(cal, m).disk) && Next(cal, m).month == m.month
    ensures Left(|m.disk.main|, m.pc) > 13 + 3 * |m.disk.main| ==>
      Left(|m.disk.main|, Next(cal, m).pc) > 12 + 3 * |m.disk.main| || Next(cal, m).pc == Idle
  {
    NextFrame(cal, m, m.month + "x");
  }

  /** The archived month itself, one operation on. */
  lemma OwnMonth(cal: Calendar, w: World)
    requires WorldInv(cal, w) && w.m.pc != Idle
    ensures Archived(Step(cal, w, Op), w.m.month)
  {
    var m := w.m;
    assert Archived(w, m.month);
    if m.pc == Forget || m.pc == Record {
      hide ReadCopied, ValidMonth, Join, HasRows;
      MetaSteps(m.disk, m.month);
    } else {
      OwnFiles(cal, m);
      SameRecords(m.disk, Next(cal, m).disk);
      hide ReadCopied, MetaOk, Recorded;
    }
  }

  /** Only two operations touch the archive of the month, and only two the record. */
  lemma OwnFiles(cal: Calendar, m: Machine)
    ensures var d, r := m.disk, Next(cal, m).disk;
      && (m.pc != DropFinal && m.pc != Rename ==> r.finals == d.finals)
      && (m.pc != Forget && m.pc != Record ==> r.meta == d.meta)
  {
  }

  lemma StepInv(cal: Calendar, w: World, e: Event)
    requires WorldInv(cal, w)
    ensures WorldInv(cal, Step(cal, w, e))
  {
    var r := Step(cal, w, e);
    if e == Op && w.m.pc != Idle {
      OpInv(cal, w);
    } else {
      forall month ensures Archived(r, month) { assert Archived(w, month); }
    }
  }

  lemma {:induction false} RunIsSafe(cal: Calendar, main: Tables, events: seq<Event>)
    ensures WorldInv(cal, Run(cal, main, events))
  {
    if events != [] {
      RunIsSafe(cal, main, events[..|events| - 1]);
      StepInv(cal, Run(cal, main, events[..|events| - 1]), events[|events| - 1]);
    }
  }

  /** What was exported were the rows of its month, in the main tables at some point of the history. */
  lemma {:induction false} ExportsHadData(cal: Calendar, main: Tables, events: seq<Event>, month: string, t: Tables)
    requires (month, t) in Run(cal, main, events).exports
    ensures exists n :: 0 <= n < |events| && ExportedAt(cal, main, events[..n], month, t)
  {
    var n := |events| - 1;
    var w := Run(cal, main, events[..n]);
    if (month, t) in w.exports {
      ExportsHadData(cal, main, events[..n], month, t);
      var k :| 0 <= k < n && ExportedAt(cal, main, events[..n][..k], month, t);
      assert events[..n][..k] == events[..k];
    } else {
      assert month == w.m.month && t == MonthRows(cal, w.m.disk.main, month) && HasRows(t);
      MonthRowsExact(cal, w.m.disk.main, month);
      assert ExportedAt(cal, main, events[..n], month, t);
    }
  }

  ghost predicate ExportedAt(cal: Calendar, main: Tables, events: seq<Event>, month: string, t: Tables) {
    var tables := Run(cal, main, events).m.disk.main;
    HasData(cal, tables, month) && AreMonthOf(cal, month, t, tables)
  }

  lemma {:induction false} NeverRemoved(cal: Calendar, main: Tables, events: seq<Event>, month: string)
    requires RemoveFinal(month) !in events
    ensures month !in Run(cal, main, events).removed
  {
    if events != [] {
      NeverRemoved(cal, main, events[..|events| - 1], month);
      assert events[|events| - 1] in events;
    }
  }

  /** Crash safety: at every point of every history an archive is whole and holds exactly the rows its month
      had in the main tables at some earlier point; and a recorded month has one, unless it was removed from
      outside since, and so if it never was. */
  lemma RecordedMonthIsComplete(cal: Calendar, main: Tables, events: seq<Event>, month: string)
    ensures var w := Run(cal, main, events);
      var f := Get(w.m.disk.finals, month);
      && (f == Absent ||
            (f.Gz? && exists n :: 0 <= n < |events| && ExportedAt(cal, main, events[..n], month, f.tables)))
      && (Recorded(w.m.disk, month) && month !in w.removed ==> f.Gz?)
      && (Recorded(w.m.disk, month) && RemoveFinal(month) !in events ==> f.Gz?)
  {
    RunIsSafe(cal, main, events);
    var w := Run(cal, main, events);
    assert Archived(w, month);
    if RemoveFinal(month) !in events { NeverRemoved(cal, main, events, month); }
    var f := Get(w.m.disk.finals, month);
    if f != Absent { ExportsHadData(cal, main, events, month, f.tables); }
  }

  /** From every point of every history, one uninterrupted run puts a month with data right. */
  lemma AnyCrashHeals(cal: Calendar, main: Tables, events: seq<Event>, month: string, fate: nat -> Fate)
    requires ValidMonth(month) && AllSucceed(fate)
    ensures var d := Run(cal, main, events).m.disk;
      var m := ArchiveMonth(cal, d, month, fate);
      var f := Get(m.disk.finals, month);
      HasData(cal, d.main, month) ==>
        && m.outcome == Done && Recorded(m.disk, month) && NoTemps(m.disk, month) && m.disk.main == d.main
        && f.Gz? && (f == Get(d.finals, month) || AreMonthOf(cal, month, f.tables, d.main))
        && SameDisk(ArchiveMonth(cal, m.disk, month, fate).disk, m.disk)
  {
    RunIsSafe(cal, main, events);
    var w := Run(cal, main, events);
    hide ArchiveMonth, Run;
    RunHeals(cal, w.m.disk, month, fate);
    SecondRunIsIdle(cal, w.m.disk, month, fate);
    OtherMonthsUntouched(cal, w.m.disk, month, fate, month + "x");
    assert Archived(w, month);
  }
}
