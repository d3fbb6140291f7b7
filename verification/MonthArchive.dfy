/** The monthly archive of internal/archive/archive.go as a sequence of file and meta operations that
    may be cut short by a crash, or fail, between any two of them.

    A file is absent, an SQLite copy under construction, a torn gzip, or a whole gzip. SQL statements
    and renames are atomic; calendar arithmetic is a parameter. */
module MonthArchive {
  import opened Wrappers

  datatype Row = Row(ts: int, data: int)

  /** One sequence of rows for each archived table. */
  type Tables = seq<seq<Row>>

  datatype File = Absent | Copy(tables: Tables) | Torn | Gz(tables: Tables)

  /** The main database, the meta value of copied_months, and the three files of each month. */
  datatype Disk = Disk(
    main: Tables,
    meta: Option<string>,
    finals: map<string, File>,
    tmpDb: map<string, File>,
    tmpGz: map<string, File>)

  /** First and last second of a month, as the calendar has it. */
  datatype Calendar = Calendar(bounds: string -> (int, int))

  function Get(files: map<string, File>, month: string): File { if month in files then files[month] else Absent }

  // ---------------------------------------------------------------- months and meta

  predicate Digit(c: char) { '0' <= c <= '9' }

  /** ParseMonth accepts exactly YYYY-MM with a month from 01 to 12. */
  predicate ValidMonth(m: string) {
    && |m| == 7 && m[4] == '-'
    && Digit(m[0]) && Digit(m[1]) && Digit(m[2]) && Digit(m[3]) && Digit(m[5]) && Digit(m[6])
    && ((m[5] == '0' && m[6] != '0') || (m[5] == '1' && m[6] <= '2'))
  }

  function Join(ms: seq<string>): string {
    if ms == [] then "" else if |ms| == 1 then ms[0] else ms[0] + "," + Join(ms[1..])
  }

  /** strings.Split on a comma. */
  function Split(s: string): (r: seq<string>)
    ensures |r| > 0
  {
    if s == "" then [""]
    else
      var rest := Split(s[1..]);
      if s[0] == ',' then [""] + rest else [[s[0]] + rest[0]] + rest[1..]
  }

  function ReadCopied(meta: Option<string>): seq<string> {
    if meta.None? || meta.value == "" then [] else Split(meta.value)
  }

  function Without(ms: seq<string>, month: string): seq<string> {
    if ms == [] then []
    else if ms[0] == month then Without(ms[1..], month)
    else [ms[0]] + Without(ms[1..], month)
  }

  predicate Recorded(d: Disk, month: string) { month in ReadCopied(d.meta) }

  // ---------------------------------------------------------------- rows

  function Between(rows: seq<Row>, lo: int, hi: int): seq<Row> {
    if rows == [] then []
    else (if lo <= rows[0].ts < hi then [rows[0]] else []) + Between(rows[1..], lo, hi)
  }

  function MonthRows(cal: Calendar, main: Tables, month: string): (r: Tables)
    ensures |r| == |main|
  {
    var (lo, hi) := cal.bounds(month);
    seq(|main|, (i: int) requires 0 <= i < |main| => Between(main[i], lo, hi))
  }

  predicate HasRows(t: Tables) { exists i :: 0 <= i < |t| && t[i] != [] }

  function MaxTs(rows: seq<Row>): Option<int> {
    if rows == [] then None
    else
      var rest := MaxTs(rows[1..]);
      if rest.None? || rest.value < rows[0].ts then Some(rows[0].ts) else rest
  }

  /** The per-table check of the export: row count, then greatest ts. */
  predicate Agree(a: seq<Row>, b: seq<Row>) {
    |a| == |b| && (|a| > 0 ==> MaxTs(a) == MaxTs(b))
  }

  // ---------------------------------------------------------------- the operations, one by one

  datatype Pc =
    | Idle | MakeDir | DropTmpDb | DropTmpGz | ReadMeta | Forget | DropFinal | CheckData
    | Attach | CreateTable(i: nat) | CopyRows(i: nat) | Verify(i: nat)
    | Chmod | OpenGz | FinishGz | Rename | DropScratch | Record

  datatype Outcome = Running | Done | Error

  datatype Machine = Machine(disk: Disk, pc: Pc, month: string, outcome: Outcome)

  function Stop(m: Machine, o: Outcome): Machine { m.(pc := Idle, outcome := o) }

  function Begin(d: Disk, month: string): Machine {
    if ValidMonth(month) then Machine(d, MakeDir, month, Running) else Machine(d, Idle, month, Error)
  }

  /** The loops over the tables: n of them, from the i-th on. */
  function CopyFrom(n: nat, i: nat): Pc { if i < n then CreateTable(i) else VerifyFrom(n, 0) }

  function VerifyFrom(n: nat, i: nat): Pc { if i < n then Verify(i) else Chmod }

  function CopyTables(m: Machine): Tables {
    var f := Get(m.disk.tmpDb, m.month);
    if f.Copy? then f.tables else []
  }

  /** The operation at the program counter succeeds. */
  function Next(cal: Calendar, m: Machine): Machine {
    var d, month := m.disk, m.month;
    match m.pc
    case Idle => m
    case MakeDir => m.(pc := DropTmpDb)
    case DropTmpDb => m.(disk := d.(tmpDb := d.tmpDb[month := Absent]), pc := DropTmpGz)
    case DropTmpGz => m.(disk := d.(tmpGz := d.tmpGz[month := Absent]), pc := ReadMeta)
    case ReadMeta =>
      if Recorded(d, month) then
        if Get(d.finals, month) != Absent then Stop(m, Done) else m.(pc := Forget)
      else if Get(d.finals, month) != Absent then m.(pc := DropFinal)
      else m.(pc := CheckData)
    case Forget => m.(disk := d.(meta := Some(Join(Without(ReadCopied(d.meta), month)))), pc := CheckData)
    case DropFinal =>
      if Get(d.finals, month) == Absent then Stop(m, Error)
      else m.(disk := d.(finals := d.finals[month := Absent]), pc := CheckData)
    case CheckData => if HasRows(MonthRows(cal, d.main, month)) then m.(pc := Attach) else Stop(m, Done)
    case Attach => m.(disk := d.(tmpDb := d.tmpDb[month := Copy([])]), pc := CopyFrom(|d.main|, 0))
    case CreateTable(i) => m.(disk := d.(tmpDb := d.tmpDb[month := Copy(CopyTables(m) + [[]])]), pc := CopyRows(i))
    case CopyRows(i) =>
      if i < |d.main| && i < |CopyTables(m)| then
        var rows := MonthRows(cal, d.main, month)[i];
        m.(disk := d.(tmpDb := d.tmpDb[month := Copy(CopyTables(m)[i := CopyTables(m)[i] + rows])]),
           pc := CopyFrom(|d.main|, i + 1))
      else Stop(m, Error)
    case Verify(i) =>
      if i < |d.main| && i < |CopyTables(m)| && Agree(MonthRows(cal, d.main, month)[i], CopyTables(m)[i])
      then m.(pc := VerifyFrom(|d.main|, i + 1)) else Stop(m, Error)
    case Chmod => m.(pc := OpenGz)
    case OpenGz => m.(disk := d.(tmpGz := d.tmpGz[month := Torn]), pc := FinishGz)
    case FinishGz => m.(disk := d.(tmpGz := d.tmpGz[month := Gz(CopyTables(m))]), pc := Rename)
    case Rename =>
      m.(disk := d.(finals := d.finals[month := Get(d.tmpGz, month)], tmpGz := d.tmpGz[month := Absent]),
         pc := DropScratch)
    case DropScratch => m.(disk := d.(tmpDb := d.tmpDb[month := Absent]), pc := Record)
    case Record =>
      var copied := ReadCopied(d.meta);
      Stop(if month in copied then m else m.(disk := d.(meta := Some(Join(copied + [month])))), Done)
  }

  /** How far a run still is from its end. */
  function Left(n: nat, pc: Pc): nat {
    match pc
    case Idle => 0
    case Record => 1
    case DropScratch => 2
    case Rename => 3
    case FinishGz => 4
    case OpenGz => 5
    case Chmod => 6
    case Verify(i) => 7 + (if i < n then n - i else 0)
    case CopyRows(i) => 9 + n + 2 * (if i < n then n - i else 0)
    case CreateTable(i) => 10 + n + 2 * (if i < n then n - i else 0)
    case Attach => 12 + 3 * n
    case CheckData => 13 + 3 * n
    case Forget => 14 + 3 * n
    case DropFinal => 14 + 3 * n
    case ReadMeta => 15 + 3 * n
    case DropTmpGz => 16 + 3 * n
    case DropTmpDb => 17 + 3 * n
    case MakeDir => 18 + 3 * n
  }

  lemma NextCloser(cal: Calendar, m: Machine)
    requires m.pc != Idle
    ensures var r, n := Next(cal, m), |m.disk.main|;
      |r.disk.main| == n && Left(n, r.pc) < Left(n, m.pc)
  {
  }

  /** What happens to the operation about to run: it succeeds, fails with an error, or the process dies. */
  datatype Fate = Succeeds | Fails | Dies

  /** A run from m on, the k-th operation meeting fate(k). */
  function Exec(cal: Calendar, m: Machine, fate: nat -> Fate, k: nat): Machine
    decreases Left(|m.disk.main|, m.pc)
  {
    if m.pc == Idle then m
    else
      match fate(k)
      case Fails => Stop(m, Error)
      case Dies => Stop(m, Running)
      case Succeeds => NextCloser(cal, m); Exec(cal, Next(cal, m), fate, k + 1)
  }

  /** ArchiveMonthDB on a disk. */
  function ArchiveMonth(cal: Calendar, d: Disk, month: string, fate: nat -> Fate): Machine {
    Exec(cal, Begin(d, month), fate, 0)
  }
}
