/**
 * The once-a-second push of connection counts and system events (internal/api/ws.go): cursors over
 * tables that grow, are pruned at any time, and whose queries may fail.
 *
 * The tables give a new row the id after their largest one (INTEGER PRIMARY KEY without
 * AUTOINCREMENT, internal/store/store.go), so ids are used again once the newest rows are deleted.
 * The serial of a row is its place in the order of all insertions; the program never sees it.
 */
module PushCursors {
  datatype Row = Row(serial: nat, id: int, kind: int)

  const NEW := 1
  const DESTROY := 3
  const SYSTEM := 0
  const LIMIT: nat := 20

  /** A cursor, the rows it has reported in order, and the rows born at or below it. */
  datatype Feed = Feed(last: int, seen: seq<nat>, missed: set<nat>)

  const NO_ROWS := Feed(0, [], {})

  // ---------------------------------------------------------------- tables and queries

  function NextId(rows: seq<Row>): int {
    if rows == [] then 1 else rows[|rows| - 1].id + 1
  }

  /** WHERE id > last AND ev_type = kind, in id order. */
  function Unseen(rows: seq<Row>, kind: int, last: int): (unseen: seq<Row>)
    ensures forall r :: r in unseen <==> r in rows && r.kind == kind && r.id > last
  {
    if rows == [] then [] else
      (if rows[0].kind == kind && rows[0].id > last then [rows[0]] else []) + Unseen(rows[1..], kind, last)
  }

  /** COALESCE(MAX(id), last) over the rows of a kind. */
  function MaxId(rows: seq<Row>, kind: int, last: int): int {
    if rows == [] then last
    else if rows[|rows| - 1].kind == kind then rows[|rows| - 1].id
    else MaxId(rows[..|rows| - 1], kind, last)
  }

  function Serials(rows: seq<Row>): (s: seq<nat>)
    ensures |s| == |rows|
  {
    seq(|rows|, (i: int) requires 0 <= i < |rows| => rows[i].serial)
  }

  /** The rows a deletion leaves. */
  function Without(rows: seq<Row>, victims: set<nat>): (left: seq<Row>)
    ensures forall r :: r in left <==> r in rows && r.serial !in victims
  {
    if rows == [] then [] else
      (if rows[0].serial in victims then [] else [rows[0]]) + Without(rows[1..], victims)
  }

  // ---------------------------------------------------------------- what each event does to a feed

  /** The feed of a kind when a row is born: the row is beyond the cursor, or it will never be reported. */
  function Born(f: Feed, kind: int, r: Row): Feed {
    if r.kind == kind && r.id <= f.last then f.(missed := f.missed + {r.serial}) else f
  }

  /** A successful count: all unseen rows, and the cursor goes to the largest id there is. */
  function Counted(f: Feed, rows: seq<Row>, kind: int): Feed {
    Feed(MaxId(rows, kind, f.last), f.seen + Serials(Unseen(rows, kind, f.last)), f.missed)
  }

  /** The first unseen rows as frames: no more than the limit, and no more than could be read. */
  function Framed(f: Feed, rows: seq<Row>, readable: nat): Feed {
    var unseen := Unseen(rows, SYSTEM, f.last);
    var n := Taken(|unseen|, readable);
    if n == 0 then f else Feed(unseen[n - 1].id, f.seen + Serials(unseen[..n]), f.missed)
  }

  function Taken(unseen: nat, readable: nat): (n: nat)
    ensures n <= unseen && n <= readable && n <= LIMIT
  {
    var m := if unseen < LIMIT then unseen else LIMIT;
    if m < readable then m else readable
  }

  // ---------------------------------------------------------------- runs

  datatype Frame = Stats(created: nat, destroyed: nat) | SystemFrame(serial: nat)

  datatype State = State(conns: seq<Row>, system: seq<Row>, serial: nat,
                         created: Feed, destroyed: Feed, sys: Feed, frames: seq<Frame>)

  /** A tick tells whether the count query succeeds and how many system rows can be read. */
  datatype Event =
    | InsertConn(kind: int)
    | InsertSystem
    | DeleteConns(victims: set<nat>)
    | DeleteSystem(victims: set<nat>)
    | Tick(countOk: bool, readable: nat)

  const START := State([], [], 0, NO_ROWS, NO_ROWS, NO_ROWS, [])

  function SystemFrames(serials: seq<nat>): (fs: seq<Frame>)
    ensures |fs| == |serials|
  {
    seq(|serials|, (i: int) requires 0 <= i < |serials| => SystemFrame(serials[i]))
  }

  function CountTick(s: State, ok: bool): State {
    if !ok then s else
      var created := Counted(s.created, s.conns, NEW);
      var destroyed := Counted(s.destroyed, s.conns, DESTROY);
      s.(created := created, destroyed := destroyed,
         frames := s.frames + [Stats(|created.seen| - |s.created.seen|, |destroyed.seen| - |s.destroyed.seen|)])
  }

  function SystemTick(s: State, readable: nat): State {
    var sys := Framed(s.sys, s.system, readable);
    s.(sys := sys, frames := s.frames + SystemFrames(sys.seen[|s.sys.seen|..]))
  }

  function Step(s: State, e: Event): State {
    match e
    case InsertConn(kind) =>
      var r := Row(s.serial, NextId(s.conns), kind);
      s.(conns := s.conns + [r], serial := s.serial + 1,
         created := Born(s.created, NEW, r), destroyed := Born(s.destroyed, DESTROY, r))
    case InsertSystem =>
      var r := Row(s.serial, NextId(s.system), SYSTEM);
      s.(system := s.system + [r], serial := s.serial + 1, sys := Born(s.sys, SYSTEM, r))
    case DeleteConns(victims) => s.(conns := Without(s.conns, victims))
    case DeleteSystem(victims) => s.(system := Without(s.system, victims))
    case Tick(ok, readable) => SystemTick(CountTick(s, ok), readable)
  }

  function Run(events: seq<Event>): State {
    if events == [] then START else Step(Run(events[..|events| - 1]), events[|events| - 1])
  }

  lemma CountSparesSystem(s: State, ok: bool)
    ensures var t := CountTick(s, ok);
      t.system == s.system && t.sys == s.sys && t.serial == s.serial
  {
  }
}
