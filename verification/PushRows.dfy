/**
 * Which rows are reported: for each of the three feeds, a row of its kind is reported exactly when it
 * was inserted above the feed's cursor and a later tick reached it in its table.
 */
module PushRows {
  import opened PushCursors
  import opened PushTheorems

  predicate IsKind(kind: int) { kind == NEW || kind == DESTROY || kind == SYSTEM }

  function FeedFor(s: State, kind: int): Feed {
    if kind == NEW then s.created else if kind == DESTROY then s.destroyed else s.sys
  }

  function TableFor(s: State, kind: int): seq<Row> {
    if kind == SYSTEM then s.system else s.conns
  }

  predicate Inserts(e: Event, kind: int) {
    if kind == SYSTEM then e == InsertSystem else e == InsertConn(kind)
  }

  predicate Holds(rows: seq<Row>, x: nat) {
    exists k :: 0 <= k < |rows| && rows[k].serial == x
  }

  /** How many system rows beyond the cursor come before the row x. */
  function Ahead(rows: seq<Row>, last: int, x: nat): (n: nat) {
    if rows == [] then 0 else
      (if rows[0].kind == SYSTEM && rows[0].id > last && rows[0].serial < x then 1 else 0)
      + Ahead(rows[1..], last, x)
  }

  /**
   * The tick finds the row x in its table: the count query succeeds, or, for a system row, fewer rows
   * wait before it than the limit and than could be read.
   */
  predicate Reaches(s: State, e: Event, kind: int, x: nat) {
    && e.Tick? && Holds(TableFor(s, kind), x)
    && (if kind == SYSTEM then
          Ahead(s.system, s.sys.last, x) < LIMIT && Ahead(s.system, s.sys.last, x) < e.readable
        else e.countOk)
  }

  predicate ReachedAfter(events: seq<Event>, i: nat, kind: int, x: nat) {
    exists j :: i < j < |events| && Reaches(Run(events[..j]), events[j], kind, x)
  }

  /** The next row of the table gets an id above the cursor. */
  predicate Above(s: State, kind: int) {
    NextId(TableFor(s, kind)) > FeedFor(s, kind).last
  }

  // ---------------------------------------------------------------- the place of a row in the queue

  lemma {:induction false} NoneAhead(rows: seq<Row>, last: int, x: nat)
    requires forall i :: 0 <= i < |rows| ==> rows[i].serial >= x
    ensures Ahead(rows, last, x) == 0
  {
    if rows != [] {
      NoneAhead(rows[1..], last, x);
    }
  }

  lemma RestOrdered(rows: seq<Row>)
    requires Ordered(rows) && rows != []
    ensures Ordered(rows[1..])
    ensures forall i :: 0 <= i < |rows[1..]| ==>
      rows[0].id < rows[1..][i].id && rows[0].serial < rows[1..][i].serial
  {
  }

  /** In the query's result the row stands right behind the rows ahead of it. */
  predicate InPlace(rows: seq<Row>, last: int, r: Row) {
    var n := Ahead(rows, last, r.serial);
    n < |Unseen(rows, SYSTEM, last)| && Unseen(rows, SYSTEM, last)[n] == r
  }

  lemma {:induction false} PlaceInQueue(rows: seq<Row>, last: int, k: nat)
    requires Ordered(rows) && k < |rows| && Waits(rows[k], last)
    ensures InPlace(rows, last, rows[k])
  {
    RestOrdered(rows);
    if k == 0 {
      NoneAhead(rows[1..], last, rows[0].serial);
      UnseenFirst(rows, last);
    } else {
      PlaceInQueue(rows[1..], last, k - 1);
      assert rows[1..][k - 1] == rows[k];
      PlaceStep(rows, last, rows[k]);
    }
  }

  lemma PlaceStep(rows: seq<Row>, last: int, r: Row)
    requires rows != [] && rows[0].serial < r.serial && InPlace(rows[1..], last, r)
    ensures InPlace(rows, last, r)
  {
    hide Ahead, Unseen;
    UnseenFirst(rows, last);
    AheadFirst(rows, last, r.serial);
    JoinedAt(rows[0], Unseen(rows[1..], SYSTEM, last), Ahead(rows[1..], last, r.serial));
  }

  predicate Waits(r: Row, last: int) { r.kind == SYSTEM && r.id > last }

  lemma UnseenFirst(rows: seq<Row>, last: int)
    requires rows != []
    ensures var rest := Unseen(rows[1..], SYSTEM, last);
      Unseen(rows, SYSTEM, last) == if Waits(rows[0], last) then [rows[0]] + rest else rest
  {
    var rest := Unseen(rows[1..], SYSTEM, last);
    assert [] + rest == rest;
  }

  lemma AheadFirst(rows: seq<Row>, last: int, x: nat)
    requires rows != [] && rows[0].serial < x
    ensures Ahead(rows, last, x) == Ahead(rows[1..], last, x) + if Waits(rows[0], last) then 1 else 0
  {
  }

  lemma JoinedAt(r: Row, rows: seq<Row>, n: nat)
    requires n < |rows|
    ensures ([r] + rows)[n + 1] == rows[n]
  {
  }

  /** Rows added later are behind, and deletions and a larger cursor leave no more ahead. */
  lemma {:induction false} AheadAppend(rows: seq<Row>, r: Row, last: int, x: nat)
    requires x <= r.serial
    ensures Ahead(rows + [r], last, x) == Ahead(rows, last, x)
  {
    if rows == [] {
      assert (rows + [r])[1..] == [];
    } else {
      AheadAppend(rows[1..], r, last, x);
      assert (rows + [r])[1..] == rows[1..] + [r];
    }
  }

  lemma {:induction false} AheadWithout(rows: seq<Row>, victims: set<nat>, last: int, x: nat)
    ensures Ahead(Without(rows, victims), last, x) <= Ahead(rows, last, x)
  {
    if rows != [] {
      AheadWithout(rows[1..], victims, last, x);
      var left := Without(rows[1..], victims);
      assert ([rows[0]] + left)[1..] == left && [] + left == left;
    }
  }

  lemma {:induction false} AheadLater(rows: seq<Row>, last: int, later: int, x: nat)
    requires last <= later
    ensures Ahead(rows, later, x) <= Ahead(rows, last, x)
  {
    if rows != [] {
      AheadLater(rows[1..], last, later, x);
    }
  }

  lemma {:induction false} SameAhead(rows: seq<Row>, last: int, later: int, x: nat)
    requires forall i :: 0 <= i < |rows| ==> (rows[i].id > last <==> rows[i].id > later)
    ensures Ahead(rows, later, x) == Ahead(rows, last, x)
  {
    if rows != [] {
      SameAhead(rows[1..], last, later, x);
    }
  }

  /** Taking n of the rows ahead leaves n fewer ahead. */
  lemma {:induction false} AheadTaken(rows: seq<Row>, last: int, x: nat, n: nat)
    requires Ordered(rows) && 0 < n <= Ahead(rows, last, x)
    ensures n <= |Unseen(rows, SYSTEM, last)|
    ensures Ahead(rows, Unseen(rows, SYSTEM, last)[n - 1].id, x) + n == Ahead(rows, last, x)
  {
    var rest, unseen := rows[1..], Unseen(rows[1..], SYSTEM, last);
    RestOrdered(rows);
    hide Ordered;
    if rows[0].kind != SYSTEM || rows[0].id <= last {
      assert Unseen(rows, SYSTEM, last) == unseen;
      AheadTaken(rest, last, x, n);
      assert unseen[n - 1] in unseen;
      assert Ahead(rows, unseen[n - 1].id, x) == Ahead(rest, unseen[n - 1].id, x);
    } else if rows[0].serial >= x {
      NoneAhead(rest, last, x);
      assert false;
    } else {
      assert Unseen(rows, SYSTEM, last) == [rows[0]] + unseen;
      if n == 1 {
        SameAhead(rest, last, rows[0].id, x);
      } else {
        AheadTaken(rest, last, x, n - 1);
        assert unseen[n - 2] in unseen;
        assert ([rows[0]] + unseen)[n - 1] == unseen[n - 2];
        assert Ahead(rows, unseen[n - 2].id, x) == Ahead(rest, unseen[n - 2].id, x);
      }
    }
  }

  // ---------------------------------------------------------------- one step

  predicate HasKind(rows: seq<Row>, kind: int, x: nat) {
    forall k :: 0 <= k < |rows| && rows[k].serial == x ==> rows[k].kind == kind
  }

  /** What is known of the row x of a kind once it was inserted. */
  predicate Placed(s: State, kind: int, x: nat) {
    x < s.serial && HasKind(TableFor(s, kind), kind, x)
  }

  lemma StepPlaced(s: State, e: Event, kind: int, x: nat)
    requires Placed(s, kind, x)
    ensures Placed(Step(s, e), kind, x)
    ensures Holds(TableFor(Step(s, e), kind), x) ==> Holds(TableFor(s, kind), x)
  {
    hide Born, Counted, Framed, NextId;
    var rows, left := TableFor(s, kind), TableFor(Step(s, e), kind);
    if e.DeleteConns? || e.DeleteSystem? {
      forall k | 0 <= k < |left| ensures left[k] in rows {
        assert left[k] in left;
      }
    }
  }

  /** No later event changes whether a row counts as missed. */
  lemma StepMisses(s: State, e: Event, kind: int, x: nat)
    requires IsKind(kind) && x < s.serial
    ensures x in FeedFor(Step(s, e), kind).missed <==> x in FeedFor(s, kind).missed
  {
    hide MaxId, Unseen, Serials, NextId, Taken;
  }

  lemma Apart(rows: seq<Row>, kind: int, f: Feed, serial: nat, x: nat)
    requires Known(rows, f, serial)
    ensures x in f.seen ==> x !in f.missed
  {
  }

  lemma CountedRow(rows: seq<Row>, kind: int, f: Feed, serial: nat, x: nat)
    requires Tracks(rows, kind, f, serial)
    requires HasKind(rows, kind, x)
    ensures x in Counted(f, rows, kind).seen <==> x in f.seen || (x !in f.missed && Holds(rows, x))
  {
    var unseen := Unseen(rows, kind, f.last);
    CountedTracks(rows, kind, f, serial);
    Apart(rows, kind, Counted(f, rows, kind), serial, x);
    if x in Serials(unseen) {
      var k :| 0 <= k < |unseen| && unseen[k].serial == x;
      assert unseen[k] in unseen;
    }
    if k :| 0 <= k < |rows| && rows[k].serial == x {
      MaxIdIsLargest(rows, kind, f.last);
    }
  }

  lemma FramedRow(rows: seq<Row>, f: Feed, serial: nat, readable: nat, x: nat)
    requires Tracks(rows, SYSTEM, f, serial) && HasKind(rows, SYSTEM, x)
    ensures var n := Ahead(rows, f.last, x);
      x in Framed(f, rows, readable).seen <==>
      x in f.seen || (x !in f.missed && Holds(rows, x) && n < LIMIT && n < readable)
  {
    hide Ahead, Unseen, Taken;
    var unseen := Unseen(rows, SYSTEM, f.last);
    var n := Taken(|unseen|, readable);
    assert unseen[..0] == [] && Framed(f, rows, readable).seen == f.seen + Serials(unseen[..n]);
    SeenEither(f.seen, unseen[..n], x);
    if k :| 0 <= k < |rows| && rows[k].serial == x {
      if rows[k].id > f.last {
        hide Serials;
        WaitingRow(rows, f.last, readable, k);
      } else {
        NotUnseen(rows, f.last, k);
      }
    } else {
      UnseenHeld(rows, f.last);
    }
  }

  lemma UnseenHeld(rows: seq<Row>, last: int)
    ensures forall i :: 0 <= i < |Unseen(rows, SYSTEM, last)| ==> Holds(rows, Unseen(rows, SYSTEM, last)[i].serial)
  {
    forall i | 0 <= i < |Unseen(rows, SYSTEM, last)| ensures Holds(rows, Unseen(rows, SYSTEM, last)[i].serial) {
      assert Unseen(rows, SYSTEM, last)[i] in Unseen(rows, SYSTEM, last);
    }
  }

  lemma WaitingRow(rows: seq<Row>, last: int, readable: nat, k: nat)
    requires Ordered(rows) && k < |rows| && rows[k].kind == SYSTEM && rows[k].id > last
    ensures var unseen, n := Unseen(rows, SYSTEM, last), Ahead(rows, last, rows[k].serial);
      rows[k].serial in Serials(unseen[..Taken(|unseen|, readable)]) <==> n < LIMIT && n < readable
  {
    hide Ordered, Unseen, Ahead, Serials;
    var unseen := Unseen(rows, SYSTEM, last);
    UnseenOrdered(rows, SYSTEM, last);
    PlaceInQueue(rows, last, k);
    InPrefix(unseen, Taken(|unseen|, readable), Ahead(rows, last, rows[k].serial));
  }

  lemma InPrefix(rows: seq<Row>, n: nat, at: nat)
    requires Ordered(rows) && at < |rows| && n <= |rows|
    ensures rows[at].serial in Serials(rows[..n]) <==> at < n
  {
    if at < n {
      assert Serials(rows[..n])[at] == rows[at].serial;
    }
  }

  lemma NotUnseen(rows: seq<Row>, last: int, k: nat)
    requires Ordered(rows) && k < |rows| && rows[k].id <= last
    ensures forall i :: 0 <= i < |Unseen(rows, SYSTEM, last)| ==>
      Unseen(rows, SYSTEM, last)[i].serial != rows[k].serial
  {
    var unseen := Unseen(rows, SYSTEM, last);
    forall i | 0 <= i < |unseen| ensures unseen[i].serial != rows[k].serial {
      assert unseen[i] in unseen;
    }
  }

  /** A step reports the row exactly when the row was not missed and the step reaches it. */
  lemma StepReports(s: State, e: Event, kind: int, x: nat)
    requires Inv(s) && IsKind(kind) && Placed(s, kind, x)
    ensures x in FeedFor(Step(s, e), kind).seen <==>
      x in FeedFor(s, kind).seen || (x !in FeedFor(s, kind).missed && Reaches(s, e, kind, x))
  {
    hide HasKind, Tracks, Counted, Framed, NextId, Holds, Ahead, LIMIT, Unseen, MaxId, Taken, Serials;
    if e.Tick? {
      if kind == SYSTEM {
        CountSparesSystem(s, e.countOk);
        FramedRow(s.system, s.sys, s.serial, e.readable, x);
      } else if e.countOk {
        if kind == NEW {
          CountedRow(s.conns, NEW, s.created, s.serial, x);
        } else {
          CountedRow(s.conns, DESTROY, s.destroyed, s.serial, x);
        }
      }
    }
  }

  // ---------------------------------------------------------------- every run

  lemma Birth(s: State, e: Event, kind: int)
    requires Inv(s) && IsKind(kind) && Inserts(e, kind)
    ensures var t := Step(s, e);
      && Placed(t, kind, s.serial) && s.serial !in FeedFor(t, kind).seen
      && (s.serial in FeedFor(t, kind).missed <==> !Above(s, kind))
  {
    hide NextId, Sent, Ordered, Settled, Distinct, Known, CountTick, SystemTick, Without;
    NewSerial(TableFor(s, kind), kind, FeedFor(s, kind), s.serial);
  }

  lemma NewSerial(rows: seq<Row>, kind: int, f: Feed, serial: nat)
    requires Known(rows, f, serial)
    ensures serial !in f.seen && serial !in f.missed
    ensures forall k :: 0 <= k < |rows| ==> rows[k].serial != serial
  {
  }

  /**
   * In every run a row inserted by the event at i is reported, by the feed of its kind, exactly when its
   * id was above the feed's cursor as it was inserted and some later tick reached it in its table.
   */
  lemma {:induction false} RowReportedExactly(events: seq<Event>, i: nat, kind: int)
    requires i < |events| && IsKind(kind) && Inserts(events[i], kind)
    ensures var x := Run(events[..i]).serial;
      && Placed(Run(events), kind, x)
      && (x in FeedFor(Run(events), kind).missed <==> !Above(Run(events[..i]), kind))
      && (x in FeedFor(Run(events), kind).seen <==>
            Above(Run(events[..i]), kind) && ReachedAfter(events, i, kind, x))
  {
    hide Step, FeedFor, Placed, Above, Reaches, Inv;
    var n := |events| - 1;
    var before := events[..n];
    var x := Run(events[..i]).serial;
    if n == i {
      RunInv(before);
      Birth(Run(before), events[n], kind);
    } else {
      assert before[..i] == events[..i];
      RowReportedExactly(before, i, kind);
      RunInv(before);
      var s := Run(before);
      assert Run(events) == Step(s, events[n]);
      StepPlaced(s, events[n], kind, x);
      PlacedSerial(s, kind, x);
      StepMisses(s, events[n], kind, x);
      StepReports(s, events[n], kind, x);
      ReachedOneMore(events, i, kind, x);
    }
  }

  lemma PlacedSerial(s: State, kind: int, x: nat)
    requires Placed(s, kind, x)
    ensures x < s.serial
  {
  }

  lemma ReachedOneMore(events: seq<Event>, i: nat, kind: int, x: nat)
    requires i < |events| - 1
    ensures var n := |events| - 1;
      ReachedAfter(events, i, kind, x) <==>
      ReachedAfter(events[..n], i, kind, x) || Reaches(Run(events[..n]), events[n], kind, x)
  {
    hide Run, Reaches;
    var n := |events| - 1;
    var before := events[..n];
    assert forall j :: 0 <= j < n ==> before[..j] == events[..j];
  }

  /** A connection row that is still there at a successful count is counted iff it was born above the cursor. */
  lemma StayingRowCounted(events: seq<Event>, i: nat, j: nat, kind: int)
    requires i < j < |events| && (kind == NEW || kind == DESTROY) && events[i] == InsertConn(kind)
    requires events[j].Tick? && events[j].countOk
    requires Holds(Run(events[..j]).conns, Run(events[..i]).serial)
    ensures Run(events[..i]).serial in FeedFor(Run(events), kind).seen <==>
      NextId(Run(events[..i]).conns) > FeedFor(Run(events[..i]), kind).last
  {
    hide Run, NextId, Holds;
    RowReportedExactly(events, i, kind);
    assert Reaches(Run(events[..j]), events[j], kind, Run(events[..i]).serial);
  }

  // ---------------------------------------------------------------- system rows are reached in time

  function FullTicks(events: seq<Event>): nat {
    if events == [] then 0 else
      FullTicks(events[..|events| - 1]) + (if IsFull(events[|events| - 1]) then 1 else 0)
  }

  predicate IsFull(e: Event) { e.Tick? && e.readable >= LIMIT }

  lemma {:induction false} AheadAtMost(rows: seq<Row>, last: int, x: nat)
    ensures Ahead(rows, last, x) <= |Unseen(rows, SYSTEM, last)|
  {
    if rows != [] {
      AheadAtMost(rows[1..], last, x);
    }
  }

  /** While a row waits, each fully readable tick takes the limit of rows ahead of it. */
  lemma StepAhead(s: State, e: Event, x: nat)
    requires Inv(s) && Placed(s, SYSTEM, x)
    requires x !in FeedFor(s, SYSTEM).missed && Holds(Step(s, e).system, x)
    ensures x in Step(s, e).sys.seen ||
      Ahead(Step(s, e).system, Step(s, e).sys.last, x) + (if IsFull(e) then LIMIT else 0)
        <= Ahead(s.system, s.sys.last, x)
  {
    hide Tracks, Ordered, Settled, Known, CountTick, NextId;
    match e
    case InsertConn(_) =>
    case DeleteConns(_) =>
    case InsertSystem => AheadAppend(s.system, Row(s.serial, NextId(s.system), SYSTEM), s.sys.last, x);
    case DeleteSystem(victims) => AheadWithout(s.system, victims, s.sys.last, x);
    case Tick(ok, readable) =>
      CountSparesSystem(s, ok);
      TickAhead(s.system, s.sys, s.serial, readable, x);
  }

  lemma TickAhead(rows: seq<Row>, f: Feed, serial: nat, readable: nat, x: nat)
    requires Tracks(rows, SYSTEM, f, serial) && x !in f.missed && Holds(rows, x)
    requires HasKind(rows, SYSTEM, x)
    ensures var g := Framed(f, rows, readable);
      x in g.seen || Ahead(rows, g.last, x) + (if readable >= LIMIT then LIMIT else 0) <= Ahead(rows, f.last, x)
  {
    hide Ordered, Settled, Known, Distinct, HasKind, Ahead, Unseen, Serials;
    FramedRow(rows, f, serial, readable, x);
    if x !in Framed(f, rows, readable).seen && readable >= LIMIT {
      FullTickAhead(rows, f, readable, x);
    } else {
      FramedTracks(rows, f, serial, readable);
      AheadLater(rows, f.last, Framed(f, rows, readable).last, x);
    }
  }

  lemma FullTickAhead(rows: seq<Row>, f: Feed, readable: nat, x: nat)
    requires Ordered(rows) && readable >= LIMIT && Ahead(rows, f.last, x) >= LIMIT
    ensures Ahead(rows, Framed(f, rows, readable).last, x) + LIMIT == Ahead(rows, f.last, x)
  {
    hide Ordered, Ahead, Unseen, Serials;
    AheadAtMost(rows, f.last, x);
    AheadTaken(rows, f.last, x, LIMIT);
  }

  lemma {:induction false} WaitShrinks(events: seq<Event>, i: nat)
    requires i < |events| && events[i] == InsertSystem && Above(Run(events[..i]), SYSTEM)
    requires Holds(Run(events).system, Run(events[..i]).serial)
    ensures var s, x := Run(events), Run(events[..i]).serial;
      x in s.sys.seen || Ahead(s.system, s.sys.last, x) + FullTicks(events[i + 1..]) * LIMIT
        <= |Unseen(Run(events[..i]).system, SYSTEM, Run(events[..i]).sys.last)|
  {
    hide Above, Inv, Placed, Reaches, Ahead, Unseen, NextId, Holds, Step, FullTicks, LIMIT;
    var n := |events| - 1;
    var before := events[..n];
    var x := Run(events[..i]).serial;
    RunInv(before);
    var s := Run(before);
    assert Run(events) == Step(s, events[n]);
    if n == i {
      WaitAtBirth(s);
      assert events[i + 1..] == [];
      NoTicks();
    } else {
      assert before[..i] == events[..i];
      RowReportedExactly(before, i, SYSTEM);
      StepPlaced(s, events[n], SYSTEM, x);
      WaitShrinks(before, i);
      StepAhead(s, events[n], x);
      StepReports(s, events[n], SYSTEM, x);
      OneMoreTick(events, i);
    }
  }

  lemma WaitAtBirth(s: State)
    ensures var t := Step(s, InsertSystem);
      Ahead(t.system, t.sys.last, s.serial) <= |Unseen(s.system, SYSTEM, s.sys.last)|
  {
    AheadAppend(s.system, Row(s.serial, NextId(s.system), SYSTEM), s.sys.last, s.serial);
    AheadAtMost(s.system, s.sys.last, s.serial);
  }

  lemma NoTicks()
    ensures FullTicks([]) == 0
  {
  }

  lemma OneMoreTick(events: seq<Event>, i: nat)
    requires i < |events| - 1
    ensures var n := |events| - 1;
      FullTicks(events[i + 1..]) * LIMIT ==
      FullTicks(events[..n][i + 1..]) * LIMIT + (if IsFull(events[n]) then LIMIT else 0)
  {
    var n := |events| - 1;
    assert events[i + 1..][..n - i - 1] == events[..n][i + 1..];
  }

  /**
   * Once more fully readable ticks have passed than the rows that waited at its insertion need, a system
   * row still in the table has been pushed, exactly if it was born above the cursor.
   */
  lemma StayingRowPushed(events: seq<Event>, i: nat)
    requires i < |events| && events[i] == InsertSystem
    requires Holds(Run(events).system, Run(events[..i]).serial)
    requires var s := Run(events[..i]);
      FullTicks(events[i + 1..]) * LIMIT > |Unseen(s.system, SYSTEM, s.sys.last)|
    ensures Run(events[..i]).serial in Run(events).sys.seen <==>
      NextId(Run(events[..i]).system) > Run(events[..i]).sys.last
  {
    hide Run, Holds, Unseen, NextId, FullTicks, Ahead;
    RowReportedExactly(events, i, SYSTEM);
    if Above(Run(events[..i]), SYSTEM) {
      WaitShrinks(events, i);
    }
  }

  const TWO_PUSHED := [InsertSystem, InsertSystem, Tick(true, LIMIT)]
  const ONE_BELOW := [DeleteSystem({0, 1}), InsertSystem]

  /** The cursor of the System feed never goes back: a row born below it is never pushed, however long it stays. */
  lemma SystemRowNeverPushed(more: seq<Event>)
    ensures Run(TWO_PUSHED + ONE_BELOW).system == [Row(2, 1, SYSTEM)]
    ensures Run(TWO_PUSHED + ONE_BELOW).sys == Feed(2, [0, 1], {2})
    ensures 2 !in Run(TWO_PUSHED + ONE_BELOW + more).sys.seen
  {
    var events := TWO_PUSHED + ONE_BELOW + more;
    var s := TwoPushed();
    var t := OneBelow(s);
    RunStep(TWO_PUSHED, ONE_BELOW[0]);
    RunStep(TWO_PUSHED + [ONE_BELOW[0]], ONE_BELOW[1]);
    assert TWO_PUSHED + [ONE_BELOW[0]] + [ONE_BELOW[1]] == TWO_PUSHED + ONE_BELOW;
    assert events[..4] == TWO_PUSHED + [ONE_BELOW[0]];
    RowReportedExactly(events, 4, SYSTEM);
  }

  lemma TwoPushed() returns (s: State)
    ensures s == Run(TWO_PUSHED)
    ensures s.system == [Row(0, 1, SYSTEM), Row(1, 2, SYSTEM)] && s.serial == 2 && s.sys == Feed(2, [0, 1], {})
  {
    hide Run;
    RunThree(InsertSystem, InsertSystem, Tick(true, LIMIT));
    var two := Step(Step(START, InsertSystem), InsertSystem);
    s := PushTwo(two);
  }

  lemma PushTwo(s: State) returns (t: State)
    requires s.system == [Row(0, 1, SYSTEM), Row(1, 2, SYSTEM)] && s.serial == 2 && s.sys == NO_ROWS
    ensures t == Step(s, Tick(true, LIMIT))
    ensures t.system == s.system && t.serial == 2 && t.sys == Feed(2, [0, 1], {})
  {
    var r0, r1 := Row(0, 1, SYSTEM), Row(1, 2, SYSTEM);
    assert [r0, r1][1..] == [r1] && [r1][1..] == [];
    assert Unseen([r1], SYSTEM, 0) == [r1] && Unseen([r0, r1], SYSTEM, 0) == [r0, r1];
    assert [r0, r1][..2] == [r0, r1] && Serials([r0, r1]) == [0, 1];
    CountSparesSystem(s, true);
    t := Step(s, Tick(true, LIMIT));
  }

  lemma OneBelow(s: State) returns (t: State)
    requires s.system == [Row(0, 1, SYSTEM), Row(1, 2, SYSTEM)] && s.serial == 2 && s.sys == Feed(2, [0, 1], {})
    ensures t == Step(s, ONE_BELOW[0]) && t.serial == 2 && t.sys == s.sys && t.system == []
    ensures Step(t, ONE_BELOW[1]).system == [Row(2, 1, SYSTEM)]
    ensures Step(t, ONE_BELOW[1]).sys == Feed(2, [0, 1], {2})
  {
    var r0, r1 := Row(0, 1, SYSTEM), Row(1, 2, SYSTEM);
    assert [r0, r1][1..] == [r1] && [r1][1..] == [];
    assert Without([], {0, 1}) == [];
    assert Without([r1], {0, 1}) == [];
    assert Without([r0, r1], {0, 1}) == [];
    t := Step(s, ONE_BELOW[0]);
  }
}
