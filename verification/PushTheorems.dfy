/** What the push cursors report in every run: each row at most once, and which rows never. */
module PushTheorems {
  import opened PushCursors

  // ---------------------------------------------------------------- the invariant of one feed

  predicate Ordered(rows: seq<Row>) {
    && (forall i, j :: 0 <= i < j < |rows| ==> rows[i].id < rows[j].id && rows[i].serial < rows[j].serial)
    && (forall i :: 0 <= i < |rows| ==> rows[i].id >= 1)
  }

  predicate Distinct(s: seq<nat>) { forall i, j :: 0 <= i < j < |s| ==> s[i] != s[j] }

  /** A row of the kind that is in the table was reported, or is still to come, or was missed. */
  predicate Settled(rows: seq<Row>, kind: int, f: Feed) {
    forall i :: 0 <= i < |rows| && rows[i].kind == kind ==>
      (rows[i].id <= f.last <==> rows[i].serial in f.seen || rows[i].serial in f.missed)
  }

  predicate Known(rows: seq<Row>, f: Feed, serial: nat) {
    && (forall i :: 0 <= i < |rows| ==> rows[i].serial < serial)
    && (forall i :: 0 <= i < |f.seen| ==> f.seen[i] < serial && f.seen[i] !in f.missed)
    && (forall x :: x in f.missed ==> x < serial)
  }

  predicate Tracks(rows: seq<Row>, kind: int, f: Feed, serial: nat) {
    Ordered(rows) && Distinct(f.seen) && Settled(rows, kind, f) && Known(rows, f, serial)
  }

  lemma BornTracks(rows: seq<Row>, kind: int, f: Feed, r: Row)
    requires Tracks(rows, kind, f, r.serial) && r.id == NextId(rows)
    ensures Tracks(rows + [r], kind, Born(f, kind, r), r.serial + 1)
  {
  }

  lemma ConsOrdered(r: Row, rows: seq<Row>)
    requires Ordered(rows) && r.id >= 1
    requires forall i :: 0 <= i < |rows| ==> r.id < rows[i].id && r.serial < rows[i].serial
    ensures Ordered([r] + rows)
  {
  }

  lemma {:induction false} WithoutOrdered(rows: seq<Row>, victims: set<nat>)
    requires Ordered(rows)
    ensures Ordered(Without(rows, victims))
  {
    if rows != [] {
      WithoutOrdered(rows[1..], victims);
      var left := Without(rows[1..], victims);
      AllAbove(rows, left);
      ConsOrdered(rows[0], left);
      assert [] + left == left;
    }
  }

  lemma AllAbove(rows: seq<Row>, part: seq<Row>)
    requires Ordered(rows) && rows != [] && forall r :: r in part ==> r in rows[1..]
    ensures forall i :: 0 <= i < |part| ==> rows[0].id < part[i].id && rows[0].serial < part[i].serial
  {
    forall i | 0 <= i < |part| ensures rows[0].id < part[i].id && rows[0].serial < part[i].serial {
      assert part[i] in rows[1..];
    }
  }

  lemma DeletedTracks(rows: seq<Row>, kind: int, f: Feed, serial: nat, victims: set<nat>)
    requires Tracks(rows, kind, f, serial)
    ensures Tracks(Without(rows, victims), kind, f, serial)
  {
    WithoutOrdered(rows, victims);
    var left := Without(rows, victims);
    forall i | 0 <= i < |left| ensures left[i] in rows {
      assert left[i] in left;
    }
  }

  lemma {:induction false} UnseenOrdered(rows: seq<Row>, kind: int, last: int)
    requires Ordered(rows)
    ensures Ordered(Unseen(rows, kind, last))
  {
    if rows != [] {
      UnseenOrdered(rows[1..], kind, last);
      var unseen := Unseen(rows[1..], kind, last);
      AllAbove(rows, unseen);
      ConsOrdered(rows[0], unseen);
      assert [] + unseen == unseen;
    }
  }

  lemma {:induction false} MaxIdIsLargest(rows: seq<Row>, kind: int, last: int)
    requires Ordered(rows)
    ensures forall i :: 0 <= i < |rows| && rows[i].kind == kind ==> rows[i].id <= MaxId(rows, kind, last)
    ensures MaxId(rows, kind, last) == last || exists i :: 0 <= i < |rows| && rows[i].id == MaxId(rows, kind, last)
  {
    if rows != [] && rows[|rows| - 1].kind != kind {
      MaxIdIsLargest(rows[..|rows| - 1], kind, last);
    }
  }

  /** Reporting a prefix of the unseen rows, with the cursor at its end, keeps the account. */
  lemma ReportTracks(rows: seq<Row>, kind: int, f: Feed, serial: nat, unseen: seq<Row>, n: nat, last: int)
    requires Tracks(rows, kind, f, serial)
    requires unseen == Unseen(rows, kind, f.last) && n <= |unseen|
    requires forall i :: 0 <= i < |rows| && rows[i].kind == kind ==>
      (rows[i].id <= last <==> rows[i].id <= f.last || rows[i] in unseen[..n])
    ensures Tracks(rows, kind, Feed(last, f.seen + Serials(unseen[..n]), f.missed), serial)
  {
    UnseenOrdered(rows, kind, f.last);
    var seen := f.seen + Serials(unseen[..n]);
    forall i | 0 <= i < n
      ensures unseen[i] in rows && unseen[i].serial !in f.seen && unseen[i].serial !in f.missed
    {
      assert unseen[i] in unseen;
    }
    forall i | 0 <= i < |rows| && rows[i].kind == kind
      ensures rows[i].id <= last <==> rows[i].serial in seen || rows[i].serial in f.missed
    {
      ReportsExactly(rows, unseen[..n], i);
      SeenEither(f.seen, unseen[..n], rows[i].serial);
    }
  }

  lemma SeenEither(seen: seq<nat>, unseen: seq<Row>, x: nat)
    ensures x in seen + Serials(unseen) <==> x in seen || x in Serials(unseen)
  {
  }

  lemma ReportsExactly(rows: seq<Row>, part: seq<Row>, i: nat)
    requires Ordered(rows) && i < |rows| && forall k :: 0 <= k < |part| ==> part[k] in rows
    ensures rows[i].serial in Serials(part) <==> rows[i] in part
  {
    if rows[i].serial in Serials(part) {
      var k :| 0 <= k < |part| && Serials(part)[k] == rows[i].serial;
      var j :| 0 <= j < |rows| && rows[j] == part[k];
      assert j == i;
    }
    if rows[i] in part {
      var k :| 0 <= k < |part| && part[k] == rows[i];
      assert Serials(part)[k] == rows[i].serial;
    }
  }

  lemma CountedTracks(rows: seq<Row>, kind: int, f: Feed, serial: nat)
    requires Tracks(rows, kind, f, serial)
    ensures Tracks(rows, kind, Counted(f, rows, kind), serial)
  {
    var unseen := Unseen(rows, kind, f.last);
    MaxIdIsLargest(rows, kind, f.last);
    assert unseen[..|unseen|] == unseen;
    ReportTracks(rows, kind, f, serial, unseen, |unseen|, MaxId(rows, kind, f.last));
  }

  lemma FramedTracks(rows: seq<Row>, f: Feed, serial: nat, readable: nat)
    requires Tracks(rows, SYSTEM, f, serial)
    ensures Tracks(rows, SYSTEM, Framed(f, rows, readable), serial)
    ensures f.last <= Framed(f, rows, readable).last && f.seen <= Framed(f, rows, readable).seen
  {
    var unseen := Unseen(rows, SYSTEM, f.last);
    var n := Taken(|unseen|, readable);
    if n > 0 {
      UnseenOrdered(rows, SYSTEM, f.last);
      assert unseen[n - 1] in unseen;
      forall i | 0 <= i < |rows| && rows[i].kind == SYSTEM
        ensures rows[i].id <= unseen[n - 1].id <==> rows[i].id <= f.last || rows[i] in unseen[..n]
      {
        if rows[i] in unseen {
          var k :| 0 <= k < |unseen| && unseen[k] == rows[i];
          assert k < n ==> unseen[..n][k] == rows[i];
        }
      }
      ReportTracks(rows, SYSTEM, f, serial, unseen, n, unseen[n - 1].id);
    }
  }

  // ---------------------------------------------------------------- what was sent

  /** The counts sent so far, and the system rows sent so far. */
  datatype Tally = Tally(created: nat, destroyed: nat, system: seq<nat>)

  function Sent(frames: seq<Frame>): Tally {
    if frames == [] then Tally(0, 0, []) else
      var t := Sent(frames[..|frames| - 1]);
      match frames[|frames| - 1]
      case Stats(c, d) => Tally(t.created + c, t.destroyed + d, t.system)
      case SystemFrame(x) => Tally(t.created, t.destroyed, t.system + [x])
  }

  lemma SentMore(frames: seq<Frame>, f: Frame)
    ensures Sent(frames + [f]) == match f
      case Stats(c, d) => Tally(Sent(frames).created + c, Sent(frames).destroyed + d, Sent(frames).system)
      case SystemFrame(x) => Tally(Sent(frames).created, Sent(frames).destroyed, Sent(frames).system + [x])
  {
    assert (frames + [f])[..|frames|] == frames;
  }

  lemma {:induction false} SentSystem(frames: seq<Frame>, serials: seq<nat>)
    ensures Sent(frames + SystemFrames(serials)) == Sent(frames).(system := Sent(frames).system + serials)
  {
    if serials == [] {
      assert frames + SystemFrames(serials) == frames;
      assert Sent(frames).system + serials == Sent(frames).system;
    } else {
      var n := |serials| - 1;
      SentSystem(frames, serials[..n]);
      SentMore(frames + SystemFrames(serials[..n]), SystemFrame(serials[n]));
      assert frames + SystemFrames(serials) == frames + SystemFrames(serials[..n]) + [SystemFrame(serials[n])];
      assert Sent(frames).system + serials == Sent(frames).system + serials[..n] + [serials[n]];
    }
  }

  // ---------------------------------------------------------------- every run

  predicate Inv(s: State) {
    && Tracks(s.conns, NEW, s.created, s.serial)
    && Tracks(s.conns, DESTROY, s.destroyed, s.serial)
    && Tracks(s.system, SYSTEM, s.sys, s.serial)
    && (forall i :: 0 <= i < |s.system| ==> s.system[i].kind == SYSTEM)
    && Sent(s.frames) == Tally(|s.created.seen|, |s.destroyed.seen|, s.sys.seen)
  }

  lemma OneMoreSerial(rows: seq<Row>, kind: int, f: Feed, serial: nat)
    requires Tracks(rows, kind, f, serial)
    ensures Tracks(rows, kind, f, serial + 1)
  {
  }

  lemma CountTickInv(s: State, ok: bool)
    requires Inv(s)
    ensures Inv(CountTick(s, ok))
  {
    hide Tracks, Counted;
    if ok {
      CountedTracks(s.conns, NEW, s.created, s.serial);
      CountedTracks(s.conns, DESTROY, s.destroyed, s.serial);
      CountedGrows(s.created, s.conns, NEW);
      CountedGrows(s.destroyed, s.conns, DESTROY);
      var t := CountTick(s, ok);
      SentMore(s.frames, t.frames[|s.frames|]);
    }
  }

  lemma CountedGrows(f: Feed, rows: seq<Row>, kind: int)
    ensures f.seen <= Counted(f, rows, kind).seen
  {
  }

  lemma SystemTickInv(s: State, readable: nat)
    requires Inv(s)
    ensures Inv(SystemTick(s, readable))
  {
    hide Tracks, Framed;
    FramedTracks(s.system, s.sys, s.serial, readable);
    var sys := Framed(s.sys, s.system, readable);
    SentSystem(s.frames, sys.seen[|s.sys.seen|..]);
    assert s.sys.seen + sys.seen[|s.sys.seen|..] == sys.seen;
  }

  lemma StepInv(s: State, e: Event)
    requires Inv(s)
    ensures Inv(Step(s, e))
  {
    hide Tracks, Born, CountTick, SystemTick, NextId;
    match e
    case InsertConn(kind) =>
      var r := Row(s.serial, NextId(s.conns), kind);
      BornTracks(s.conns, NEW, s.created, r);
      BornTracks(s.conns, DESTROY, s.destroyed, r);
      OneMoreSerial(s.system, SYSTEM, s.sys, s.serial);
      BornSends(s.created, NEW, r);
      BornSends(s.destroyed, DESTROY, r);
    case InsertSystem =>
      var r := Row(s.serial, NextId(s.system), SYSTEM);
      BornTracks(s.system, SYSTEM, s.sys, r);
      OneMoreSerial(s.conns, NEW, s.created, s.serial);
      OneMoreSerial(s.conns, DESTROY, s.destroyed, s.serial);
      BornSends(s.sys, SYSTEM, r);
    case DeleteConns(victims) =>
      DeletedTracks(s.conns, NEW, s.created, s.serial, victims);
      DeletedTracks(s.conns, DESTROY, s.destroyed, s.serial, victims);
    case DeleteSystem(victims) =>
      DeletedTracks(s.system, SYSTEM, s.sys, s.serial, victims);
      var left := Without(s.system, victims);
      forall i | 0 <= i < |left| ensures left[i].kind == SYSTEM {
        assert left[i] in left && left[i] in s.system;
      }
    case Tick(ok, readable) =>
      CountTickInv(s, ok);
      SystemTickInv(CountTick(s, ok), readable);
  }

  lemma BornSends(f: Feed, kind: int, r: Row)
    ensures Born(f, kind, r).seen == f.seen
  {
  }

  /**
   * In every run, whatever is deleted and whichever queries fail: no row is reported twice, the counts
   * sent add up to the rows reported, and each row of the kind still in its table was reported, is
   * beyond the cursor, or was born at or below it.
   */
  lemma {:induction false} RunInv(events: seq<Event>)
    ensures Inv(Run(events))
  {
    if events != [] {
      RunInv(events[..|events| - 1]);
      StepInv(Run(events[..|events| - 1]), events[|events| - 1]);
    }
  }

  lemma RunStep(events: seq<Event>, e: Event)
    ensures Run(events + [e]) == Step(Run(events), e)
  {
    assert (events + [e])[..|events|] == events;
  }

  lemma FramedAll(rows: seq<Row>, f: Feed, serial: nat, readable: nat)
    requires Tracks(rows, SYSTEM, f, serial) && readable >= LIMIT && |Unseen(rows, SYSTEM, f.last)| <= LIMIT
    ensures forall i :: 0 <= i < |rows| && rows[i].kind == SYSTEM ==> rows[i].id <= Framed(f, rows, readable).last
  {
    var unseen := Unseen(rows, SYSTEM, f.last);
    UnseenOrdered(rows, SYSTEM, f.last);
    assert Taken(|unseen|, readable) == |unseen|;
    forall i | 0 <= i < |rows| && rows[i].kind == SYSTEM ensures rows[i].id <= Framed(f, rows, readable).last {
      if rows[i].id > f.last {
        assert rows[i] in unseen;
      } else if unseen != [] {
        assert unseen[|unseen| - 1] in unseen;
      }
    }
  }

  /** A tick that can read everything sends LIMIT system rows, or all there are. */
  lemma SystemCatchesUp(events: seq<Event>, ok: bool, readable: nat)
    requires readable >= LIMIT
    ensures var s, t := Run(events), Run(events + [Tick(ok, readable)]);
      var waiting := |Unseen(s.system, SYSTEM, s.sys.last)|;
      && |t.sys.seen| == |s.sys.seen| + (if waiting < LIMIT then waiting else LIMIT)
      && (waiting <= LIMIT ==> forall i :: 0 <= i < |s.system| ==>
            (s.system[i].serial in t.sys.seen <==> s.system[i].serial !in s.sys.missed))
  {
    hide Run, Unseen, CountTick, Ordered;
    var s := Run(events);
    RunInv(events);
    RunStep(events, Tick(ok, readable));
    CountSparesSystem(s, ok);
    FramedTracks(s.system, s.sys, s.serial, readable);
    if |Unseen(s.system, SYSTEM, s.sys.last)| <= LIMIT {
      FramedAll(s.system, s.sys, s.serial, readable);
    }
  }

  // ---------------------------------------------------------------- when rows are missed

  /** As long as each deletion spares the newest row, ids only grow and nothing is missed. */
  predicate SparesNewest(events: seq<Event>) {
    forall i :: 0 <= i < |events| ==> match events[i]
      case DeleteConns(victims) => var rows := Run(events[..i]).conns;
        rows != [] ==> rows[|rows| - 1].serial !in victims
      case DeleteSystem(victims) => var rows := Run(events[..i]).system;
        rows != [] ==> rows[|rows| - 1].serial !in victims
      case _ => true
  }

  predicate NoneMissed(s: State) {
    && s.created.missed == {} && s.created.last < NextId(s.conns)
    && s.destroyed.missed == {} && s.destroyed.last < NextId(s.conns)
    && s.sys.missed == {} && s.sys.last < NextId(s.system)
  }

  lemma {:induction false} WithoutNewest(rows: seq<Row>, victims: set<nat>)
    requires rows != [] ==> rows[|rows| - 1].serial !in victims
    ensures NextId(Without(rows, victims)) == NextId(rows)
  {
    if |rows| > 1 {
      WithoutNewest(rows[1..], victims);
      assert Without(rows[1..], victims) != [] by {
        assert rows[|rows| - 1] in rows[1..];
      }
    }
  }

  lemma CountedBelow(rows: seq<Row>, kind: int, f: Feed)
    requires Ordered(rows) && f.last < NextId(rows)
    ensures Counted(f, rows, kind).last < NextId(rows) && Counted(f, rows, kind).missed == f.missed
  {
    MaxIdIsLargest(rows, kind, f.last);
  }

  lemma FramedBelow(rows: seq<Row>, f: Feed, readable: nat)
    requires Ordered(rows) && f.last < NextId(rows)
    ensures Framed(f, rows, readable).last < NextId(rows) && Framed(f, rows, readable).missed == f.missed
  {
    var unseen := Unseen(rows, SYSTEM, f.last);
    var n := Taken(|unseen|, readable);
    if n > 0 {
      assert unseen[n - 1] in unseen;
    }
  }

  lemma TickNoneMissed(s: State, ok: bool, readable: nat)
    requires Inv(s) && NoneMissed(s)
    ensures NoneMissed(Step(s, Tick(ok, readable)))
  {
    hide Counted, Framed, NextId, Ordered, Settled, Known;
    CountedBelow(s.conns, NEW, s.created);
    CountedBelow(s.conns, DESTROY, s.destroyed);
    FramedBelow(s.system, s.sys, readable);
  }

  lemma {:induction false} NothingMissed(events: seq<Event>)
    requires SparesNewest(events)
    ensures NoneMissed(Run(events))
  {
    if events != [] {
      var n := |events| - 1;
      var before := events[..n];
      assert forall i :: 0 <= i < n ==> before[..i] == events[..i];
      assert SparesNewest(before);
      NothingMissed(before);
      NothingMissedStep(before, events[n]);
    }
  }

  lemma NothingMissedStep(events: seq<Event>, e: Event)
    requires NoneMissed(Run(events))
    requires var s := Run(events);
      match e
      case DeleteConns(victims) => s.conns != [] ==> s.conns[|s.conns| - 1].serial !in victims
      case DeleteSystem(victims) => s.system != [] ==> s.system[|s.system| - 1].serial !in victims
      case _ => true
    ensures NoneMissed(Step(Run(events), e))
  {
    hide Run, CountTick, SystemTick;
    var s := Run(events);
    match e
    case DeleteConns(victims) => WithoutNewest(s.conns, victims);
    case DeleteSystem(victims) => WithoutNewest(s.system, victims);
    case Tick(ok, readable) =>
      RunInv(events);
      TickNoneMissed(s, ok, readable);
    case InsertConn(kind) =>
    case InsertSystem =>
  }

  const TWO_COUNTED := [InsertConn(NEW), InsertConn(NEW), Tick(true, 0)]
  const ONE_AFTER := [DeleteConns({0, 1}), InsertConn(NEW), Tick(true, 0)]

  /** The cursor goes back after deletions, and the next row is never counted. */
  lemma CursorGoesBack()
    ensures Run(TWO_COUNTED).created == Feed(2, [0, 1], {})
    ensures Run(TWO_COUNTED + ONE_AFTER).created == Feed(1, [0, 1], {2})
    ensures Run(TWO_COUNTED + ONE_AFTER).frames == [Stats(2, 0), Stats(0, 0)]
  {
    var s := TwoCounted();
    var t := OneMissed(s);
    RunStep(TWO_COUNTED, ONE_AFTER[0]);
    RunStep(TWO_COUNTED + [ONE_AFTER[0]], ONE_AFTER[1]);
    RunStep(TWO_COUNTED + [ONE_AFTER[0]] + [ONE_AFTER[1]], ONE_AFTER[2]);
    assert TWO_COUNTED + [ONE_AFTER[0]] + [ONE_AFTER[1]] + [ONE_AFTER[2]] == TWO_COUNTED + ONE_AFTER;
  }

  lemma RunThree(a: Event, b: Event, c: Event)
    ensures Run([a, b, c]) == Step(Step(Step(START, a), b), c)
  {
    hide Step;
    RunStep([], a);
    RunStep([a], b);
    RunStep([a, b], c);
    assert [] + [a] == [a] && [a] + [b] == [a, b] && [a, b] + [c] == [a, b, c];
  }

  lemma TwoCounted() returns (s: State)
    ensures s == Run(TWO_COUNTED)
    ensures s == State([Row(0, 1, NEW), Row(1, 2, NEW)], [], 2, Feed(2, [0, 1], {}), NO_ROWS, NO_ROWS, [Stats(2, 0)])
  {
    RunThree(InsertConn(NEW), InsertConn(NEW), Tick(true, 0));
    s := CountTwo(Step(Step(START, InsertConn(NEW)), InsertConn(NEW)));
  }

  lemma CountTwo(s: State) returns (t: State)
    requires s == State([Row(0, 1, NEW), Row(1, 2, NEW)], [], 2, NO_ROWS, NO_ROWS, NO_ROWS, [])
    ensures t == Step(s, Tick(true, 0))
    ensures t == State(s.conns, [], 2, Feed(2, [0, 1], {}), NO_ROWS, NO_ROWS, [Stats(2, 0)])
  {
    var r0, r1 := Row(0, 1, NEW), Row(1, 2, NEW);
    assert [r0, r1][1..] == [r1];
    assert Unseen([r1], NEW, 0) == [r1] && Unseen([r1], DESTROY, 0) == [];
    assert Serials([r0, r1]) == [0, 1] && Serials([]) == [];
    assert MaxId([r0], DESTROY, 0) == 0 && [r0, r1][..1] == [r0];
    t := Step(s, Tick(true, 0));
  }

  lemma CountOne(s: State, r: Row) returns (t: State)
    requires r == Row(2, 1, NEW)
    requires s == State([r], [], 3, Feed(2, [0, 1], {2}), NO_ROWS, NO_ROWS, [Stats(2, 0)])
    ensures t == Step(s, Tick(true, 0))
    ensures t.created == Feed(1, [0, 1], {2}) && t.frames == [Stats(2, 0), Stats(0, 0)]
  {
    assert [r][1..] == [] && [r][..0] == [];
    assert Unseen([], NEW, 2) == [] && Unseen([], DESTROY, 0) == [] && Serials([]) == [];
    assert Unseen([r], NEW, 2) == [] && Unseen([r], DESTROY, 0) == [];
    assert MaxId([], DESTROY, 0) == 0 && MaxId([r], NEW, 2) == 1;
    t := Step(s, Tick(true, 0));
    assert CountTick(s, true).frames == [Stats(2, 0), Stats(0, 0)];
  }

  lemma OneMissed(s: State) returns (t: State)
    requires s == State([Row(0, 1, NEW), Row(1, 2, NEW)], [], 2, Feed(2, [0, 1], {}), NO_ROWS, NO_ROWS, [Stats(2, 0)])
    ensures t == Step(Step(Step(s, ONE_AFTER[0]), ONE_AFTER[1]), ONE_AFTER[2])
    ensures t.created == Feed(1, [0, 1], {2}) && t.frames == [Stats(2, 0), Stats(0, 0)]
  {
    var r0, r1, r2 := Row(0, 1, NEW), Row(1, 2, NEW), Row(2, 1, NEW);
    assert [r0, r1][1..] == [r1] && [r1][1..] == [];
    assert Without([], {0, 1}) == [];
    assert Without([r1], {0, 1}) == [];
    assert Without([r0, r1], {0, 1}) == [];
    var u := s.(conns := []);
    assert Step(s, ONE_AFTER[0]) == u;
    var v := u.(conns := [r2], serial := 3, created := Feed(2, [0, 1], {2}));
    assert Step(u, ONE_AFTER[1]) == v;
    t := CountOne(v, r2);
  }

  // ---------------------------------------------------------------- tables that only grow

  predicate OnlyGrows(events: seq<Event>) {
    forall i :: 0 <= i < |events| ==> !events[i].DeleteConns? && !events[i].DeleteSystem?
  }

  predicate IsRow(rows: seq<Row>, kind: int, last: int, serial: nat) {
    exists k :: 0 <= k < |rows| && rows[k].serial == serial && rows[k].kind == kind && rows[k].id <= last
  }

  /** What was reported is rows still in the table, oldest first. */
  predicate InOrder(rows: seq<Row>, kind: int, f: Feed) {
    && (forall i, j :: 0 <= i < j < |f.seen| ==> f.seen[i] < f.seen[j])
    && (forall i :: 0 <= i < |f.seen| ==> IsRow(rows, kind, f.last, f.seen[i]))
  }

  lemma UnseenIsRow(rows: seq<Row>, kind: int, f: Feed, last: int, i: nat)
    requires i < |Unseen(rows, kind, f.last)| && Unseen(rows, kind, f.last)[i].id <= last
    ensures IsRow(rows, kind, last, Unseen(rows, kind, f.last)[i].serial)
  {
    var r := Unseen(rows, kind, f.last)[i];
    assert r in Unseen(rows, kind, f.last);
    var k :| 0 <= k < |rows| && rows[k] == r;
  }

  lemma SeenBeforeUnseen(rows: seq<Row>, kind: int, f: Feed, x: nat, j: nat)
    requires Ordered(rows) && IsRow(rows, kind, f.last, x) && j < |Unseen(rows, kind, f.last)|
    ensures x < Unseen(rows, kind, f.last)[j].serial
  {
    var r := Unseen(rows, kind, f.last)[j];
    var k :| 0 <= k < |rows| && rows[k].serial == x && rows[k].kind == kind && rows[k].id <= f.last;
    assert r in Unseen(rows, kind, f.last);
    var m :| 0 <= m < |rows| && rows[m] == r;
    assert k < m;
  }

  lemma ReportInOrder(rows: seq<Row>, kind: int, f: Feed, n: nat, last: int)
    requires Ordered(rows) && InOrder(rows, kind, f) && n <= |Unseen(rows, kind, f.last)|
    requires f.last <= last && forall i :: 0 <= i < n ==> Unseen(rows, kind, f.last)[i].id <= last
    ensures InOrder(rows, kind, Feed(last, f.seen + Serials(Unseen(rows, kind, f.last)[..n]), f.missed))
  {
    var part := Unseen(rows, kind, f.last)[..n];
    UnseenOrdered(rows, kind, f.last);
    forall i | 0 <= i < n ensures IsRow(rows, kind, last, part[i].serial) {
      UnseenIsRow(rows, kind, f, last, i);
    }
    forall i, j | 0 <= i < |f.seen| && 0 <= j < n ensures f.seen[i] < part[j].serial {
      SeenBeforeUnseen(rows, kind, f, f.seen[i], j);
    }
    forall i | 0 <= i < |f.seen| ensures IsRow(rows, kind, last, f.seen[i]) {
      RowStays(rows, kind, f.last, last, f.seen[i]);
    }
    hide Unseen, IsRow;
    JoinInOrder(rows, kind, last, f.seen, part, f.missed);
  }

  lemma RowStays(rows: seq<Row>, kind: int, early: int, late: int, x: nat)
    requires IsRow(rows, kind, early, x) && early <= late
    ensures IsRow(rows, kind, late, x)
  {
    var k :| 0 <= k < |rows| && rows[k].serial == x && rows[k].kind == kind && rows[k].id <= early;
  }

  lemma JoinInOrder(rows: seq<Row>, kind: int, last: int, seen: seq<nat>, part: seq<Row>, missed: set<nat>)
    requires forall i, j :: 0 <= i < j < |seen| ==> seen[i] < seen[j]
    requires forall i, j :: 0 <= i < j < |part| ==> part[i].serial < part[j].serial
    requires forall i, j :: 0 <= i < |seen| && 0 <= j < |part| ==> seen[i] < part[j].serial
    requires forall i :: 0 <= i < |seen| ==> IsRow(rows, kind, last, seen[i])
    requires forall i :: 0 <= i < |part| ==> IsRow(rows, kind, last, part[i].serial)
    ensures InOrder(rows, kind, Feed(last, seen + Serials(part), missed))
  {
    hide IsRow;
    var all := seen + Serials(part);
    forall i | |seen| <= i < |all| ensures all[i] == part[i - |seen|].serial {}
  }

  /** The cursor is still at its start, or stands at a row of the kind. */
  predicate AtRow(rows: seq<Row>, kind: int, f: Feed) {
    f.last == 0 || exists k :: 0 <= k < |rows| && rows[k].kind == kind && rows[k].id == f.last
  }

  predicate Prefix(rows: seq<Row>, kind: int, f: Feed) {
    InOrder(rows, kind, f) && AtRow(rows, kind, f)
  }

  lemma {:induction false} MaxIdAtRow(rows: seq<Row>, kind: int, last: int)
    ensures MaxId(rows, kind, last) == last || AtRow(rows, kind, Feed(MaxId(rows, kind, last), [], {}))
  {
    if rows != [] && rows[|rows| - 1].kind != kind {
      MaxIdAtRow(rows[..|rows| - 1], kind, last);
    }
  }

  lemma CountedPrefix(rows: seq<Row>, kind: int, f: Feed)
    requires Ordered(rows) && Prefix(rows, kind, f)
    ensures Prefix(rows, kind, Counted(f, rows, kind))
    ensures f.last <= Counted(f, rows, kind).last
  {
    var unseen, last := Unseen(rows, kind, f.last), MaxId(rows, kind, f.last);
    MaxIdIsLargest(rows, kind, f.last);
    MaxIdAtRow(rows, kind, f.last);
    assert unseen[..|unseen|] == unseen;
    forall i | 0 <= i < |unseen| ensures unseen[i].id <= last {
      assert unseen[i] in unseen;
    }
    ReportInOrder(rows, kind, f, |unseen|, last);
  }

  lemma FramedPrefix(rows: seq<Row>, f: Feed, readable: nat)
    requires Ordered(rows) && Prefix(rows, SYSTEM, f)
    ensures Prefix(rows, SYSTEM, Framed(f, rows, readable))
  {
    var unseen := Unseen(rows, SYSTEM, f.last);
    var n := Taken(|unseen|, readable);
    if n > 0 {
      UnseenOrdered(rows, SYSTEM, f.last);
      assert unseen[n - 1] in unseen;
      ReportInOrder(rows, SYSTEM, f, n, unseen[n - 1].id);
    }
  }

  lemma BornPrefix(rows: seq<Row>, kind: int, f: Feed, r: Row)
    requires Prefix(rows, kind, f)
    ensures Prefix(rows + [r], kind, Born(f, kind, r))
  {
    forall i | 0 <= i < |f.seen| ensures IsRow(rows + [r], kind, f.last, f.seen[i]) {
      var k :| 0 <= k < |rows| && rows[k].serial == f.seen[i] && rows[k].kind == kind && rows[k].id <= f.last;
      assert (rows + [r])[k] == rows[k];
    }
    if f.last != 0 {
      var k :| 0 <= k < |rows| && rows[k].kind == kind && rows[k].id == f.last;
      assert (rows + [r])[k] == rows[k];
    }
  }

  predicate Prefixes(s: State) {
    Prefix(s.conns, NEW, s.created) && Prefix(s.conns, DESTROY, s.destroyed) && Prefix(s.system, SYSTEM, s.sys)
  }

  /**
   * Over tables that only grow nothing is missed, and what a feed reported is, oldest first and without
   * a repeat, exactly the rows of its kind up to its cursor.
   */
  lemma {:induction false} GrowingTables(events: seq<Event>)
    requires OnlyGrows(events)
    ensures Inv(Run(events)) && NoneMissed(Run(events)) && Prefixes(Run(events))
  {
    RunInv(events);
    NothingMissed(events);
    if events != [] {
      var n := |events| - 1;
      GrowingTables(events[..n]);
      StepPrefixes(Run(events[..n]), events[n]);
    }
  }

  lemma StepPrefixes(s: State, e: Event)
    requires Inv(s) && Prefixes(s) && !e.DeleteConns? && !e.DeleteSystem?
    ensures Prefixes(Step(s, e))
  {
    hide Prefix, Born, Counted, Framed, NextId;
    match e
    case InsertConn(kind) =>
      var r := Row(s.serial, NextId(s.conns), kind);
      BornPrefix(s.conns, NEW, s.created, r);
      BornPrefix(s.conns, DESTROY, s.destroyed, r);
    case InsertSystem =>
      BornPrefix(s.system, SYSTEM, s.sys, Row(s.serial, NextId(s.system), SYSTEM));
    case Tick(ok, readable) =>
      CountedPrefix(s.conns, NEW, s.created);
      CountedPrefix(s.conns, DESTROY, s.destroyed);
      FramedPrefix(s.system, s.sys, readable);
  }

  /** So the rows reported are exactly those up to the cursor. */
  lemma ReportedExactly(events: seq<Event>, i: nat)
    requires OnlyGrows(events) && i < |Run(events).system|
    ensures var s := Run(events);
      s.system[i].serial in s.sys.seen <==> s.system[i].id <= s.sys.last
  {
    GrowingTables(events);
  }
}
