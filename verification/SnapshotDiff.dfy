/**
 * The fallback connection listener (internal/conn/fallback.go): adjacent snapshots are compared by
 * five-tuple key, and the differences become NEW, UPDATE and DESTROY events.
 *
 * Map iteration order is left open: whatever holds here holds for every order.
 */
module SnapshotDiff {
  import opened Wrappers
  import opened Decimal

  type Port = x: int | 0 <= x < 0x1_0000
  type Ip = x: int | 0 <= x < 0x1_0000_0000
  type Proto = x: int | 0 <= x < 0x100

  datatype Tuple = Tuple(proto: Proto, srcIp: Ip, srcPort: Port, dstIp: Ip, dstPort: Port)

  datatype SnapConn = SnapConn(tuple: Tuple, state: string, pid: int)

  datatype Kind = New | Update | Destroy

  datatype ConnEvent = ConnEvent(ts: int, kind: Kind, tuple: Tuple)

  type Snapshot = map<string, SnapConn>

  // ---------------------------------------------------------------- keys

  function SnapKey(t: Tuple): string {
    Show(t.proto) + ":" + (Show(t.srcIp) + ":" + (Show(t.srcPort) + ":" + (Show(t.dstIp) + ":" + Show(t.dstPort))))
  }

  lemma FirstNumber(a: nat, b: nat, x: string, y: string)
    requires Show(a) + ":" + x == Show(b) + ":" + y
    ensures a == b && x == y
  {
    ShowPlain(a, ':');
    ShowPlain(b, ':');
    CutAtSeparator(Show(a), Show(b), x, y, ':');
    ShowInjective(a, b);
  }

  /** Two connections share a key exactly when they share the five-tuple. */
  lemma KeyIsTuple(s: Tuple, t: Tuple)
    ensures SnapKey(s) == SnapKey(t) <==> s == t
  {
    if SnapKey(s) == SnapKey(t) {
      var s3, t3 := Show(s.dstIp) + ":" + Show(s.dstPort), Show(t.dstIp) + ":" + Show(t.dstPort);
      var s2, t2 := Show(s.srcPort) + ":" + s3, Show(t.srcPort) + ":" + t3;
      var s1, t1 := Show(s.srcIp) + ":" + s2, Show(t.srcIp) + ":" + t2;
      FirstNumber(s.proto, t.proto, s1, t1);
      FirstNumber(s.srcIp, t.srcIp, s2, t2);
      FirstNumber(s.srcPort, t.srcPort, s3, t3);
      FirstNumber(s.dstIp, t.dstIp, Show(s.dstPort), Show(t.dstPort));
      ShowInjective(s.dstPort, t.dstPort);
    }
  }

  predicate Keyed(m: Snapshot) {
    forall k :: k in m ==> SnapKey(m[k].tuple) == k
  }

  /** The snapshot of a list of connections; of two with one key the later stays. */
  function Indexed(conns: seq<SnapConn>): (m: Snapshot)
    ensures Keyed(m)
  {
    if conns == [] then map[] else
      var c := conns[|conns| - 1];
      Indexed(conns[..|conns| - 1])[SnapKey(c.tuple) := c]
  }

  predicate Lists(conns: seq<SnapConn>, k: string) {
    exists i :: 0 <= i < |conns| && SnapKey(conns[i].tuple) == k
  }

  /** No later connection has the key of the i-th. */
  predicate IsLast(conns: seq<SnapConn>, i: nat)
    requires i < |conns|
  {
    forall j :: i < j < |conns| ==> SnapKey(conns[j].tuple) != SnapKey(conns[i].tuple)
  }

  /** The keys of a snapshot are those listed, and each stands for the last connection listed with it. */
  ghost predicate Lasts(conns: seq<SnapConn>, m: Snapshot) {
    (forall k :: k in m <==> Lists(conns, k)) && LastOnes(conns, m)
  }

  predicate LastOnes(conns: seq<SnapConn>, m: Snapshot) {
    forall i :: 0 <= i < |conns| && IsLast(conns, i) ==>
      SnapKey(conns[i].tuple) in m && m[SnapKey(conns[i].tuple)] == conns[i]
  }

  lemma {:induction false} IndexedIsLast(conns: seq<SnapConn>)
    ensures Lasts(conns, Indexed(conns))
  {
    if conns != [] {
      var n := |conns| - 1;
      IndexedIsLast(conns[..n]);
      hide Lasts, SnapKey;
      LastsOneMore(conns, Indexed(conns[..n]));
    }
  }

  lemma LastsOneMore(conns: seq<SnapConn>, m: Snapshot)
    requires conns != [] && Lasts(conns[..|conns| - 1], m)
    ensures var c := conns[|conns| - 1]; Lasts(conns, m[SnapKey(c.tuple) := c])
  {
    ListsOneMore(conns);
    LastOneMore(conns, m);
    hide SnapKey, Lists, LastOnes;
  }

  lemma LastOneMore(conns: seq<SnapConn>, m: Snapshot)
    requires conns != [] && LastOnes(conns[..|conns| - 1], m)
    ensures var c := conns[|conns| - 1]; LastOnes(conns, m[SnapKey(c.tuple) := c])
  {
    LastBefore(conns);
    hide SnapKey, IsLast;
  }

  /** A connection that is the last of its key was so before another key came. */
  lemma LastBefore(conns: seq<SnapConn>)
    requires conns != []
    ensures var n := |conns| - 1;
      forall i :: 0 <= i < n && IsLast(conns, i) ==>
        && conns[..n][i] == conns[i] && IsLast(conns[..n], i)
        && SnapKey(conns[n].tuple) != SnapKey(conns[i].tuple)
  {
    hide SnapKey;
  }

  lemma ListsOneMore(conns: seq<SnapConn>)
    requires conns != []
    ensures var n := |conns| - 1;
      forall k :: Lists(conns, k) <==> Lists(conns[..n], k) || SnapKey(conns[n].tuple) == k
  {
    hide SnapKey;
    var n := |conns| - 1;
    forall k ensures Lists(conns, k) <==> Lists(conns[..n], k) || SnapKey(conns[n].tuple) == k {
      if i :| 0 <= i < |conns| && SnapKey(conns[i].tuple) == k {
        assert i < n ==> conns[..n][i] == conns[i];
      }
      if i :| 0 <= i < n && SnapKey(conns[..n][i].tuple) == k {
        assert conns[i] == conns[..n][i];
      }
    }
  }

  // ---------------------------------------------------------------- the differences

  /** What should be reported about a key. */
  function Expected(prev: Snapshot, cur: Snapshot, k: string, ts: int): Option<ConnEvent> {
    if k in cur && k !in prev then Some(ConnEvent(ts, New, cur[k].tuple))
    else if k in prev && k !in cur then Some(ConnEvent(ts, Destroy, prev[k].tuple))
    else if k in prev && k in cur && cur[k].state != prev[k].state then Some(ConnEvent(ts, Update, cur[k].tuple))
    else None
  }

  function EventKey(e: ConnEvent): string { SnapKey(e.tuple) }

  predicate OneEventPerKey(out: seq<ConnEvent>) {
    forall i, j :: 0 <= i < j < |out| ==> EventKey(out[i]) != EventKey(out[j])
  }

  predicate Reports(out: seq<ConnEvent>, k: string) {
    exists i :: 0 <= i < |out| && EventKey(out[i]) == k
  }

  /** Every event is the expected one for its key, and each key with something to report has its event. */
  ghost predicate DiffOf(out: seq<ConnEvent>, prev: Snapshot, cur: Snapshot, ts: int) {
    && OneEventPerKey(out)
    && (forall i :: 0 <= i < |out| ==> Expected(prev, cur, EventKey(out[i]), ts) == Some(out[i]))
    && (forall k :: Expected(prev, cur, k, ts).Some? ==> Reports(out, k))
  }

  // ---------------------------------------------------------------- replaying

  /** The connections a reader of the events believes to be alive. */
  function Replay(live: set<string>, out: seq<ConnEvent>): set<string> {
    if out == [] then live else
      var before := Replay(live, out[..|out| - 1]);
      var e := out[|out| - 1];
      match e.kind
      case New => before + {EventKey(e)}
      case Destroy => before - {EventKey(e)}
      case Update => before
  }

  lemma {:induction false} ReplayOthers(live: set<string>, out: seq<ConnEvent>, k: string)
    requires !Reports(out, k)
    ensures k in Replay(live, out) <==> k in live
  {
    if out != [] {
      var n := |out| - 1;
      assert forall i :: 0 <= i < n ==> out[..n][i] == out[i];
      assert EventKey(out[n]) != k;
      ReplayOthers(live, out[..n], k);
    }
  }

  lemma {:induction false} ReplayOne(live: set<string>, out: seq<ConnEvent>, i: nat)
    requires OneEventPerKey(out) && i < |out|
    ensures EventKey(out[i]) in Replay(live, out) <==> LeavesLive(live, out[i])
  {
    var n := |out| - 1;
    FewerEvents(out);
    ReplayLast(live, out, EventKey(out[i]));
    hide OneEventPerKey, Reports, Replay;
    if i < n {
      assert out[..n][i] == out[i];
      ReplayOne(live, out[..n], i);
    } else {
      ReplayOthers(live, out[..n], EventKey(out[n]));
      assert LeavesLive(live, out[n]) <==>
        out[n].kind == New || (out[n].kind == Update && EventKey(out[n]) in live);
    }
  }

  lemma ReplayLast(live: set<string>, out: seq<ConnEvent>, k: string)
    requires out != []
    ensures var n := |out| - 1;
      k in Replay(live, out) <==>
        if EventKey(out[n]) == k then
          out[n].kind != Destroy && (out[n].kind == New || k in Replay(live, out[..n]))
        else k in Replay(live, out[..n])
  {
  }

  lemma FewerEvents(out: seq<ConnEvent>)
    requires OneEventPerKey(out) && out != []
    ensures var n := |out| - 1;
      && OneEventPerKey(out[..n]) && !Reports(out[..n], EventKey(out[n]))
      && forall i :: 0 <= i < n ==> EventKey(out[i]) != EventKey(out[n])
  {
  }

  /** Whether the key is there once the event is replayed. */
  predicate LeavesLive(live: set<string>, e: ConnEvent) {
    match e.kind case New => true case Destroy => false case Update => EventKey(e) in live
  }

  /** Replaying the differences turns the keys of the one snapshot into those of the other. */
  lemma DiffReplays(out: seq<ConnEvent>, prev: Snapshot, cur: Snapshot, ts: int)
    requires DiffOf(out, prev, cur, ts)
    ensures Replay(prev.Keys, out) == cur.Keys
  {
    forall k ensures k in Replay(prev.Keys, out) <==> k in cur.Keys {
      if Reports(out, k) {
        var i :| 0 <= i < |out| && EventKey(out[i]) == k;
        ReplayOne(prev.Keys, out, i);
      } else {
        ReplayOthers(prev.Keys, out, k);
      }
    }
  }

  /** Cut short, they leave it in between: what stays is never lost, and nothing unheard of appears. */
  lemma CutShortReplays(out: seq<ConnEvent>, prev: Snapshot, cur: Snapshot, ts: int, n: nat)
    requires DiffOf(out, prev, cur, ts) && n <= |out|
    ensures prev.Keys * cur.Keys <= Replay(prev.Keys, out[..n]) <= prev.Keys + cur.Keys
  {
    var part := out[..n];
    assert forall i :: 0 <= i < n ==> part[i] == out[i];
    assert OneEventPerKey(part);
    forall k ensures (k in prev.Keys * cur.Keys ==> k in Replay(prev.Keys, part)) &&
                     (k in Replay(prev.Keys, part) ==> k in prev.Keys + cur.Keys)
    {
      if Reports(part, k) {
        var i :| 0 <= i < n && EventKey(part[i]) == k;
        ReplayOne(prev.Keys, part, i);
      } else {
        ReplayOthers(prev.Keys, part, k);
      }
    }
  }

  /** An event of a kind for a key is there exactly when the snapshots differ in that way. */
  lemma EventsExactly(out: seq<ConnEvent>, prev: Snapshot, cur: Snapshot, ts: int, t: Tuple)
    requires DiffOf(out, prev, cur, ts) && Keyed(prev) && Keyed(cur)
    ensures ConnEvent(ts, New, t) in out <==> SnapKey(t) in cur && SnapKey(t) !in prev
    ensures ConnEvent(ts, Destroy, t) in out <==> SnapKey(t) in prev && SnapKey(t) !in cur
    ensures ConnEvent(ts, Update, t) in out <==>
      SnapKey(t) in prev && SnapKey(t) in cur && prev[SnapKey(t)].state != cur[SnapKey(t)].state
  {
    var k := SnapKey(t);
    if k in prev { KeyIsTuple(prev[k].tuple, t); }
    if k in cur { KeyIsTuple(cur[k].tuple, t); }
    if e :| e in out && EventKey(e) == k {
      var i :| 0 <= i < |out| && out[i] == e;
      assert Expected(prev, cur, k, ts) == Some(e);
    }
    if Expected(prev, cur, k, ts).Some? {
      var i :| 0 <= i < |out| && EventKey(out[i]) == k;
      assert Expected(prev, cur, k, ts) == Some(out[i]);
      assert out[i] in out;
    }
    forall kind, e | e == ConnEvent(ts, kind, t) && e in out ensures Expected(prev, cur, k, ts) == Some(e) {
      var i :| 0 <= i < |out| && out[i] == e;
    }
  }

  // ---------------------------------------------------------------- a run of polls

  /** One tick: the connections listed, or None when the poll failed, and the events sent. */
  datatype Poll = Poll(conns: Option<seq<SnapConn>>, ts: int, out: seq<ConnEvent>)

  /** The snapshot remembered after the polls: a failed one changes nothing. */
  function Remembered(polls: seq<Poll>): (m: Snapshot)
    ensures Keyed(m)
  {
    if polls == [] then map[]
    else if polls[|polls| - 1].conns.Some? then Indexed(polls[|polls| - 1].conns.value)
    else Remembered(polls[..|polls| - 1])
  }

  function AllSent(polls: seq<Poll>): seq<ConnEvent> {
    if polls == [] then [] else AllSent(polls[..|polls| - 1]) + polls[|polls| - 1].out
  }

  ghost predicate Faithful(polls: seq<Poll>) {
    polls != [] ==>
      var before, p := polls[..|polls| - 1], polls[|polls| - 1];
      && Faithful(before)
      && if p.conns.Some? then DiffOf(p.out, Remembered(before), Indexed(p.conns.value), p.ts) else p.out == []
  }

  lemma PollAdded(polls: seq<Poll>, p: Poll)
    requires Faithful(polls)
    requires if p.conns.Some? then DiffOf(p.out, Remembered(polls), Indexed(p.conns.value), p.ts) else p.out == []
    ensures Faithful(polls + [p])
    ensures Remembered(polls + [p]) == if p.conns.Some? then Indexed(p.conns.value) else Remembered(polls)
  {
    hide DiffOf, Indexed;
    assert (polls + [p])[..|polls|] == polls;
  }

  lemma {:induction false} ReplayThen(live: set<string>, a: seq<ConnEvent>, b: seq<ConnEvent>)
    ensures Replay(live, a + b) == Replay(Replay(live, a), b)
  {
    if b == [] {
      assert a + b == a;
    } else {
      var n := |b| - 1;
      assert (a + b)[..|a + b| - 1] == a + b[..n];
      ReplayThen(live, a, b[..n]);
    }
  }

  /** Poll number i worked, and none after it. */
  predicate LastWorked(polls: seq<Poll>, i: nat)
    requires i < |polls|
  {
    polls[i].conns.Some? && forall j :: i < j < |polls| ==> polls[j].conns.None?
  }

  lemma {:induction false} RememberedLast(polls: seq<Poll>, i: nat)
    requires i < |polls| && LastWorked(polls, i)
    ensures Remembered(polls) == Indexed(polls[i].conns.value)
  {
    if i < |polls| - 1 {
      RememberedLast(polls[..|polls| - 1], i);
    }
  }

  lemma {:induction false} RememberedNone(polls: seq<Poll>)
    requires forall i :: 0 <= i < |polls| ==> polls[i].conns.None?
    ensures Remembered(polls) == map[]
  {
    if polls != [] {
      RememberedNone(polls[..|polls| - 1]);
    }
  }

  /**
   * Over any run, failed polls included, replaying everything sent gives the keys of the connections that
   * the last poll that worked listed, and none when none worked.
   */
  lemma RunReplays(polls: seq<Poll>, k: string)
    requires Faithful(polls)
    ensures forall i :: 0 <= i < |polls| && LastWorked(polls, i) ==>
      (k in Replay({}, AllSent(polls)) <==> Lists(polls[i].conns.value, k))
    ensures (forall i :: 0 <= i < |polls| ==> polls[i].conns.None?) ==> Replay({}, AllSent(polls)) == {}
  {
    RunRemembers(polls);
    if forall i :: 0 <= i < |polls| ==> polls[i].conns.None? { RememberedNone(polls); }
    forall i | 0 <= i < |polls| && LastWorked(polls, i)
      ensures k in Replay({}, AllSent(polls)) <==> Lists(polls[i].conns.value, k)
    {
      RememberedLast(polls, i);
      IndexedIsLast(polls[i].conns.value);
    }
  }

  lemma {:induction false} RunRemembers(polls: seq<Poll>)
    requires Faithful(polls)
    ensures Replay({}, AllSent(polls)) == Remembered(polls).Keys
  {
    if polls != [] {
      var before, p := polls[..|polls| - 1], polls[|polls| - 1];
      RunRemembers(before);
      ReplayThen({}, AllSent(before), p.out);
      if p.conns.Some? {
        DiffReplays(p.out, Remembered(before), Indexed(p.conns.value), p.ts);
      }
    }
  }

  // ---------------------------------------------------------------- the loops

  class Listener {
    var prev: Snapshot

    /** Every poll so far. */
    ghost var polls: seq<Poll>

    ghost predicate Valid()
      reads this
    {
      Faithful(polls) && prev == Remembered(polls)
    }

    constructor ()
      ensures Valid() && polls == []
    {
      prev, polls := map[], [];
    }

    method Index(conns: seq<SnapConn>) returns (cur: Snapshot)
      ensures cur == Indexed(conns) && Lasts(conns, cur)
    {
      cur := map[];
      var i := 0;
      while i < |conns|
        invariant i <= |conns| && cur == Indexed(conns[..i])
      {
        assert conns[..i + 1][..i] == conns[..i];
        cur := cur[SnapKey(conns[i].tuple) := conns[i]];
        i := i + 1;
      }
      assert conns[..i] == conns;
      IndexedIsLast(conns);
    }

    /** Two loops, each over a map in an order of its own. */
    method DiffSnapshots(cur: Snapshot, ts: int) returns (out: seq<ConnEvent>)
      requires Keyed(prev) && Keyed(cur)
      ensures DiffOf(out, prev, cur, ts)
    {
      hide Covers, DiffOf, Keyed;
      out := [];
      ghost var done: set<string> := {};
      CoversNone(prev, cur, ts);
      var todo := cur.Keys;
      while todo != {}
        invariant todo <= cur.Keys
        invariant forall k :: k in done ==> k in cur && k !in todo && k !in prev
        invariant forall k :: k in cur && k !in todo && k !in prev ==> k in done
        invariant Covers(out, prev, cur, ts, done)
        decreases |todo|
      {
        var k :| k in todo;
        todo := todo - {k};
        if k !in prev {
          var e := ConnEvent(ts, New, cur[k].tuple);
          CoversMore(out, prev, cur, ts, done, k, e);
          out := out + [e];
          done := done + {k};
        }
      }
      todo := prev.Keys;
      while todo != {}
        invariant todo <= prev.Keys
        invariant forall k :: k in done ==> k !in todo || k !in prev
        invariant forall k :: k in done ==> Expected(prev, cur, k, ts).Some?
        invariant forall k :: k !in todo && Expected(prev, cur, k, ts).Some? ==> k in done
        invariant Covers(out, prev, cur, ts, done)
        decreases |todo|
      {
        var k :| k in todo;
        todo := todo - {k};
        if k !in cur {
          var e := ConnEvent(ts, Destroy, prev[k].tuple);
          CoversMore(out, prev, cur, ts, done, k, e);
          out := out + [e];
          done := done + {k};
        } else if cur[k].state != prev[k].state {
          var e := ConnEvent(ts, Update, cur[k].tuple);
          CoversMore(out, prev, cur, ts, done, k, e);
          out := out + [e];
          done := done + {k};
        }
      }
      CoversAll(out, prev, cur, ts, done);
    }

    /** One tick; a poll that fails is reported elsewhere and leaves the snapshot alone. */
    method Tick(conns: Option<seq<SnapConn>>, ts: int) returns (out: seq<ConnEvent>)
      requires Valid()
      modifies this
      ensures Valid() && polls == old(polls) + [Poll(conns, ts, out)]
    {
      hide DiffOf, Indexed, Lasts, Faithful, Remembered;
      out := [];
      if conns.Some? {
        var cur := Index(conns.value);
        out := DiffSnapshots(cur, ts);
        prev := cur;
      }
      PollAdded(polls, Poll(conns, ts, out));
      polls := polls + [Poll(conns, ts, out)];
    }
  }

  /** The events so far are the expected ones for the keys dealt with. */
  predicate Covers(out: seq<ConnEvent>, prev: Snapshot, cur: Snapshot, ts: int, done: set<string>) {
    && OneEventPerKey(out)
    && (forall i :: 0 <= i < |out| ==>
          EventKey(out[i]) in done && Expected(prev, cur, EventKey(out[i]), ts) == Some(out[i]))
    && (forall k :: k in done ==> Reports(out, k))
  }

  lemma CoversNone(prev: Snapshot, cur: Snapshot, ts: int)
    ensures Covers([], prev, cur, ts, {})
  {
  }

  lemma CoversAll(out: seq<ConnEvent>, prev: Snapshot, cur: Snapshot, ts: int, done: set<string>)
    requires Covers(out, prev, cur, ts, done)
    requires forall k :: Expected(prev, cur, k, ts).Some? ==> k in done
    ensures DiffOf(out, prev, cur, ts)
  {
  }

  lemma CoversMore(out: seq<ConnEvent>, prev: Snapshot, cur: Snapshot, ts: int, done: set<string>,
                   k: string, e: ConnEvent)
    requires Covers(out, prev, cur, ts, done) && k !in done && Expected(prev, cur, k, ts) == Some(e)
    requires Keyed(prev) && Keyed(cur)
    ensures Covers(out + [e], prev, cur, ts, done + {k})
  {
    assert EventKey(e) == k;
    hide Expected, Keyed;
    ReportsMore(out, e);
    hide Reports;
    OneMoreEvent(out, e);
    hide OneEventPerKey;
  }

  lemma ReportsMore(out: seq<ConnEvent>, e: ConnEvent)
    ensures Reports(out + [e], EventKey(e)) && forall k :: Reports(out, k) ==> Reports(out + [e], k)
  {
    var next := out + [e];
    assert next[|out|] == e;
    forall k | Reports(out, k) ensures Reports(next, k) {
      var i :| 0 <= i < |out| && EventKey(out[i]) == k;
      assert next[i] == out[i];
    }
  }

  lemma OneMoreEvent(out: seq<ConnEvent>, e: ConnEvent)
    requires OneEventPerKey(out) && forall i :: 0 <= i < |out| ==> EventKey(out[i]) != EventKey(e)
    ensures OneEventPerKey(out + [e])
  {
  }
}
