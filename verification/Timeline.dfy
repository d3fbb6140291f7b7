/** The hourly firewall timeline: aggregation, then zero fill (internal/api/query.go). */
module Timeline {
  datatype Action = Drop | Accept | Reject | Inbound | Other

  datatype Event = Event(ts: int, action: Action)

  /** The four counts of one hour. */
  datatype Counts = Counts(drop: nat, accept: nat, reject: nat, inbound: nat)

  datatype Bucket = Bucket(ts: int, counts: Counts)

  const HOUR := 3600
  const MAX_BUCKETS: nat := 1000
  const ZERO := Counts(0, 0, 0, 0)

  /** (t / 3600) * 3600 with division towards zero, in SQL as in Go. */
  function HourOf(t: int): int {
    if t >= 0 then t / HOUR * HOUR else -(-t / HOUR * HOUR)
  }

  function Of(c: Counts, a: Action): nat {
    match a
    case Drop => c.drop
    case Accept => c.accept
    case Reject => c.reject
    case Inbound => c.inbound
    case Other => 0
  }

  function Add(c: Counts, a: Action): (r: Counts)
    ensures a != Other ==> forall b :: Of(r, b) == Of(c, b) + if a == b then 1 else 0
    ensures a == Other ==> r == c
  {
    match a
    case Drop => c.(drop := c.drop + 1)
    case Accept => c.(accept := c.accept + 1)
    case Reject => c.(reject := c.reject + 1)
    case Inbound => c.(inbound := c.inbound + 1)
    case Other => c
  }

  /** The query: the events not before a time, grouped by hour, counted by action. */
  function Grouped(events: seq<Event>, from: int): map<int, Counts> {
    if events == [] then map[] else
      var got := Grouped(events[..|events| - 1], from);
      var e := events[|events| - 1];
      if e.ts < from then got else
        var h := HourOf(e.ts);
        got[h := Add(if h in got then got[h] else ZERO, e.action)]
  }

  /** How many events of an action lie between two times, the later one excluded. */
  function Number(events: seq<Event>, a: Action, lo: int, hi: int): nat {
    if events == [] then 0 else
      var e := events[|events| - 1];
      Number(events[..|events| - 1], a, lo, hi) + if e.action == a && lo <= e.ts < hi then 1 else 0
  }

  function At(got: map<int, Counts>, h: int): Counts {
    if h in got then got[h] else ZERO
  }

  /**
   * A time belongs to the hour that starts at or before it; before 1970 the hours are named by their end,
   * and the hour named 0 is two hours long.
   */
  lemma HourIsInterval(t: int, h: int)
    requires h % HOUR == 0
    ensures HourOf(t) == h <==>
      if h > 0 then h <= t < h + HOUR else if h < 0 then h - HOUR < t <= h else -HOUR < t < HOUR
  {
  }

  lemma {:induction false} GroupedCounts(events: seq<Event>, from: int, h: int, a: Action)
    requires h % HOUR == 0 && a != Other && 0 <= from <= h
    ensures Of(At(Grouped(events, from), h), a) == Number(events, a, h, h + HOUR)
  {
    if events != [] {
      GroupedCounts(events[..|events| - 1], from, h, a);
      HourIsInterval(events[|events| - 1].ts, h);
    }
  }

  /** How many hours there are from one through the hour of another time, up to the cap. */
  function Hours(from: int, now: int): (n: nat)
    ensures n <= MAX_BUCKETS
  {
    if from > now then 0
    else if (now - from) / HOUR + 1 > MAX_BUCKETS then MAX_BUCKETS
    else (now - from) / HOUR + 1
  }

  function Filled(got: map<int, Counts>, from: int, n: nat): (out: seq<Bucket>)
    ensures |out| == n
  {
    seq(n, (i: int) requires 0 <= i < n => Bucket(from + i * HOUR, At(got, from + i * HOUR)))
  }

  /** The fill loop, from the first hour through the current one. */
  method Fill(got: map<int, Counts>, from: int, now: int) returns (out: seq<Bucket>)
    ensures out == Filled(got, from, Hours(from, now))
  {
    out := [];
    var h := from;
    while h <= now
      invariant |out| < MAX_BUCKETS && h == from + |out| * HOUR
      invariant out == Filled(got, from, |out|) && |out| <= Hours(from, now)
      decreases now - h
    {
      if h in got {
        out := out + [Bucket(h, got[h])];
      } else {
        out := out + [Bucket(h, ZERO)];
      }
      if |out| >= MAX_BUCKETS {
        break;
      }
      h := h + HOUR;
    }
  }

  method FirewallTimeline(events: seq<Event>, from: int, now: int) returns (out: seq<Bucket>)
    ensures var first := HourOf(from);
      out == Filled(Grouped(events, first), first, Hours(first, now))
  {
    var fromBucket := HourOf(from);
    out := Fill(Grouped(events, fromBucket), fromBucket, now);
  }

  /** Bucket i is the i-th hour from the first, and carries exactly the events of that hour, by action. */
  lemma BucketsCount(events: seq<Event>, from: int, n: nat, i: nat, a: Action)
    requires i < n && a != Other && from >= 0 && from % HOUR == 0
    ensures var b := Filled(Grouped(events, from), from, n)[i];
      b.ts == from + i * HOUR && Of(b.counts, a) == Number(events, a, b.ts, b.ts + HOUR)
  {
    GroupedCounts(events, from, from + i * HOUR, a);
  }

  function Total(out: seq<Bucket>, a: Action): nat {
    if out == [] then 0 else Total(out[..|out| - 1], a) + Of(out[|out| - 1].counts, a)
  }

  lemma {:induction false} NumberSplits(events: seq<Event>, a: Action, lo: int, mid: int, hi: int)
    requires lo <= mid <= hi
    ensures Number(events, a, lo, hi) == Number(events, a, lo, mid) + Number(events, a, mid, hi)
  {
    if events != [] {
      NumberSplits(events[..|events| - 1], a, lo, mid, hi);
    }
  }

  lemma {:induction false} NumberNone(events: seq<Event>, a: Action, lo: int)
    ensures Number(events, a, lo, lo) == 0
  {
    if events != [] {
      NumberNone(events[..|events| - 1], a, lo);
    }
  }

  /** The buckets together count every event of the time they cover, once. */
  lemma {:induction false} TotalsCount(events: seq<Event>, from: int, n: nat, a: Action)
    requires a != Other && from >= 0 && from % HOUR == 0
    ensures Total(Filled(Grouped(events, from), from, n), a) == Number(events, a, from, from + n * HOUR)
  {
    var got := Grouped(events, from);
    if n == 0 {
      NumberNone(events, a, from);
    } else {
      var last := from + (n - 1) * HOUR;
      assert Filled(got, from, n)[..n - 1] == Filled(got, from, n - 1);
      TotalsCount(events, from, n - 1, a);
      BucketsCount(events, from, n, n - 1, a);
      NumberSplits(events, a, from, last, last + HOUR);
    }
  }

  /** The hours covered are those that start by now, as many as the cap allows. */
  lemma HoursExact(from: int, now: int, i: nat)
    ensures i < Hours(from, now) <==> i < MAX_BUCKETS && from + i * HOUR <= now
  {
  }

  /** Unless the cap cuts the timeline short, no event up to now is left out. */
  lemma CoversThroughNow(from: int, now: int, t: int)
    requires from % HOUR == 0 && 0 <= from <= t <= now
    ensures t < from + Hours(from, now) * HOUR <==> t < from + MAX_BUCKETS * HOUR
  {
  }
}
