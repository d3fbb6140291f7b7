/**
 * The per-source fixed-window limiter of the honeypot (internal/honeypot/ratelimit.go) and what its
 * lazy clean-up may and may not change.
 *
 * A bucket covers the closed span from the call that opened it to its reset. Every 1024th admitted
 * call, and every admitted call that finds more than MAX_BUCKETS buckets, drops the expired buckets;
 * if too many are left, all of them are dropped.
 */
module IpRateLimiter {
  type Ip = x: int | 0 <= x < 0x1_0000_0000

  datatype Bucket = Bucket(count: int, reset: int)

  datatype Config = Config(limit: int, window: nat)

  datatype State = State(buckets: map<Ip, Bucket>, calls: nat)

  datatype Call = Call(ip: Ip, now: int)

  const MAX_BUCKETS: nat := 10000

  const START := State(map[], 0)

  /** The bucket the call works on: a fresh one when there is none or its window is over. */
  function Current(c: Config, s: State, x: Call): (b: Bucket) {
    if x.ip !in s.buckets || x.now > s.buckets[x.ip].reset then Bucket(0, x.now + c.window) else s.buckets[x.ip]
  }

  predicate Admits(c: Config, s: State, x: Call) {
    Current(c, s, x).count < c.limit
  }

  /** The call on a limiter that never cleans up. */
  function Counted(c: Config, s: State, x: Call): State {
    var b := Current(c, s, x);
    if Admits(c, s, x) then State(s.buckets[x.ip := Bucket(b.count + 1, b.reset)], s.calls + 1)
    else State(s.buckets[x.ip := b], s.calls)
  }

  function Unexpired(m: map<Ip, Bucket>, now: int): map<Ip, Bucket> {
    map ip | ip in m && now <= m[ip].reset :: m[ip]
  }

  function Swept(s: State, now: int): State {
    var kept := Unexpired(s.buckets, now);
    State(if |kept| > MAX_BUCKETS then map[] else kept, s.calls)
  }

  /** Whether the call ends with a sweep. */
  predicate Sweeps(c: Config, s: State, x: Call) {
    var t := Counted(c, s, x);
    Admits(c, s, x) && (t.calls % 1024 == 0 || |t.buckets| > MAX_BUCKETS)
  }

  function Allowed(c: Config, s: State, x: Call): State {
    var t := Counted(c, s, x);
    if Sweeps(c, s, x) then Swept(t, x.now) else t
  }

  /** Whether the sweep falls back to dropping every bucket. */
  predicate Rebuilds(c: Config, s: State, x: Call) {
    Sweeps(c, s, x) && |Unexpired(Counted(c, s, x).buckets, x.now)| > MAX_BUCKETS
  }

  // ---------------------------------------------------------------- runs

  function After(c: Config, calls: seq<Call>): State {
    if calls == [] then START else Allowed(c, After(c, calls[..|calls| - 1]), calls[|calls| - 1])
  }

  /** The same calls on the limiter that never cleans up. */
  function Ideal(c: Config, calls: seq<Call>): State {
    if calls == [] then START else Counted(c, Ideal(c, calls[..|calls| - 1]), calls[|calls| - 1])
  }

  /** The answer to call number i. */
  predicate Answer(c: Config, calls: seq<Call>, i: nat)
    requires i < |calls|
  {
    Admits(c, After(c, calls[..i]), calls[i])
  }

  predicate IdealAnswer(c: Config, calls: seq<Call>, i: nat)
    requires i < |calls|
  {
    Admits(c, Ideal(c, calls[..i]), calls[i])
  }

  predicate Monotone(calls: seq<Call>) {
    forall i, j :: 0 <= i < j < |calls| ==> calls[i].now <= calls[j].now
  }

  predicate NoRebuild(c: Config, calls: seq<Call>) {
    calls != [] ==>
      var before := calls[..|calls| - 1];
      NoRebuild(c, before) && !Rebuilds(c, After(c, before), calls[|calls| - 1])
  }

  /** How many immediate attempts of an address would still be admitted. */
  function Allowance(c: Config, s: State, ip: Ip, now: int): int {
    c.limit - Current(c, s, Call(ip, now)).count
  }

  /** Some address has a larger allowance in the one state than in the other. */
  predicate SomeLarger(c: Config, s: State, t: State, now: int) {
    exists ip :: Allowance(c, s, ip, now) > Allowance(c, t, ip, now)
  }

  predicate NoneSmaller(c: Config, s: State, t: State, now: int) {
    forall ip :: Allowance(c, s, ip, now) >= Allowance(c, t, ip, now)
  }

  // ---------------------------------------------------------------- the clean-up is invisible

  /** The limiter remembers, bucket for bucket, what the ideal one does, but for expired buckets. */
  predicate Remembers(s: State, ideal: State, now: int) {
    && (forall ip :: ip in s.buckets ==> ip in ideal.buckets && ideal.buckets[ip] == s.buckets[ip])
    && (forall ip :: ip in ideal.buckets && now <= ideal.buckets[ip].reset ==> ip in s.buckets)
    && s.calls == ideal.calls
  }

  lemma RemembersStep(c: Config, s: State, ideal: State, now: int, x: Call)
    requires Remembers(s, ideal, now) && now <= x.now
    requires !Rebuilds(c, s, x)
    ensures Remembers(Allowed(c, s, x), Counted(c, ideal, x), x.now)
  {
    assert Current(c, s, x) == Current(c, ideal, x);
    var t := Counted(c, s, x);
    assert Remembers(t, Counted(c, ideal, x), x.now);
  }

  lemma {:induction false} RunRemembers(c: Config, calls: seq<Call>, now: int)
    requires Monotone(calls) && NoRebuild(c, calls)
    requires calls != [] ==> calls[|calls| - 1].now <= now
    ensures Remembers(After(c, calls), Ideal(c, calls), now)
  {
    if calls != [] {
      var n := |calls| - 1;
      RunRemembers(c, calls[..n], calls[n].now);
      RemembersStep(c, After(c, calls[..n]), Ideal(c, calls[..n]), calls[n].now, calls[n]);
    }
  }

  lemma {:induction false} NoRebuildBefore(c: Config, calls: seq<Call>, i: nat)
    requires NoRebuild(c, calls) && i <= |calls|
    ensures NoRebuild(c, calls[..i])
  {
    if i < |calls| {
      NoRebuildBefore(c, calls[..|calls| - 1], i);
      assert calls[..|calls| - 1][..i] == calls[..i];
    } else {
      assert calls[..i] == calls;
    }
  }

  /** Without a rebuild the clean-up is invisible: every answer is that of a limiter that never sweeps. */
  lemma SweepingIsInvisible(c: Config, calls: seq<Call>, i: nat)
    requires Monotone(calls) && NoRebuild(c, calls) && i < |calls|
    ensures Answer(c, calls, i) <==> IdealAnswer(c, calls, i)
  {
    NoRebuildBefore(c, calls, i);
    RunRemembers(c, calls[..i], calls[i].now);
  }

  /**
   * The call after which the limiter knows less than it should is exactly the one that rebuilds: it
   * gives some address a larger allowance than it has left, and no call gives one a smaller.
   */
  lemma ForgetsExactlyOnRebuild(c: Config, calls: seq<Call>, x: Call)
    requires Monotone(calls + [x]) && NoRebuild(c, calls) && c.limit >= 1
    ensures Rebuilds(c, After(c, calls), x) <==> SomeLarger(c, After(c, calls + [x]), Ideal(c, calls + [x]), x.now)
    ensures NoneSmaller(c, After(c, calls + [x]), Ideal(c, calls + [x]), x.now)
  {
    hide Monotone, NoRebuild, Counted, Allowed, Rebuilds, SomeLarger, NoneSmaller, Current, Remembers;
    var s, ideal := After(c, calls), Ideal(c, calls);
    MonotoneBefore(calls, x);
    RunRemembers(c, calls, x.now);
    IdealCounts(c, calls);
    StepForgets(c, s, ideal, x);
    assert (calls + [x])[..|calls|] == calls;
    assert After(c, calls + [x]) == Allowed(c, s, x);
    assert Ideal(c, calls + [x]) == Counted(c, ideal, x);
  }

  lemma MonotoneBefore(calls: seq<Call>, x: Call)
    requires Monotone(calls + [x])
    ensures Monotone(calls) && (calls != [] ==> calls[|calls| - 1].now <= x.now)
  {
    var all := calls + [x];
    assert forall i :: 0 <= i < |calls| ==> all[i] == calls[i];
    assert all[|calls|] == x;
  }

  lemma StepForgets(c: Config, s: State, ideal: State, x: Call)
    requires Remembers(s, ideal, x.now) && c.limit >= 1
    requires forall ip :: ip in ideal.buckets ==> 0 <= ideal.buckets[ip].count
    ensures Rebuilds(c, s, x) <==> SomeLarger(c, Allowed(c, s, x), Counted(c, ideal, x), x.now)
    ensures NoneSmaller(c, Allowed(c, s, x), Counted(c, ideal, x), x.now)
  {
    if Rebuilds(c, s, x) {
      // the caller itself was admitted just now
      assert Current(c, s, x) == Current(c, ideal, x);
      assert x.ip in Counted(c, ideal, x).buckets;
      assert Allowance(c, Allowed(c, s, x), x.ip, x.now) == c.limit;
      assert Allowance(c, Counted(c, ideal, x), x.ip, x.now) < c.limit;
    } else {
      RemembersStep(c, s, ideal, x.now, x);
    }
  }

  /** The buckets of the ideal limiter count within the limit. */
  lemma {:induction false} IdealCounts(c: Config, calls: seq<Call>)
    ensures forall ip :: ip in Ideal(c, calls).buckets ==>
      0 <= Ideal(c, calls).buckets[ip].count && (c.limit >= 0 ==> Ideal(c, calls).buckets[ip].count <= c.limit)
  {
    if calls != [] {
      IdealCounts(c, calls[..|calls| - 1]);
    }
  }

  // ---------------------------------------------------------------- the bound is real

  /** How many calls of an address within a closed span of time were admitted. */
  function Admissions(c: Config, calls: seq<Call>, ip: Ip, from: int, to: int): (n: nat)
  {
    if calls == [] then 0 else
      var i := |calls| - 1;
      Admissions(c, calls[..i], ip, from, to) +
      if calls[i].ip == ip && from <= calls[i].now <= to && Answer(c, calls, i) then 1 else 0
  }

  function IdealAdmissions(c: Config, calls: seq<Call>, ip: Ip, from: int, to: int): (n: nat)
  {
    if calls == [] then 0 else
      var i := |calls| - 1;
      IdealAdmissions(c, calls[..i], ip, from, to) +
      if calls[i].ip == ip && from <= calls[i].now <= to && IdealAnswer(c, calls, i) then 1 else 0
  }

  /** What the ideal limiter's bucket says of the admissions within a span no longer than the window. */
  ghost predicate Bounded(c: Config, calls: seq<Call>, ip: Ip, from: int, to: int) {
    var n := IdealAdmissions(c, calls, ip, from, to);
    var m := Ideal(c, calls).buckets;
    && n <= 2 * c.limit
    && (ip !in m ==> n == 0)
    && (ip in m ==>
          && (m[ip].reset < from ==> n == 0)
          && (m[ip].reset - c.window <= from ==> n <= m[ip].count)
          && (calls != [] && calls[|calls| - 1].now <= to ==> n <= c.limit + m[ip].count))
  }

  lemma {:induction false} RunBounded(c: Config, calls: seq<Call>, ip: Ip, from: int, to: int)
    requires Monotone(calls) && c.limit >= 0 && to <= from + c.window
    ensures Bounded(c, calls, ip, from, to)
  {
    if calls != [] {
      var i := |calls| - 1;
      RunBounded(c, calls[..i], ip, from, to);
      IdealCounts(c, calls[..i]);
    }
  }

  lemma {:induction false} AdmissionsAgree(c: Config, calls: seq<Call>, ip: Ip, from: int, to: int)
    requires Monotone(calls) && NoRebuild(c, calls)
    ensures Admissions(c, calls, ip, from, to) == IdealAdmissions(c, calls, ip, from, to)
  {
    if calls != [] {
      AdmissionsAgree(c, calls[..|calls| - 1], ip, from, to);
      SweepingIsInvisible(c, calls, |calls| - 1);
    }
  }

  /** How many calls within a closed span of time dropped every bucket. */
  function RebuildsIn(c: Config, calls: seq<Call>, from: int, to: int): (n: nat) {
    if calls == [] then 0 else
      var i := |calls| - 1;
      RebuildsIn(c, calls[..i], from, to) +
      if from <= calls[i].now <= to && Rebuilds(c, After(c, calls[..i]), calls[i]) then 1 else 0
  }

  /** One limit for each of them. */
  function GivenBack(c: Config, calls: seq<Call>, from: int, to: int): (n: nat)
    requires c.limit >= 0
    ensures n == RebuildsIn(c, calls, from, to) * c.limit
  {
    if calls == [] then 0 else
      var i := |calls| - 1;
      Product(RebuildsIn(c, calls[..i], from, to), c.limit);
      GivenBack(c, calls[..i], from, to) +
      if from <= calls[i].now <= to && Rebuilds(c, After(c, calls[..i]), calls[i]) then c.limit else 0
  }

  /** What the buckets at a time say of the n admissions so far of an address within a span no longer than
      the window, when rebuilds within it have given back `extra` of them. */
  predicate Accounts(c: Config, m: map<Ip, Bucket>, ip: Ip, n: nat, extra: nat, from: int, to: int, now: int) {
    && n <= 2 * c.limit + extra
    && (now < from ==> n == 0)
    && (ip in m ==>
          var b := m[ip];
          && 0 <= b.count <= c.limit && b.reset - c.window <= now
          && (b.reset < from ==> n == 0)
          && (b.reset - c.window <= from ==> n <= b.count + extra)
          && (now <= to ==> n <= b.count + c.limit + extra))
    && (ip !in m ==>
          && (now <= from ==> n <= extra)
          && (now <= to ==> n <= c.limit + extra))
  }

  lemma CountedAccounts(c: Config, s: State, x: Call, ip: Ip, n: nat, extra: nat, from: int, to: int, now: int)
    requires c.limit >= 0 && to <= from + c.window && now <= x.now
    requires Accounts(c, s.buckets, ip, n, extra, from, to, now)
    ensures var n' := n + if x.ip == ip && from <= x.now <= to && Admits(c, s, x) then 1 else 0;
      Accounts(c, Counted(c, s, x).buckets, ip, n', extra, from, to, x.now)
  {
  }

  lemma SweptAccounts(c: Config, m: map<Ip, Bucket>, ip: Ip, n: nat, extra: nat, from: int, to: int, now: int)
    requires c.limit >= 0 && from <= to <= from + c.window
    requires Accounts(c, m, ip, n, extra, from, to, now)
    ensures Accounts(c, Unexpired(m, now), ip, n, extra, from, to, now)
    ensures Accounts(c, map[], ip, n, extra + (if from <= now <= to then c.limit else 0), from, to, now)
  {
  }

  lemma {:induction false} RunAccounts(c: Config, calls: seq<Call>, ip: Ip, from: int, to: int, now: int)
    requires Monotone(calls) && c.limit >= 0 && from <= to <= from + c.window
    requires calls != [] ==> now == calls[|calls| - 1].now
    ensures Accounts(c, After(c, calls).buckets, ip, Admissions(c, calls, ip, from, to),
                     GivenBack(c, calls, from, to), from, to, now)
  {
    if calls != [] {
      var i := |calls| - 1;
      var s, x := After(c, calls[..i]), calls[i];
      var before := if i == 0 then now else calls[i - 1].now;
      RunAccounts(c, calls[..i], ip, from, to, before);
      var n, extra := Admissions(c, calls[..i], ip, from, to), GivenBack(c, calls[..i], from, to);
      hide Accounts, Allowed, Rebuilds, Admits;
      StepAccounts(c, s, x, ip, n, extra, from, to, before);
    }
  }

  lemma Product(k: nat, n: nat)
    ensures k * n >= 0 && (k + 1) * n == k * n + n && (2 + k) * n == 2 * n + k * n
  {
  }

  lemma StepAccounts(c: Config, s: State, x: Call, ip: Ip, n: nat, extra: nat, from: int, to: int, now: int)
    requires c.limit >= 0 && from <= to <= from + c.window && now <= x.now
    requires Accounts(c, s.buckets, ip, n, extra, from, to, now)
    ensures var n' := n + if x.ip == ip && from <= x.now <= to && Admits(c, s, x) then 1 else 0;
      var extra' := extra + if from <= x.now <= to && Rebuilds(c, s, x) then c.limit else 0;
      Accounts(c, Allowed(c, s, x).buckets, ip, n', extra', from, to, x.now)
  {
    var n' := n + if x.ip == ip && from <= x.now <= to && Admits(c, s, x) then 1 else 0;
    CountedAccounts(c, s, x, ip, n, extra, from, to, now);
    hide Accounts, Unexpired, Counted;
    SweptAccounts(c, Counted(c, s, x).buckets, ip, n', extra, from, to, x.now);
  }

  /**
   * In every run, rebuilds or not: within any span as long as the window an address is admitted at most
   * the limit for each of two buckets, and once more for each rebuild within the span.
   */
  lemma EachRebuildOneLimit(c: Config, calls: seq<Call>, ip: Ip, from: int)
    requires Monotone(calls) && c.limit >= 0
    ensures var to := from + c.window;
      Admissions(c, calls, ip, from, to) <= (2 + RebuildsIn(c, calls, from, to)) * c.limit
  {
    hide Admissions, RebuildsIn, After;
    var to := from + c.window;
    Product(RebuildsIn(c, calls, from, to), c.limit);
    RunAccounts(c, calls, ip, from, to, if calls == [] then from else calls[|calls| - 1].now);
  }

  /** No address is admitted more than twice the limit within any span as long as the window. */
  lemma AtMostTwiceTheLimit(c: Config, calls: seq<Call>, ip: Ip, from: int)
    requires Monotone(calls) && NoRebuild(c, calls) && c.limit >= 0
    ensures Admissions(c, calls, ip, from, from + c.window) <= 2 * c.limit
  {
    AdmissionsAgree(c, calls, ip, from, from + c.window);
    RunBounded(c, calls, ip, from, from + c.window);
  }

  lemma IdealPerBucket(c: Config, calls: seq<Call>, ip: Ip, b: Bucket)
    requires Monotone(calls) && c.limit >= 0
    requires ip in Ideal(c, calls).buckets && Ideal(c, calls).buckets[ip] == b
    ensures IdealAdmissions(c, calls, ip, b.reset - c.window, b.reset) <= b.count <= c.limit
  {
    RunBounded(c, calls, ip, b.reset - c.window, b.reset);
    IdealCounts(c, calls);
  }

  /** Within the window of one bucket an address is admitted at most limit times. */
  lemma AtMostTheLimitPerBucket(c: Config, calls: seq<Call>, ip: Ip, b: Bucket)
    requires Monotone(calls) && NoRebuild(c, calls) && c.limit >= 0
    requires ip in After(c, calls).buckets && After(c, calls).buckets[ip] == b
    ensures Admissions(c, calls, ip, b.reset - c.window, b.reset) <= b.count <= c.limit
  {
    hide Monotone, NoRebuild, Allowed, Counted;
    if calls != [] {
      LastCallIsLatest(c, calls);
      IdealPerBucket(c, calls, ip, b);
      AdmissionsAgree(c, calls, ip, b.reset - c.window, b.reset);
    }
  }

  lemma LastCallIsLatest(c: Config, calls: seq<Call>)
    requires Monotone(calls) && NoRebuild(c, calls) && calls != []
    ensures Remembers(After(c, calls), Ideal(c, calls), calls[|calls| - 1].now)
  {
    RunRemembers(c, calls, calls[|calls| - 1].now);
  }

  /** The counter is the number of admitted calls, of all addresses. */
  function AdmittedCalls(c: Config, calls: seq<Call>): nat {
    if calls == [] then 0 else
      var i := |calls| - 1;
      AdmittedCalls(c, calls[..i]) + if Answer(c, calls, i) then 1 else 0
  }

  lemma {:induction false} CounterCounts(c: Config, calls: seq<Call>)
    ensures After(c, calls).calls == AdmittedCalls(c, calls)
  {
    if calls != [] {
      CounterCounts(c, calls[..|calls| - 1]);
    }
  }

  /** The clean-up comes with every 1024th admitted call: after it no bucket is expired. */
  lemma SweptRegularly(c: Config, calls: seq<Call>)
    requires calls != [] && Answer(c, calls, |calls| - 1) && AdmittedCalls(c, calls) % 1024 == 0
    ensures var m := After(c, calls).buckets; forall ip :: ip in m ==> calls[|calls| - 1].now <= m[ip].reset
  {
    var i := |calls| - 1;
    CounterCounts(c, calls);
    assert Sweeps(c, After(c, calls[..i]), calls[i]);
  }

  // ---------------------------------------------------------------- nobody is refused too early

  lemma {:induction false} OpenedBefore(c: Config, calls: seq<Call>, ip: Ip, now: int)
    requires Monotone(calls) && (calls != [] ==> calls[|calls| - 1].now <= now)
    ensures ip in After(c, calls).buckets ==> After(c, calls).buckets[ip].reset - c.window <= now
  {
    if calls != [] {
      OpenedBefore(c, calls[..|calls| - 1], ip, calls[|calls| - 1].now);
    }
  }

  /** A bucket counts no more than was admitted since it was opened. */
  lemma {:induction false} CountsAdmitted(c: Config, calls: seq<Call>, ip: Ip, to: int)
    requires Monotone(calls) && (calls != [] ==> calls[|calls| - 1].now <= to)
    ensures ip in After(c, calls).buckets ==>
      After(c, calls).buckets[ip].count
        <= Admissions(c, calls, ip, After(c, calls).buckets[ip].reset - c.window, to)
  {
    if calls != [] {
      var i := |calls| - 1;
      OpenedBefore(c, calls[..i], ip, calls[i].now);
      CountsAdmitted(c, calls[..i], ip, to);
      var s, x := After(c, calls[..i]), calls[i];
      if ip in Allowed(c, s, x).buckets {
        var b := Allowed(c, s, x).buckets[ip];
        assert b == Counted(c, s, x).buckets[ip];
        AdmissionsOneMore(c, calls, ip, b.reset - c.window, to);
      }
    }
  }

  lemma AdmissionsOneMore(c: Config, calls: seq<Call>, ip: Ip, from: int, to: int)
    requires calls != []
    ensures var i := |calls| - 1;
      Admissions(c, calls, ip, from, to) == Admissions(c, calls[..i], ip, from, to) +
        if calls[i].ip == ip && from <= calls[i].now <= to && Admits(c, After(c, calls[..i]), calls[i]) then 1 else 0
  {
  }

  lemma {:induction false} WiderAdmissions(c: Config, calls: seq<Call>, ip: Ip, early: int, from: int, to: int)
    requires early <= from
    ensures Admissions(c, calls, ip, from, to) <= Admissions(c, calls, ip, early, to)
  {
    if calls != [] {
      WiderAdmissions(c, calls[..|calls| - 1], ip, early, from, to);
    }
  }

  /** In every run, an address is refused only when, within the window before the call, it was admitted as
      often as the limit says. */
  lemma RefusedOnlyWhenFull(c: Config, calls: seq<Call>, i: nat)
    requires Monotone(calls) && i < |calls| && !Answer(c, calls, i)
    ensures var x := calls[i]; Admissions(c, calls[..i], x.ip, x.now - c.window, x.now) >= c.limit
  {
    var before, x := calls[..i], calls[i];
    hide Admissions;
    CountsAdmitted(c, before, x.ip, x.now);
    var s := After(c, before);
    if x.ip in s.buckets && x.now <= s.buckets[x.ip].reset {
      WiderAdmissions(c, before, x.ip, x.now - c.window, s.buckets[x.ip].reset - c.window, x.now);
    }
  }

  /** A window is over one instant after its end, and not before. */
  lemma WindowEnds(c: Config, ip: Ip)
    requires c.limit == 1
    ensures var calls := [Call(ip, 0), Call(ip, c.window), Call(ip, c.window + 1)];
      Answer(c, calls, 0) && !Answer(c, calls, 1) && Answer(c, calls, 2)
  {
    var a, b := Call(ip, 0), Call(ip, c.window);
    var calls := [a, b, Call(ip, c.window + 1)];
    assert calls[..0] == [] && calls[..1] == [a] && calls[..2] == [a, b];
    assert [a][..0] == [] && [a, b][..1] == [a];
    var full := map[ip := Bucket(1, c.window)];
    assert Counted(c, START, a) == State(full, 1) && !Sweeps(c, START, a) by { assert |full| == 1; }
    assert After(c, [a]) == State(full, 1);
    assert After(c, [a, b]) == State(full, 1);
  }

  // ---------------------------------------------------------------- the size of the table

  lemma StepSize(c: Config, s: State, x: Call)
    requires c.limit >= 1 && |s.buckets| <= MAX_BUCKETS
    requires forall ip :: ip in s.buckets ==> s.buckets[ip].count <= c.limit
    ensures |Allowed(c, s, x).buckets| <= MAX_BUCKETS
    ensures forall ip :: ip in Allowed(c, s, x).buckets ==> Allowed(c, s, x).buckets[ip].count <= c.limit
  {
  }

  lemma {:induction false} RunSize(c: Config, calls: seq<Call>)
    requires c.limit >= 1
    ensures |After(c, calls).buckets| <= MAX_BUCKETS
    ensures forall ip :: ip in After(c, calls).buckets ==> After(c, calls).buckets[ip].count <= c.limit
  {
    if calls != [] {
      var i := |calls| - 1;
      RunSize(c, calls[..i]);
      StepSize(c, After(c, calls[..i]), calls[i]);
    }
  }

  /** One call from each of the addresses below n, all at once. */
  function Crowd(n: nat): (calls: seq<Call>)
    requires n <= 0x1_0000_0000
    ensures |calls| == n
  {
    seq(n, (i: int) requires 0 <= i < n => Call(i, 0))
  }

  function CrowdBuckets(n: nat, b: Bucket): (m: map<Ip, Bucket>)
    requires n <= 0x1_0000_0000
    ensures forall ip: int :: ip in m <==> 0 <= ip < n
    ensures forall ip :: ip in m ==> m[ip] == b
  {
    if n == 0 then map[] else CrowdBuckets(n - 1, b)[n - 1 := b]
  }

  lemma {:induction false} CrowdSize(n: nat, b: Bucket)
    requires n <= 0x1_0000_0000
    ensures |CrowdBuckets(n, b)| == n
  {
    if n == 0 {
      assert CrowdBuckets(n, b) == map[];
    } else {
      CrowdSize(n - 1, b);
      assert CrowdBuckets(n, b) == CrowdBuckets(n - 1, b)[n - 1 := b];
    }
  }

  /** Without a limit every refused stranger leaves a bucket behind. */
  lemma {:induction false} RefusedCrowd(c: Config, n: nat)
    requires c.limit <= 0 && n <= 0x1_0000_0000
    ensures After(c, Crowd(n)) == State(CrowdBuckets(n, Bucket(0, c.window)), 0)
  {
    if n > 0 {
      RefusedCrowd(c, n - 1);
      assert Crowd(n)[..n - 1] == Crowd(n - 1);
      var b := Bucket(0, c.window);
      assert CrowdBuckets(n, b) == CrowdBuckets(n - 1, b)[n - 1 := b];
    } else {
      assert CrowdBuckets(n, Bucket(0, c.window)) == map[];
    }
  }

  /** The table never holds more than MAX_BUCKETS buckets after a call exactly when the limit admits anyone. */
  lemma TableBoundedExactly(c: Config)
    ensures (forall calls :: |After(c, calls).buckets| <= MAX_BUCKETS) <==> c.limit >= 1
  {
    if c.limit >= 1 {
      forall calls ensures |After(c, calls).buckets| <= MAX_BUCKETS {
        RunSize(c, calls);
      }
    } else {
      var n := MAX_BUCKETS + 1;
      RefusedCrowd(c, n);
      CrowdSize(n, Bucket(0, c.window));
      assert |After(c, Crowd(n)).buckets| == n;
    }
  }

  // ---------------------------------------------------------------- a run that rebuilds

  lemma CrowdStep(c: Config, n: nat, s: State)
    requires c.limit >= 1 && 0 < n <= MAX_BUCKETS
    requires s == State(CrowdBuckets(n - 1, Bucket(1, c.window)), n - 1)
    ensures Allowed(c, s, Call(n - 1, 0)) == State(CrowdBuckets(n, Bucket(1, c.window)), n)
    ensures !Rebuilds(c, s, Call(n - 1, 0))
  {
    var b := Bucket(1, c.window);
    CrowdSize(n, b);
    var t := Counted(c, s, Call(n - 1, 0));
    assert t.buckets == CrowdBuckets(n, b);
    assert Unexpired(t.buckets, 0) == t.buckets;
  }

  lemma {:induction false} AdmittedCrowd(c: Config, n: nat)
    requires c.limit >= 1 && n <= MAX_BUCKETS
    ensures After(c, Crowd(n)) == State(CrowdBuckets(n, Bucket(1, c.window)), n)
    ensures NoRebuild(c, Crowd(n))
  {
    if n > 0 {
      hide Allowed, Rebuilds, CrowdBuckets;
      AdmittedCrowd(c, n - 1);
      assert Crowd(n)[..n - 1] == Crowd(n - 1) && Crowd(n)[n - 1] == Call(n - 1, 0);
      hide Crowd;
      CrowdStep(c, n, After(c, Crowd(n - 1)));
    }
  }

  /**
   * One stranger more than the table holds, within one window, and everybody starts over: the first
   * of them has its whole limit back.
   */
  lemma OneStrangerTooMany(c: Config)
    requires c.limit >= 1
    ensures var calls := Crowd(MAX_BUCKETS + 1);
      && After(c, calls).buckets == map[]
      && Allowance(c, After(c, calls), 0, 0) == c.limit
      && Allowance(c, Ideal(c, calls), 0, 0) < c.limit
  {
    var n := MAX_BUCKETS;
    AdmittedCrowd(c, n);
    var b := Bucket(1, c.window);
    CrowdSize(n + 1, b);
    assert Crowd(n + 1)[..n] == Crowd(n);
    assert CrowdBuckets(n + 1, b) == CrowdBuckets(n, b)[n := b];
    assert Unexpired(CrowdBuckets(n + 1, b), 0) == CrowdBuckets(n + 1, b);
    RunRemembersCrowd(c);
  }

  lemma RunRemembersCrowd(c: Config)
    requires c.limit >= 1
    ensures Allowance(c, Ideal(c, Crowd(MAX_BUCKETS + 1)), 0, 0) < c.limit
  {
    var n := MAX_BUCKETS;
    AdmittedCrowd(c, n);
    RunRemembers(c, Crowd(n), 0);
    assert Crowd(n + 1)[..n] == Crowd(n);
  }

  // ---------------------------------------------------------------- the limiter itself

  class Limiter {
    const config: Config
    var buckets: map<Ip, Bucket>
    var calls: nat

    constructor (config: Config)
      ensures this.config == config && View() == START
    {
      this.config := config;
      buckets, calls := map[], 0;
    }

    ghost function View(): State
      reads this
    {
      State(buckets, calls)
    }

    method Allow(ip: Ip, now: int) returns (ok: bool)
      modifies this
      ensures ok <==> Admits(config, old(View()), Call(ip, now))
      ensures View() == Allowed(config, old(View()), Call(ip, now))
    {
      var b;
      if ip !in buckets || now > buckets[ip].reset {
        b := Bucket(0, now + config.window);
        buckets := buckets[ip := b];
      } else {
        b := buckets[ip];
      }
      if b.count >= config.limit {
        assert buckets == Counted(config, old(View()), Call(ip, now)).buckets;
        return false;
      }
      buckets := buckets[ip := Bucket(b.count + 1, b.reset)];
      calls := calls + 1;
      assert View() == Counted(config, old(View()), Call(ip, now));
      if calls % 1024 == 0 || |buckets| > MAX_BUCKETS {
        Sweep(now);
      }
      return true;
    }

    method Sweep(now: int)
      modifies this`buckets
      ensures View() == Swept(old(View()), now)
    {
      ghost var was := buckets;
      var todo := buckets.Keys;
      while todo != {}
        invariant todo <= was.Keys
        invariant forall ip :: ip in buckets <==> ip in was && (ip in todo || now <= was[ip].reset)
        invariant forall ip :: ip in buckets ==> buckets[ip] == was[ip]
        decreases |todo|
      {
        var ip :| ip in todo;
        todo := todo - {ip};
        if now > buckets[ip].reset {
          buckets := buckets - {ip};
        }
      }
      assert buckets == Unexpired(was, now);
      if |buckets| > MAX_BUCKETS {
        buckets := map[];
      }
    }
  }
}
