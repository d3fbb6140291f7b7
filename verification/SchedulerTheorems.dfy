/** What every run of the request scheduler keeps. */
module SchedulerTheorems {
  import opened Wrappers
  import opened RequestScheduler

  // ---------------------------------------------------------------- invariant

  predicate Live(t: Task) { !t.cancelled && t.phase != Released }

  function ActiveIds(s: State): set<nat> {
    set id | 0 <= id < |s.tasks| && Active(s.tasks[id])
  }

  ghost predicate Increasing(q: seq<nat>) {
    forall i, j :: 0 <= i < j < |q| ==> q[i] < q[j]
  }

  /** Queue, key index, task records and slot counter agree. */
  ghost predicate Consistent(e: Env, s: State) {
    && Indexed(s)
    && Increasing(s.queue)
    && (forall i :: 0 <= i < |s.queue| ==> s.tasks[s.queue[i]].phase == Queued && Live(s.tasks[s.queue[i]]))
    && (forall k :: k in s.table ==>
          s.tasks[s.table[k]].key == k && Live(s.tasks[s.table[k]]) && k.seqNo == s.currentSeq)
    && (forall id :: 0 <= id < |s.tasks| ==> Registered(s, id))
    && s.activeCount == |ActiveIds(s)| <= e.maxConcurrency
  }

  /** A live task is indexed under its key; a live task not yet started is queued. */
  ghost predicate Registered(s: State, id: nat)
    requires id < |s.tasks|
  {
    var t := s.tasks[id];
    && (Live(t) ==> t.key in s.table && s.table[t.key] == id)
    && (Live(t) && t.phase == Queued ==> id in s.queue)
    && (t.phase == Queued ==> !t.timer && !t.timedOut && !t.failureNotified)
  }

  /** Heavy starts keep their gap, and no start precedes a deadline learnt before it. */
  ghost predicate PacedPair(e: Env, a: Output, b: Output) {
    && (a.Started? && b.Started? && a.heavy && b.heavy ==> a.at + e.heavyGapMs <= b.at)
    && (a.RateLimited? && b.Started? ==> a.until <= b.at)
  }

  /** Among the tasks of one weight, the earlier enqueued starts first. */
  ghost predicate FifoPair(a: Output, b: Output) {
    a.Started? && b.Started? && a.heavy == b.heavy ==> a.id < b.id
  }

  ghost predicate Paced(e: Env, s: State) {
    && (forall i, j :: 0 <= i < j < |s.log| ==> PacedPair(e, s.log[i], s.log[j]) && FifoPair(s.log[i], s.log[j]))
    && (forall i :: 0 <= i < |s.log| ==> Accounted(s, s.log[i]))
    && (s.lastHeavyStartAt.Some? ==> s.lastHeavyStartAt.value <= e.clock(s.ticks))
  }

  /** The scheduler state remembers enough of an output to keep the pairs in order. */
  ghost predicate Accounted(s: State, o: Output) {
    && (o.Started? && o.heavy ==> s.lastHeavyStartAt.Some? && o.at <= s.lastHeavyStartAt.value)
    && (o.RateLimited? ==> o.until <= s.cooldownUntil)
    && (!o.RateLimited? ==> o.id < |s.tasks|)
    && (o.Started? ==> forall i :: 0 <= i < |s.queue| && s.queue[i] < |s.tasks| ==>
          s.tasks[s.queue[i]].heavy == o.heavy ==> o.id < s.queue[i])
  }

  // ---------------------------------------------------------------- callbacks

  function Successes(log: seq<Output>, id: nat): nat {
    if log == [] then 0
    else Successes(log[..|log| - 1], id) + if log[|log| - 1].Succeeded? && log[|log| - 1].id == id then 1 else 0
  }

  function Failures(log: seq<Output>, id: nat): nat {
    if log == [] then 0
    else Failures(log[..|log| - 1], id) + if log[|log| - 1].Failed? && log[|log| - 1].id == id then 1 else 0
  }

  /** The callbacks of one task, in the order they were run. */
  function Told(log: seq<Output>, id: nat): seq<Output> {
    if log == [] then []
    else
      var o := log[|log| - 1];
      Told(log[..|log| - 1], id) + if (o.Succeeded? || o.Failed?) && o.id == id then [o] else []
  }

  /** The success callback of the task was run and did not return normally. */
  ghost predicate Threw(log: seq<Output>, id: nat) {
    exists i :: 0 <= i < |log| && log[i].Succeeded? && log[i].id == id && log[i].threw
  }

  ghost predicate Delivered(log: seq<Output>, t: Task, id: nat) {
    var ok, bad := Successes(log, id), Failures(log, id);
    && ok <= 1 && bad <= 1
    && (!t.failureNotified ==> bad == 0)
    && (t.phase.Queued? || t.phase.Fetching? || t.phase.Reading? ==> ok == 0)
    && (t.timedOut ==> ok == 0)
    && ((t.phase.Fetching? || t.phase.Reading?) && !t.timedOut ==> bad == 0)
    && (ok == 1 && (bad == 1 || t.phase.Failing?) ==> Threw(log, id))
  }

  ghost predicate AllDelivered(s: State) {
    forall id :: 0 <= id < |s.tasks| ==> Delivered(s.log, s.tasks[id], id)
  }

  ghost predicate Inv(e: Env, s: State) {
    Consistent(e, s) && Paced(e, s) && AllDelivered(s)
  }

  lemma {:induction false} CountAppend(log: seq<Output>, o: Output, id: nat)
    ensures Successes(log + [o], id) == Successes(log, id) + if o.Succeeded? && o.id == id then 1 else 0
    ensures Failures(log + [o], id) == Failures(log, id) + if o.Failed? && o.id == id then 1 else 0
    ensures Told(log + [o], id) == Told(log, id) + if (o.Succeeded? || o.Failed?) && o.id == id then [o] else []
    ensures Threw(log, id) ==> Threw(log + [o], id)
    ensures o.Succeeded? && o.id == id && o.threw ==> Threw(log + [o], id)
  {
  }

  /** No output mentions a task that does not exist yet. */
  lemma {:induction false} CountFresh(log: seq<Output>, id: nat)
    requires forall i :: 0 <= i < |log| && !log[i].RateLimited? ==> log[i].id != id
    ensures Successes(log, id) == 0 && Failures(log, id) == 0 && !Threw(log, id) && Told(log, id) == []
  {
    if log != [] { CountFresh(log[..|log| - 1], id); }
  }

  // ---------------------------------------------------------------- what pump may do

  /** One pump, or a part of it: time passes, outputs are added, callbacks run for live tasks only. */
  ghost predicate Grew(s: State, r: State) {
    && r.currentSeq == s.currentSeq && r.cooldownUntil == s.cooldownUntil && r.ticks >= s.ticks
    && |r.tasks| == |s.tasks| && s.log <= r.log
    && (s.lastHeavyStartAt.Some? ==> r.lastHeavyStartAt.Some?)
    && (forall id :: 0 <= id < |s.tasks| ==>
          r.tasks[id].key == s.tasks[id].key && r.tasks[id].cancelled == s.tasks[id].cancelled)
    && CallbacksLive(s, r)
  }

  ghost predicate CallbacksLive(s: State, r: State) {
    forall j :: |s.log| <= j < |r.log| && (r.log[j].Succeeded? || r.log[j].Failed?) ==>
      r.log[j].id < |r.tasks| && !Stale(r, r.tasks[r.log[j].id])
  }

  ghost predicate SameCounts(s: State, r: State, id: nat) {
    && Successes(r.log, id) == Successes(s.log, id) && Failures(r.log, id) == Failures(s.log, id)
    && Told(r.log, id) == Told(s.log, id)
  }

  /** What is told when a fetch throws at once. */
  function ToldAtStart(e: Env, t: Task, id: nat): seq<Output>
    requires e.fetchThrows(id).Some?
  {
    if t.errCb.Some? && !e.fetchThrows(id).value then [Failed(id, t.errCb.value)] else []
  }

  /** What a pump may do to a task: nothing; or start it; or, when its fetch throws, start it, report
      the failure and release it. A task already started is never touched. */
  ghost predicate Evolved(e: Env, s: State, r: State, id: nat)
    requires id < |s.tasks| && id < |r.tasks|
  {
    var t, u := s.tasks[id], r.tasks[id];
    || (u == t && SameCounts(s, r, id))
    || (t.phase == Queued && Live(t) && e.fetchThrows(id).None?
        && u == t.(phase := Fetching, timer := e.timeoutMs > 0) && SameCounts(s, r, id))
    || (t.phase == Queued && Live(t) && ThrewAtStart(e, s, r, id))
  }

  ghost predicate ThrewAtStart(e: Env, s: State, r: State, id: nat)
    requires id < |s.tasks| && id < |r.tasks|
  {
    && e.fetchThrows(id).Some?
    && r.tasks[id].phase == Released && !r.tasks[id].cancelled && r.tasks[id].aborted == s.tasks[id].aborted
    && r.tasks[id].timedOut == s.tasks[id].timedOut && r.tasks[id].cb == None && r.tasks[id].errCb == None
    && Told(r.log, id) == Told(s.log, id) + ToldAtStart(e, s.tasks[id], id)
    && Successes(r.log, id) == Successes(s.log, id)
    && Failures(r.log, id) == Failures(s.log, id)
         + if s.tasks[id].errCb.Some? && !e.fetchThrows(id).value then 1 else 0
  }

  ghost predicate AllEvolved(e: Env, s: State, r: State) {
    |r.tasks| == |s.tasks| && forall id :: 0 <= id < |s.tasks| ==> Evolved(e, s, r, id)
  }

  lemma EvolvedTrans(e: Env, a: State, b: State, c: State)
    requires AllEvolved(e, a, b) && AllEvolved(e, b, c)
    ensures AllEvolved(e, a, c)
  {
    forall id | 0 <= id < |a.tasks| ensures Evolved(e, a, c, id) {
      assert Evolved(e, a, b, id) && Evolved(e, b, c, id);
    }
  }

  lemma GrewTrans(a: State, b: State, c: State)
    requires Grew(a, b) && Grew(b, c)
    ensures Grew(a, c)
  {
  }

  /** Under the invariant nothing queued is stale: the scan only looks. */
  lemma {:induction false} ScanFinds(e: Env, s: State, i: nat, waitUntil: nat, now: nat)
    requires Consistent(e, s) && i <= |s.queue|
    requires forall j :: 0 <= j < i ==> Blocked(e, s, s.tasks[s.queue[j]], now)
    requires i == 0 ==> waitUntil == 0
    requires i > 0 ==> s.lastHeavyStartAt.Some? && waitUntil == s.lastHeavyStartAt.value + e.heavyGapMs > 0
    ensures var (r, sel, w) := Scan(e, s, i, waitUntil, now);
      && r == s
      && (sel >= 0 ==> !Blocked(e, s, s.tasks[s.queue[sel]], now))
      && (forall j :: 0 <= j < (if sel >= 0 then sel else |s.queue|) ==> Blocked(e, s, s.tasks[s.queue[j]], now))
      && (sel == -1 && |s.queue| > 0 ==>
            s.lastHeavyStartAt.Some? && w == s.lastHeavyStartAt.value + e.heavyGapMs > 0)
      && (sel == -1 && |s.queue| == 0 ==> w == waitUntil)
    decreases |s.queue| - i
  {
    if i < |s.queue| {
      var t := s.tasks[s.queue[i]];
      assert Registered(s, s.queue[i]);
      assert !Stale(s, t);
      if Blocked(e, s, t, now) {
        var readyAt := s.lastHeavyStartAt.value + e.heavyGapMs;
        ScanFinds(e, s, i + 1, if waitUntil == 0 || readyAt < waitUntil then readyAt else waitUntil, now);
      }
    }
  }

  // ---------------------------------------------------------------- primitive steps keep the invariant

  lemma TickInv(e: Env, s: State, r: State)
    requires Monotone(e) && Inv(e, s)
    requires r == s.(ticks := r.ticks, wake := r.wake) && r.ticks >= s.ticks
    ensures Inv(e, r) && Grew(s, r)
  {
    assert ActiveIds(r) == ActiveIds(s);
    assert e.clock(s.ticks) <= e.clock(r.ticks);
    forall id | 0 <= id < |s.tasks| ensures Registered(r, id) { assert Registered(s, id); }
    forall i | 0 <= i < |s.log| ensures Accounted(r, r.log[i]) { assert Accounted(s, s.log[i]); }
  }

  function Taken(s: State, sel: nat): State
    requires sel < |s.queue|
  {
    s.(queue := RemoveAt(s.queue, sel))
  }

  lemma RemoveAtFacts(s: State, sel: nat)
    requires sel < |s.queue|
    requires Increasing(s.queue)
    ensures var q := RemoveAt(s.queue, sel);
      && |q| == |s.queue| - 1
      && (forall i :: 0 <= i < |q| ==> q[i] == s.queue[if i < sel then i else i + 1] && q[i] != s.queue[sel])
      && (forall id :: id in s.queue && id != s.queue[sel] ==> id in q)
  {
  }

  lemma LaunchConsistent(e: Env, s: State, sel: nat, now: nat)
    requires Consistent(e, s) && sel < |s.queue| && s.activeCount < e.maxConcurrency
    ensures Consistent(e, Launch(e, Taken(s, sel), s.queue[sel], now))
  {
    var id := s.queue[sel];
    var r := Launch(e, Taken(s, sel), id, now);
    RemoveAtFacts(s, sel);
    forall k | 0 <= k < |s.tasks| ensures Registered(r, k) { assert Registered(s, k); }
    forall i | 0 <= i < |r.queue|
      ensures r.queue[i] < |r.tasks| && r.tasks[r.queue[i]].phase == Queued && Live(r.tasks[r.queue[i]])
    {
      assert r.queue[i] == s.queue[if i < sel then i else i + 1];
    }
    assert ActiveIds(r) == ActiveIds(s) + {id};
    assert id !in ActiveIds(s);
  }

  lemma LaunchPaced(e: Env, s: State, sel: nat, now: nat)
    requires Monotone(e) && Consistent(e, s) && Paced(e, s) && sel < |s.queue|
    requires !Blocked(e, s, s.tasks[s.queue[sel]], now)
    requires forall j :: 0 <= j < sel ==> Blocked(e, s, s.tasks[s.queue[j]], now)
    requires s.cooldownUntil <= now <= e.clock(s.ticks)
    ensures Paced(e, Launch(e, Taken(s, sel), s.queue[sel], now))
  {
    var id := s.queue[sel];
    var t := s.tasks[id];
    var r := Launch(e, Taken(s, sel), id, now);
    RemoveAtFacts(s, sel);
    var o := r.log[|s.log|];
    assert e.clock(s.ticks) <= e.clock(r.ticks);
    assert t.heavy ==> sel == 0 by { assert sel > 0 ==> Blocked(e, s, s.tasks[s.queue[0]], now); }
    assert forall j :: 0 <= j < sel ==> s.tasks[s.queue[j]].heavy;
    forall i | 0 <= i < |s.log|
      ensures Accounted(r, r.log[i]) && PacedPair(e, r.log[i], o) && FifoPair(r.log[i], o)
    {
      assert r.log[i] == s.log[i];
      assert Accounted(s, s.log[i]);
      assert r.lastHeavyStartAt.Some? && s.lastHeavyStartAt.Some? ==>
        s.lastHeavyStartAt.value <= r.lastHeavyStartAt.value;
    }
    forall k | 0 <= k < |r.queue| && r.tasks[r.queue[k]].heavy == t.heavy ensures id < r.queue[k] {
      assert r.queue[k] == s.queue[if k < sel then k else k + 1];
    }
    assert Accounted(r, o);
    forall i, j | 0 <= i < j < |r.log| ensures PacedPair(e, r.log[i], r.log[j]) && FifoPair(r.log[i], r.log[j]) {
      if j < |s.log| { assert r.log[i] == s.log[i] && r.log[j] == s.log[j]; }
    }
    forall i | 0 <= i < |r.log| ensures Accounted(r, r.log[i]) { }
  }

  lemma LaunchInv(e: Env, s: State, sel: nat, now: nat)
    requires Monotone(e) && Inv(e, s) && sel < |s.queue| && s.activeCount < e.maxConcurrency
    requires !Blocked(e, s, s.tasks[s.queue[sel]], now)
    requires forall j :: 0 <= j < sel ==> Blocked(e, s, s.tasks[s.queue[j]], now)
    requires s.cooldownUntil <= now <= e.clock(s.ticks)
    ensures var r := Launch(e, Taken(s, sel), s.queue[sel], now);
      Inv(e, r) && Grew(s, r) && r.tasks[s.queue[sel]].phase == Fetching && !Stale(r, r.tasks[s.queue[sel]])
  {
    var id := s.queue[sel];
    var r := Launch(e, Taken(s, sel), id, now);
    LaunchConsistent(e, s, sel, now);
    LaunchPaced(e, s, sel, now);
    assert Registered(s, id);
    forall k | 0 <= k < |s.tasks| ensures Delivered(r.log, r.tasks[k], k) {
      assert Delivered(s.log, s.tasks[k], k);
      CountAppend(s.log, r.log[|s.log|], k);
    }
  }

  /** Changing the flags of one task, other than its place, keeps the structure. */
  ghost predicate SamePlace(s: State, r: State, id: nat)
    requires id < |s.tasks|
  {
    && |r.tasks| == |s.tasks|
    && r == s.(tasks := r.tasks, log := r.log)
    && (forall k :: 0 <= k < |s.tasks| && k != id ==> r.tasks[k] == s.tasks[k])
    && r.tasks[id].key == s.tasks[id].key && r.tasks[id].heavy == s.tasks[id].heavy
    && r.tasks[id].cancelled == s.tasks[id].cancelled
    && (r.tasks[id].phase == Queued <==> s.tasks[id].phase == Queued)
    && (r.tasks[id].phase == Released <==> s.tasks[id].phase == Released)
    && (s.tasks[id].phase == Queued ==> !r.tasks[id].timer && !r.tasks[id].timedOut && !r.tasks[id].failureNotified)
  }

  lemma SamePlaceConsistent(e: Env, s: State, r: State, id: nat)
    requires Consistent(e, s) && id < |s.tasks| && SamePlace(s, r, id)
    ensures Consistent(e, r)
  {
    assert ActiveIds(r) == ActiveIds(s);
    forall k | 0 <= k < |s.tasks| ensures Registered(r, k) { assert Registered(s, k); }
  }

  /** A callback added to the log leaves the pacing alone. */
  lemma CallbackPaced(e: Env, s: State, r: State, id: nat)
    requires Paced(e, s) && Indexed(s) && id < |s.tasks| && SamePlace(s, r, id)
    requires r.log == s.log || exists o :: r.log == s.log + [o] && (o.Succeeded? || o.Failed?) && o.id == id
    ensures Paced(e, r)
  {
  }

  lemma NotifyDelivered(s: State, id: nat, abort: bool, k: nat)
    requires AllDelivered(s) && id < |s.tasks| && k < |s.tasks|
    requires s.tasks[id].phase.Failing? || (s.tasks[id].timedOut && Active(s.tasks[id]))
    requires s.tasks[id].phase != Closing
    ensures var r := NotifyFailure(s, id, abort); Delivered(r.log, r.tasks[k], k)
  {
    var t := s.tasks[id];
    assert Delivered(s.log, s.tasks[k], k) && Delivered(s.log, t, id);
    hide AllDelivered, Successes, Failures, Told, Threw;
    if t.errCb.Some? {
      CountAppend(s.log, Failed(id, t.errCb.value), k);
    } else {
      assert s.log + [] == s.log;
    }
  }

  /** What notifyFailure may change: the task's flag and one failure output. */
  lemma NotifyShape(s: State, id: nat, abort: bool)
    requires id < |s.tasks| && s.tasks[id].phase != Queued
    ensures var r := NotifyFailure(s, id, abort);
      && SamePlace(s, r, id)
      && r.tasks[id].phase == s.tasks[id].phase
      && (r.log == s.log
          || (s.tasks[id].errCb.Some? && r.log == s.log + [Failed(id, s.tasks[id].errCb.value)]
              && !Stale(s, s.tasks[id])))
  {
  }

  lemma CatchShape(s: State, id: nat)
    requires id < |s.tasks| && s.tasks[id].phase.Failing?
    ensures var r := CatchError(s, id);
      && SamePlace(s, r, id) && r.tasks[id].phase == Closing
      && r.log == NotifyFailure(s, id, s.tasks[id].phase.abort).log
      && (r.log == s.log
          || (s.tasks[id].errCb.Some? && r.log == s.log + [Failed(id, s.tasks[id].errCb.value)]
              && !Stale(s, s.tasks[id])))
  {
    NotifyShape(s, id, s.tasks[id].phase.abort);
  }

  /** The catch step of a rejected chain. */
  lemma CatchInv(e: Env, s: State, id: nat)
    requires Inv(e, s) && id < |s.tasks| && s.tasks[id].phase.Failing?
    ensures var r := CatchError(s, id);
      Inv(e, r) && Grew(s, r) && r.queue == s.queue && r.tasks[id].phase == Closing
  {
    var r := CatchError(s, id);
    CatchShape(s, id);
    hide CatchError, NotifyFailure;
    SamePlaceConsistent(e, s, r, id);
    CallbackPaced(e, s, r, id);
    CatchDelivered(s, id);
  }

  lemma CatchDelivered(s: State, id: nat)
    requires AllDelivered(s) && id < |s.tasks| && s.tasks[id].phase.Failing?
    ensures AllDelivered(CatchError(s, id))
  {
    var r := CatchError(s, id);
    forall k | 0 <= k < |s.tasks| ensures Delivered(r.log, r.tasks[k], k) {
      NotifyDelivered(s, id, s.tasks[id].phase.abort, k);
    }
  }

  /** A started task whose chain is rejected. */
  lemma FailInv(e: Env, s: State, id: nat, abort: bool)
    requires Inv(e, s) && id < |s.tasks| && (s.tasks[id].phase.Fetching? || s.tasks[id].phase.Reading?)
    ensures var r := SetPhase(s, id, Failing(abort)); Inv(e, r) && Grew(s, r) && r.queue == s.queue
  {
    var r := SetPhase(s, id, Failing(abort));
    SamePlaceConsistent(e, s, r, id);
    CallbackPaced(e, s, r, id);
    forall k | 0 <= k < |s.tasks| ensures Delivered(r.log, r.tasks[k], k) { assert Delivered(s.log, s.tasks[k], k); }
  }

  lemma ReleasedConsistent(e: Env, s: State, id: nat)
    requires Consistent(e, s) && id < |s.tasks| && Active(s.tasks[id])
    ensures Consistent(e, Release(s, id))
  {
    var r := Release(s, id);
    assert ActiveIds(r) == ActiveIds(s) - {id};
    assert id in ActiveIds(s);
    assert s.activeCount > 0;
    forall k | 0 <= k < |s.tasks| ensures Registered(r, k) { assert Registered(s, k); assert Registered(s, id); }
  }

  lemma ReleaseInv(e: Env, s: State, id: nat)
    requires Inv(e, s) && id < |s.tasks| && Active(s.tasks[id])
    ensures Inv(e, Release(s, id)) && Grew(s, Release(s, id)) && Release(s, id).queue == s.queue
  {
    var r := Release(s, id);
    ReleasedConsistent(e, s, id);
    forall i | 0 <= i < |s.log| ensures Accounted(r, r.log[i]) { assert Accounted(s, s.log[i]); }
    forall k | 0 <= k < |s.tasks| ensures Delivered(r.log, r.tasks[k], k) {
      assert Delivered(s.log, s.tasks[k], k);
    }
  }

  // ---------------------------------------------------------------- pump

  function Max(a: nat, b: nat): nat { if a < b then b else a }

  /** The instant by which every gate on the queue is open. */
  function OpenAt(e: Env, s: State): nat {
    if s.lastHeavyStartAt.Some? then Max(s.cooldownUntil, s.lastHeavyStartAt.value + e.heavyGapMs) else s.cooldownUntil
  }

  predicate LightWaits(s: State) {
    exists i :: 0 <= i < |s.queue| && s.queue[i] < |s.tasks| && !s.tasks[s.queue[i]].heavy
  }

  /** The instant by which some queued task may start: the gap between heavy starts holds no light task back. */
  function GateFor(e: Env, s: State): nat {
    if LightWaits(s) then s.cooldownUntil else OpenAt(e, s)
  }

  /** No lost wakeup: with work queued, every slot is taken or a timer is set in time. */
  ghost predicate Awake(e: Env, s: State) {
    s.queue == [] || s.activeCount >= e.maxConcurrency || (s.wake.Some? && s.wake.value <= GateFor(e, s))
  }

  /** A fetch that throws at once: one failure callback, the slot returned, and a nested pump. */
  lemma {:induction false} ThrowInv(e: Env, s: State, id: nat, abort: bool)
    requires Monotone(e) && Inv(e, s) && id < |s.tasks| && s.tasks[id].phase == Fetching
    ensures var r := FinishTask(e, CatchError(SetPhase(s, id, Failing(abort)), id), id);
      Inv(e, r) && Grew(s, r) && |r.queue| <= |s.queue|
    decreases |s.queue|, 3
  {
    var s1 := SetPhase(s, id, Failing(abort));
    FailInv(e, s, id, abort);
    var s2 := CatchError(s1, id);
    CatchInv(e, s1, id);
    GrewTrans(s, s1, s2);
    var s3 := Release(s2, id);
    ReleaseInv(e, s2, id);
    GrewTrans(s, s2, s3);
    PumpInv(e, s3);
    GrewTrans(s, s3, Pump(e, s3));
  }

  lemma {:induction false} StartInv(e: Env, s: State, sel: nat, now: nat)
    requires Monotone(e) && Inv(e, s) && sel < |s.queue| && s.activeCount < e.maxConcurrency
    requires !Blocked(e, s, s.tasks[s.queue[sel]], now)
    requires forall j :: 0 <= j < sel ==> Blocked(e, s, s.tasks[s.queue[j]], now)
    requires s.cooldownUntil <= now <= e.clock(s.ticks)
    ensures Indexed(Taken(s, sel))
    ensures var r := StartTask(e, Taken(s, sel), s.queue[sel], now);
      && Inv(e, r) && Grew(s, r) && |r.queue| < |s.queue|
      && |s.log| < |r.log| && r.log[|s.log|].Started? && r.log[|s.log|].id == s.queue[sel]
    decreases |s.queue|, 0, 0
  {
    RemoveAtFacts(s, sel);
    var id := s.queue[sel];
    var s1 := Launch(e, Taken(s, sel), id, now);
    LaunchInv(e, s, sel, now);
    if e.fetchThrows(id).Some? {
      ThrowInv(e, s1, id, e.fetchThrows(id).value);
      GrewTrans(s, s1, StartTask(e, Taken(s, sel), id, now));
    }
  }

  lemma PumpOpens(e: Env, s: State) returns (r: State, now: nat)
    requires Indexed(s)
    ensures now == e.clock(s.ticks)
    ensures r == s.(ticks := s.ticks + 1, wake := r.wake)
    ensures Pump(e, s) == if now < r.cooldownUntil then ScheduleWake(r, r.cooldownUntil) else PumpLoop(e, r, now)
  {
    now := e.clock(s.ticks);
    r := DisarmDue(s.(ticks := s.ticks + 1), now);
  }

  /** The opening of pump: one reading of the clock, and a wake timer already due is dropped. */
  lemma OpeningInv(e: Env, s: State) returns (r: State, now: nat)
    requires Monotone(e) && Inv(e, s)
    ensures Inv(e, r) && Grew(s, r) && now <= e.clock(r.ticks)
    ensures now == e.clock(s.ticks) && r == s.(ticks := r.ticks, wake := r.wake)
    ensures Pump(e, s) == if now < r.cooldownUntil then ScheduleWake(r, r.cooldownUntil) else PumpLoop(e, r, now)
  {
    r, now := PumpOpens(e, s);
    TickInv(e, s, r);
  }

  /** During a cooldown pump only sets the timer. */
  lemma CoolingInv(e: Env, s: State)
    requires Monotone(e) && Inv(e, s)
    ensures var r := ScheduleWake(s, s.cooldownUntil);
      Inv(e, r) && Grew(s, r) && Awake(e, r)
  {
    TickInv(e, s, ScheduleWake(s, s.cooldownUntil));
  }

  lemma {:induction false} PumpInv(e: Env, s: State)
    requires Monotone(e) && Inv(e, s)
    ensures Inv(e, Pump(e, s)) && Grew(s, Pump(e, s)) && Awake(e, Pump(e, s))
    decreases |s.queue|, 2
  {
    var s1, now := OpeningInv(e, s);
    if now < s1.cooldownUntil {
      CoolingInv(e, s1);
    } else {
      PumpLoopInv(e, s1, now);
    }
    GrewTrans(s, s1, Pump(e, s));
  }

  /** The loop finds nothing free to start: it leaves with a timer for the heavy gate, or an empty queue. */
  lemma PumpIdle(e: Env, s: State, now: nat)
    requires Monotone(e) && Inv(e, s) && s.activeCount < e.maxConcurrency
    requires Scan(e, s, 0, 0, now).1 == -1
    ensures var r := PumpLoop(e, s, now);
      Inv(e, r) && Grew(s, r) && Awake(e, r)
  {
    ScanFinds(e, s, 0, 0, now);
    TickInv(e, s, PumpLoop(e, s, now));
  }

  /** What the loop does with the task its scan found. */
  lemma PumpUnfold(e: Env, s: State, now: nat, sel: nat)
    requires Indexed(s) && s.activeCount < e.maxConcurrency && sel < |s.queue|
    requires Scan(e, s, 0, 0, now).0 == s && Scan(e, s, 0, 0, now).1 == sel
    requires var t := s.tasks[s.queue[sel]]; t.key in s.table && s.table[t.key] == s.queue[sel]
    requires Indexed(Taken(s, sel))
    ensures var s3 := StartTask(e, Taken(s, sel), s.queue[sel], now);
      PumpLoop(e, s, now) == PumpLoop(e, s3.(ticks := s3.ticks + 1), e.clock(s3.ticks))
  {
    hide Scan, StartTask, Inv;
  }

  /** The reading at the end of a turn is late enough for the next one. */
  lemma NextReading(e: Env, s: State, s3: State)
    requires Monotone(e) && Inv(e, s3) && Grew(s, s3) && s.cooldownUntil <= e.clock(s.ticks)
    ensures var t := s3.(ticks := s3.ticks + 1);
      Inv(e, t) && Grew(s, t) && t.cooldownUntil <= e.clock(s3.ticks) <= e.clock(t.ticks)
  {
    var t := s3.(ticks := s3.ticks + 1);
    assert e.clock(s.ticks) <= e.clock(s3.ticks) <= e.clock(t.ticks);
    TickInv(e, s3, t);
    GrewTrans(s, s3, t);
  }

  /** One turn of the loop: a task starts, and the loop goes on from `t` at the new reading. */
  lemma {:induction false} PumpTurn(e: Env, s: State, now: nat) returns (t: State, later: nat)
    requires Monotone(e) && Inv(e, s) && s.activeCount < e.maxConcurrency
    requires s.cooldownUntil <= now <= e.clock(s.ticks)
    requires Scan(e, s, 0, 0, now).1 >= 0
    ensures Inv(e, t) && Grew(s, t) && |t.queue| < |s.queue|
    ensures t.cooldownUntil <= later <= e.clock(t.ticks) && t.ticks > s.ticks && later == e.clock(t.ticks - 1)
    ensures PumpLoop(e, s, now) == PumpLoop(e, t, later)
    ensures var sel := Scan(e, s, 0, 0, now).1;
      && |s.log| < |t.log| && t.log[|s.log|].Started? && t.log[|s.log|].id == s.queue[sel]
      && Indexed(Taken(s, sel))
      && var s3 := StartTask(e, Taken(s, sel), s.queue[sel], now);
         t.tasks == s3.tasks && t.log == s3.log && t.ticks == s3.ticks + 1
    decreases |s.queue|, 0, 2
  {
    var s3 := TurnStart(e, s, now);
    hide StartTask, Scan, PumpLoop, Inv;
    NextReading(e, s, s3);
    t, later := s3.(ticks := s3.ticks + 1), e.clock(s3.ticks);
  }

  /** The start of the task the scan found, and what is left of the loop. */
  lemma {:induction false} TurnStart(e: Env, s: State, now: nat) returns (s3: State)
    requires Monotone(e) && Inv(e, s) && s.activeCount < e.maxConcurrency
    requires s.cooldownUntil <= now <= e.clock(s.ticks)
    requires Scan(e, s, 0, 0, now).1 >= 0
    ensures var sel := Scan(e, s, 0, 0, now).1;
      && Indexed(Taken(s, sel)) && s3 == StartTask(e, Taken(s, sel), s.queue[sel], now)
      && |s.log| < |s3.log| && s3.log[|s.log|].Started? && s3.log[|s.log|].id == s.queue[sel]
    ensures Inv(e, s3) && Grew(s, s3) && |s3.queue| < |s.queue|
    ensures PumpLoop(e, s, now) == PumpLoop(e, s3.(ticks := s3.ticks + 1), e.clock(s3.ticks))
    decreases |s.queue|, 0, 1
  {
    hide PumpLoop, StartTask, Scan, Paced, AllDelivered, Grew;
    ScanFinds(e, s, 0, 0, now);
    var sel := Scan(e, s, 0, 0, now).1;
    assert Registered(s, s.queue[sel]);
    StartInv(e, s, sel, now);
    PumpUnfold(e, s, now, sel);
    s3 := StartTask(e, Taken(s, sel), s.queue[sel], now);
  }

  lemma {:induction false} PumpLoopInv(e: Env, s: State, now: nat)
    requires Monotone(e) && Inv(e, s)
    requires s.cooldownUntil <= now <= e.clock(s.ticks)
    ensures var r := PumpLoop(e, s, now);
      && Inv(e, r) && Grew(s, r) && Awake(e, r)
    decreases |s.queue|, 1
  {
    if s.activeCount < e.maxConcurrency {
      if Scan(e, s, 0, 0, now).1 == -1 {
        PumpIdle(e, s, now);
      } else {
        var t, later := PumpTurn(e, s, now);
        PumpLoopInv(e, t, later);
        GrewTrans(s, t, PumpLoop(e, t, later));
      }
    }
  }

  /** The state in which a throwing start calls pump again. */
  function ThrownStart(e: Env, s: State, sel: nat, now: nat): State
    requires sel < |s.queue| && s.queue[sel] < |s.tasks| && e.fetchThrows(s.queue[sel]).Some?
  {
    var id := s.queue[sel];
    Release(CatchError(SetPhase(Launch(e, Taken(s, sel), id, now), id, Failing(e.fetchThrows(id).value)), id), id)
  }

  ghost predicate FreshHead(s: State, sel: nat) {
    && sel < |s.queue| && Indexed(s) && Indexed(Taken(s, sel))
    && var t := s.tasks[s.queue[sel]];
       t.phase == Queued && !Stale(s, t) && !t.failureNotified && !t.timedOut
  }

  lemma ThrownStartShape(e: Env, s: State, sel: nat, now: nat)
    requires FreshHead(s, sel) && e.fetchThrows(s.queue[sel]).Some?
    ensures var id := s.queue[sel];
      var t, s3, abort := s.tasks[id], ThrownStart(e, s, sel, now), e.fetchThrows(id).value;
      && Indexed(s3) && |s3.tasks| == |s.tasks|
      && StartTask(e, Taken(s, sel), id, now) == Pump(e, s3)
      && s3.tasks[id].phase == Released && !s3.tasks[id].cancelled
      && s3.tasks[id].cb == None && s3.tasks[id].errCb == None
      && s3.tasks[id].aborted == t.aborted && !s3.tasks[id].timedOut
      && (forall k :: 0 <= k < |s.tasks| && k != id ==> s3.tasks[k] == s.tasks[k])
      && s3.log == Launch(e, Taken(s, sel), id, now).log
           + if t.errCb.Some? && !abort then [Failed(id, t.errCb.value)] else []
  {
  }

  lemma ThrownStartFacts(e: Env, s: State, sel: nat, now: nat)
    requires FreshHead(s, sel) && e.fetchThrows(s.queue[sel]).Some?
    ensures var id := s.queue[sel];
      var s3 := ThrownStart(e, s, sel, now);
      && |s3.tasks| == |s.tasks| && Indexed(s3)
      && StartTask(e, Taken(s, sel), id, now) == Pump(e, s3)
      && ThrewAtStart(e, s, s3, id)
      && forall k :: 0 <= k < |s.tasks| && k != id ==> s3.tasks[k] == s.tasks[k] && SameCounts(s, s3, k)
  {
    ThrownStartShape(e, s, sel, now);
    var id, s3 := s.queue[sel], ThrownStart(e, s, sel, now);
    var reported := s.tasks[id].errCb.Some? && !e.fetchThrows(id).value;
    var started := Launch(e, Taken(s, sel), id, now).log;
    forall k: nat
      ensures Successes(s3.log, k) == Successes(s.log, k)
      ensures Failures(s3.log, k) == Failures(s.log, k) + if k == id && reported then 1 else 0
      ensures Told(s3.log, k) == Told(s.log, k) + if k == id then ToldAtStart(e, s.tasks[id], id) else []
    {
      ThrownCounts(s.log, started[|s.log|], if reported then [Failed(id, s.tasks[id].errCb.value)] else [], id, k);
      assert s3.log == s.log + [started[|s.log|]] + if reported then [Failed(id, s.tasks[id].errCb.value)] else [];
    }
  }

  lemma ThrownCounts(log: seq<Output>, o: Output, more: seq<Output>, id: nat, k: nat)
    requires o.Started? && (more == [] || (|more| == 1 && more[0].Failed? && more[0].id == id))
    ensures Successes(log + [o] + more, k) == Successes(log, k)
    ensures Failures(log + [o] + more, k) == Failures(log, k) + if k == id && more != [] then 1 else 0
    ensures Told(log + [o] + more, k) == Told(log, k) + if k == id then more else []
  {
    CountAppend(log, o, k);
    if more == [] {
      assert log + [o] + more == log + [o];
    } else {
      assert more == [more[0]];
      CountAppend(log + [o], more[0], k);
    }
  }

  lemma ThrownStartInv(e: Env, s: State, sel: nat, now: nat)
    requires Monotone(e) && Inv(e, s) && sel < |s.queue| && s.activeCount < e.maxConcurrency
    requires !Blocked(e, s, s.tasks[s.queue[sel]], now)
    requires forall j :: 0 <= j < sel ==> Blocked(e, s, s.tasks[s.queue[j]], now)
    requires s.cooldownUntil <= now <= e.clock(s.ticks)
    requires e.fetchThrows(s.queue[sel]).Some?
    ensures Inv(e, ThrownStart(e, s, sel, now)) && |ThrownStart(e, s, sel, now).queue| < |s.queue|
  {
    var id, abort := s.queue[sel], e.fetchThrows(s.queue[sel]).value;
    RemoveAtFacts(s, sel);
    LaunchInv(e, s, sel, now);
    var s1 := Launch(e, Taken(s, sel), id, now);
    FailInv(e, s1, id, abort);
    CatchInv(e, SetPhase(s1, id, Failing(abort)), id);
    ReleaseInv(e, CatchError(SetPhase(s1, id, Failing(abort)), id), id);
  }

  lemma {:induction false} StartEvolves(e: Env, s: State, sel: nat, now: nat)
    requires Monotone(e) && Inv(e, s) && sel < |s.queue| && s.activeCount < e.maxConcurrency
    requires !Blocked(e, s, s.tasks[s.queue[sel]], now)
    requires forall j :: 0 <= j < sel ==> Blocked(e, s, s.tasks[s.queue[j]], now)
    requires s.cooldownUntil <= now <= e.clock(s.ticks)
    requires Indexed(Taken(s, sel))
    ensures AllEvolved(e, s, StartTask(e, Taken(s, sel), s.queue[sel], now))
    ensures StartTask(e, Taken(s, sel), s.queue[sel], now).tasks[s.queue[sel]].phase != Queued
    decreases |s.queue|, 0, 0
  {
    var id := s.queue[sel];
    assert Registered(s, id);
    if e.fetchThrows(id).Some? {
      var s3 := ThrownStart(e, s, sel, now);
      ThrownStartFacts(e, s, sel, now);
      ThrownStartInv(e, s, sel, now);
      hide Inv, ThrownStart, Pump, StartTask;
      PumpEvolves(e, s3);
      ThrownEvolves(e, s, s3, Pump(e, s3), id);
      assert Evolved(e, s3, Pump(e, s3), id);
    } else {
      LaunchEvolves(e, s, sel, now);
    }
  }

  lemma LaunchEvolves(e: Env, s: State, sel: nat, now: nat)
    requires sel < |s.queue| && s.queue[sel] < |s.tasks| && e.fetchThrows(s.queue[sel]).None?
    requires s.tasks[s.queue[sel]].phase == Queued && Live(s.tasks[s.queue[sel]])
    ensures var r := Launch(e, Taken(s, sel), s.queue[sel], now);
      AllEvolved(e, s, r) && r.tasks[s.queue[sel]].phase == Fetching
  {
    var r := Launch(e, Taken(s, sel), s.queue[sel], now);
    forall k | 0 <= k < |s.tasks| ensures Evolved(e, s, r, k) { CountAppend(s.log, r.log[|s.log|], k); }
  }

  lemma ThrownEvolves(e: Env, s: State, s3: State, r: State, id: nat)
    requires id < |s.tasks| == |s3.tasks| && s.tasks[id].phase == Queued && Live(s.tasks[id])
    requires ThrewAtStart(e, s, s3, id) && AllEvolved(e, s3, r)
    requires forall k :: 0 <= k < |s.tasks| && k != id ==> s3.tasks[k] == s.tasks[k] && SameCounts(s, s3, k)
    ensures AllEvolved(e, s, r)
  {
    forall k | 0 <= k < |s.tasks| ensures Evolved(e, s, r, k) { assert Evolved(e, s3, r, k); }
  }

  lemma {:induction false} PumpEvolves(e: Env, s: State)
    requires Monotone(e) && Inv(e, s)
    ensures AllEvolved(e, s, Pump(e, s))
    decreases |s.queue|, 2
  {
    var s1, now := OpeningInv(e, s);
    if now >= s1.cooldownUntil {
      PumpLoopEvolves(e, s1, now);
      EvolvesFrom(e, s, s1, Pump(e, s));
    }
  }

  /** Evolved looks only at the task records and the log. */
  lemma EvolvesFrom(e: Env, s: State, t: State, r: State)
    requires s.tasks == t.tasks && s.log == t.log && AllEvolved(e, t, r)
    ensures AllEvolved(e, s, r)
  {
    forall k | 0 <= k < |s.tasks| ensures Evolved(e, s, r, k) { assert Evolved(e, t, r, k); }
  }

  lemma {:induction false} TurnEvolves(e: Env, s: State, now: nat) returns (t: State, later: nat)
    requires Monotone(e) && Inv(e, s) && s.activeCount < e.maxConcurrency
    requires s.cooldownUntil <= now <= e.clock(s.ticks)
    requires Scan(e, s, 0, 0, now).1 >= 0
    ensures Inv(e, t) && |t.queue| < |s.queue| && t.cooldownUntil <= later <= e.clock(t.ticks)
    ensures PumpLoop(e, s, now) == PumpLoop(e, t, later)
    ensures AllEvolved(e, s, t)
    ensures var id := s.queue[Scan(e, s, 0, 0, now).1]; s.tasks[id].phase == Queued && t.tasks[id].phase != Queued
    decreases |s.queue|, 0, 1
  {
    ScanFinds(e, s, 0, 0, now);
    t, later := PumpTurn(e, s, now);
    var sel := Scan(e, s, 0, 0, now).1;
    StartEvolves(e, s, sel, now);
    EvolvesTo(e, s, StartTask(e, Taken(s, sel), s.queue[sel], now), t);
  }

  lemma EvolvesTo(e: Env, s: State, r: State, t: State)
    requires AllEvolved(e, s, r) && t.tasks == r.tasks && t.log == r.log
    ensures AllEvolved(e, s, t)
  {
    forall k | 0 <= k < |s.tasks| ensures Evolved(e, s, t, k) { assert Evolved(e, s, r, k); }
  }

  lemma {:induction false} PumpLoopEvolves(e: Env, s: State, now: nat)
    requires Monotone(e) && Inv(e, s)
    requires s.cooldownUntil <= now <= e.clock(s.ticks)
    ensures AllEvolved(e, s, PumpLoop(e, s, now))
    decreases |s.queue|, 1
  {
    if s.activeCount < e.maxConcurrency {
      ScanFinds(e, s, 0, 0, now);
      if Scan(e, s, 0, 0, now).1 >= 0 {
        var t, later := TurnEvolves(e, s, now);
        PumpLoopEvolves(e, t, later);
        EvolvedTrans(e, s, t, PumpLoop(e, t, later));
      }
    }
  }

  // ---------------------------------------------------------------- events

  /** What no event undoes. */
  ghost predicate Advanced(s: State, r: State) {
    && s.log <= r.log && CallbacksLive(s, r)
    && r.cooldownUntil >= s.cooldownUntil && |r.tasks| >= |s.tasks|
    && (forall id :: 0 <= id < |s.tasks| ==>
          r.tasks[id].key == s.tasks[id].key && (s.tasks[id].cancelled ==> r.tasks[id].cancelled))
  }

  ghost predicate Kept(e: Env, s: State, r: State) {
    Inv(e, r) && Awake(e, r) && Advanced(s, r)
  }

  lemma PumpKept(e: Env, s: State, mid: State)
    requires Monotone(e) && Inv(e, mid)
    requires mid.log == s.log && mid.cooldownUntil == s.cooldownUntil && |mid.tasks| >= |s.tasks|
    requires forall id :: 0 <= id < |s.tasks| ==>
      mid.tasks[id].key == s.tasks[id].key && (s.tasks[id].cancelled ==> mid.tasks[id].cancelled)
    ensures Kept(e, s, Pump(e, mid))
  {
    PumpInv(e, mid);
  }

  /** An event that changes one task in place and adds at most one output about it. */
  lemma InPlaceKept(e: Env, s: State, r: State, id: nat)
    requires Inv(e, s) && Awake(e, s) && id < |s.tasks| && SamePlace(s, r, id)
    requires r.log == s.log
      || exists o :: r.log == s.log + [o] && (o.Succeeded? || o.Failed?) && o.id == id && !Stale(s, s.tasks[id])
    requires AllDelivered(r)
    ensures Kept(e, s, r)
  {
    SamePlaceConsistent(e, s, r, id);
    InPlaceAdvanced(s, r, id);
    hide Consistent, AllDelivered, Stale;
    CallbackPaced(e, s, r, id);
    hide Paced, SamePlace, Advanced;
    SamePlaceAwake(e, s, r, id);
  }

  lemma SamePlaceAwake(e: Env, s: State, r: State, id: nat)
    requires id < |s.tasks| && SamePlace(s, r, id) && Awake(e, s)
    ensures Awake(e, r)
  {
  }

  lemma InPlaceAdvanced(s: State, r: State, id: nat)
    requires id < |s.tasks| && SamePlace(s, r, id)
    requires r.log == s.log
      || exists o :: r.log == s.log + [o] && (o.Succeeded? || o.Failed?) && o.id == id && !Stale(s, s.tasks[id])
    ensures Advanced(s, r)
  {
  }

  lemma AddedConsistent(e: Env, s: State, key: Key, cb: Option<nat>, errCb: Option<nat>)
    requires Consistent(e, s) && key !in s.table && key.seqNo == s.currentSeq
    ensures Consistent(e, Added(s, key, cb, errCb))
  {
    var r := Added(s, key, cb, errCb);
    assert ActiveIds(r) == ActiveIds(s);
    forall k | 0 <= k < |r.tasks| ensures Registered(r, k) {
      if k < |s.tasks| {
        assert Registered(s, k);
        assert k in s.queue ==> k in r.queue;
      } else {
        assert r.queue[|s.queue|] == k;
      }
    }
  }

  lemma AddedInv(e: Env, s: State, key: Key, cb: Option<nat>, errCb: Option<nat>)
    requires Inv(e, s) && key !in s.table && key.seqNo == s.currentSeq
    ensures Inv(e, Added(s, key, cb, errCb))
  {
    var r := Added(s, key, cb, errCb);
    AddedConsistent(e, s, key, cb, errCb);
    forall i | 0 <= i < |s.log| ensures Accounted(r, r.log[i]) { assert Accounted(s, s.log[i]); }
    forall k | 0 <= k < |r.tasks| ensures Delivered(r.log, r.tasks[k], k) {
      if k < |s.tasks| { assert Delivered(s.log, s.tasks[k], k); } else { NothingTold(e, s, k); }
    }
  }

  /** A task not yet enqueued has no outputs. */
  lemma NothingTold(e: Env, s: State, id: nat)
    requires Paced(e, s) && id >= |s.tasks|
    ensures Successes(s.log, id) == 0 && Failures(s.log, id) == 0 && !Threw(s.log, id) && Told(s.log, id) == []
  {
    forall i | 0 <= i < |s.log| && !s.log[i].RateLimited? ensures s.log[i].id != id {
      assert Accounted(s, s.log[i]);
    }
    CountFresh(s.log, id);
  }

  lemma EnqueueKept(e: Env, s: State, seqNo: int, path: string, cb: Option<nat>, errCb: Option<nat>)
    requires Monotone(e) && Inv(e, s) && Awake(e, s)
    ensures Kept(e, s, Enqueue(e, s, seqNo, path, cb, errCb).0)
  {
    var key := Key(seqNo, path);
    var r := Enqueue(e, s, seqNo, path, cb, errCb).0;
    if seqNo == s.currentSeq {
      if key in s.table {
        var id := s.table[key];
        assert Registered(s, id);
        forall k | 0 <= k < |s.tasks| ensures Delivered(r.log, r.tasks[k], k) {
          assert Delivered(s.log, s.tasks[k], k);
        }
        InPlaceKept(e, s, r, id);
      } else {
        AddedInv(e, s, key, cb, errCb);
        PumpKept(e, s, Added(s, key, cb, errCb));
      }
    }
  }

  lemma {:induction false} KeepFreshSorted(s: State, q: seq<nat>)
    requires forall i :: 0 <= i < |q| ==> q[i] < |s.tasks|
    requires Increasing(q)
    ensures Increasing(KeepFresh(s, q))
  {
    if q != [] {
      var tail := q[1..];
      assert forall i :: 0 <= i < |tail| ==> tail[i] == q[i + 1];
      KeepFreshSorted(s, tail);
      var r := KeepFresh(s, tail);
      forall i | 0 <= i < |r| ensures q[0] < r[i] {
        var k :| 0 <= k < |tail| && tail[k] == r[i];
      }
      IncreasingCons(q[0], r);
    }
  }

  lemma IncreasingCons(x: nat, q: seq<nat>)
    requires Increasing(q) && forall i :: 0 <= i < |q| ==> x < q[i]
    ensures Increasing([x] + q)
  {
  }

  lemma InvalidatedConsistent(e: Env, s: State, seqNo: int)
    requires Consistent(e, s)
    ensures Consistent(e, Invalidated(e, s, seqNo))
  {
    var s1 := CancelOthers(e, s, seqNo);
    var r := Invalidated(e, s, seqNo);
    KeepFreshSorted(s1, s1.queue);
    assert r.queue == KeepFresh(s1, s1.queue);
    assert ActiveIds(r) == ActiveIds(s);
    forall k | 0 <= k < |s.tasks| ensures Registered(r, k) {
      assert Registered(s, k);
      if Live(r.tasks[k]) { assert k in s.table.Values; }
    }
    forall i | 0 <= i < |r.queue|
      ensures r.queue[i] < |r.tasks| && r.tasks[r.queue[i]].phase == Queued && Live(r.tasks[r.queue[i]])
    {
      var id := r.queue[i];
      assert id in s.queue;
    }
    forall k | k in r.table
      ensures r.tasks[r.table[k]].key == k && Live(r.tasks[r.table[k]]) && k.seqNo == r.currentSeq
    {
      assert r.tasks[r.table[k]] == s.tasks[s.table[k]];
    }
  }

  lemma InvalidatedInv(e: Env, s: State, seqNo: int)
    requires Inv(e, s)
    ensures Inv(e, Invalidated(e, s, seqNo))
  {
    var r := Invalidated(e, s, seqNo);
    InvalidatedConsistent(e, s, seqNo);
    forall i | 0 <= i < |s.log| ensures Accounted(r, r.log[i]) {
      assert Accounted(s, s.log[i]);
      assert forall x :: x in r.queue ==> x in s.queue;
    }
    forall k | 0 <= k < |s.tasks| ensures Delivered(r.log, r.tasks[k], k) { assert Delivered(s.log, s.tasks[k], k); }
  }

  lemma InvalidateKept(e: Env, s: State, seqNo: int)
    requires Monotone(e) && Inv(e, s)
    ensures Kept(e, s, Invalidate(e, s, seqNo))
  {
    InvalidatedInv(e, s, seqNo);
    PumpKept(e, s, Invalidated(e, s, seqNo));
  }

  lemma TimeoutKept(e: Env, s: State, id: nat)
    requires Inv(e, s) && Awake(e, s) && Enabled(s, TimeoutFires(id))
    ensures Kept(e, s, TimeoutTask(e, s, id))
  {
    var t := s.tasks[id];
    var r := TimeoutTask(e, s, id);
    assert Registered(s, id);
    if r != s {
      var s0 := s.(tasks := s.tasks[id := t.(timedOut := true)]);
      forall k | 0 <= k < |s.tasks| ensures Delivered(s0.log, s0.tasks[k], k) {
        assert Delivered(s.log, s.tasks[k], k);
      }
      forall k | 0 <= k < |s.tasks| ensures Delivered(r.log, r.tasks[k], k) { NotifyDelivered(s0, id, false, k); }
      TimeoutShape(e, s, id);
      hide TimeoutTask, NotifyFailure, SamePlace, Delivered, Consistent, Paced, Awake, Kept;
      InPlaceKept(e, s, r, id);
    }
  }

  lemma TimeoutShape(e: Env, s: State, id: nat)
    requires id < |s.tasks| && s.tasks[id].phase != Queued
    ensures var r := TimeoutTask(e, s, id);
      && SamePlace(s, r, id)
      && (r.log == s.log
          || exists o :: r.log == s.log + [o] && (o.Succeeded? || o.Failed?) && o.id == id && !Stale(s, s.tasks[id]))
  {
    NotifyShape(s.(tasks := s.tasks[id := s.tasks[id].(timedOut := true)]), id, false);
    hide NotifyFailure;
  }

  lemma RespondKept(e: Env, s: State, id: nat, a: Answer)
    requires Monotone(e) && Inv(e, s) && Awake(e, s) && Enabled(s, FetchResolves(id, a))
    ensures Kept(e, s, Respond(e, s, id, a))
  {
    var s1 := SetPhase(s, id, if a.Good? then Reading else Failing(false));
    forall k | 0 <= k < |s.tasks| ensures Delivered(s1.log, s1.tasks[k], k) { assert Delivered(s.log, s.tasks[k], k); }
    InPlaceKept(e, s, s1, id);
    if a.TooMany? {
      LimitKept(e, s, s1, Respond(e, s, id, a));
    }
  }

  /** A 429 raises the cooldown and is logged; nothing else moves. */
  lemma LimitKept(e: Env, s: State, s1: State, r: State)
    requires Monotone(e) && Kept(e, s, s1) && s1.log == s.log
    requires exists until: nat ::
      r == s1.(ticks := s1.ticks + 1, cooldownUntil := Max(s1.cooldownUntil, until),
               log := s1.log + [RateLimited(until)])
    ensures Kept(e, s, r)
  {
    var until: nat :| r == s1.(ticks := s1.ticks + 1, cooldownUntil := Max(s1.cooldownUntil, until),
                               log := s1.log + [RateLimited(until)]);
    assert ActiveIds(r) == ActiveIds(s1);
    assert e.clock(s1.ticks) <= e.clock(r.ticks);
    forall k | 0 <= k < |s1.tasks| ensures Registered(r, k) && Delivered(r.log, r.tasks[k], k) {
      assert Registered(s1, k) && Delivered(s1.log, s1.tasks[k], k);
      CountAppend(s1.log, RateLimited(until), k);
    }
    forall i | 0 <= i < |r.log| ensures Accounted(r, r.log[i]) {
      if i < |s1.log| { assert Accounted(s1, s1.log[i]); }
    }
    forall i, j | 0 <= i < j < |r.log| ensures PacedPair(e, r.log[i], r.log[j]) && FifoPair(r.log[i], r.log[j]) {
      if j < |s1.log| { assert r.log[i] == s1.log[i] && r.log[j] == s1.log[j]; }
    }
  }

  lemma RejectKept(e: Env, s: State, id: nat, abort: bool)
    requires Inv(e, s) && Awake(e, s) && id < |s.tasks|
    requires s.tasks[id].phase.Fetching? || s.tasks[id].phase.Reading?
    ensures Kept(e, s, SetPhase(s, id, Failing(abort)))
  {
    FailInv(e, s, id, abort);
  }

  lemma BodyKept(e: Env, s: State, id: nat, o: Outcome)
    requires Inv(e, s) && Awake(e, s) && Enabled(s, BodyResolves(id, o))
    ensures Kept(e, s, DeliverBody(s, id, o))
  {
    hide DeliverBody, SamePlace, Delivered, Consistent, Paced, Awake, Kept;
    var r := DeliverBody(s, id, o);
    BodyShape(s, id, o);
    SamePlaceLength(s, r, id);
    forall k | 0 <= k < |s.tasks| ensures Delivered(r.log, r.tasks[k], k) { BodyDelivered(s, id, o, k); }
    InPlaceKept(e, s, r, id);
  }

  lemma SamePlaceLength(s: State, r: State, id: nat)
    requires id < |s.tasks| && SamePlace(s, r, id)
    ensures |r.tasks| == |s.tasks|
  {
  }

  lemma BodyDelivered(s: State, id: nat, o: Outcome, k: nat)
    requires AllDelivered(s) && id < |s.tasks| && k < |s.tasks| && s.tasks[id].phase == Reading
    ensures var r := DeliverBody(s, id, o); |r.tasks| == |s.tasks| && Delivered(r.log, r.tasks[k], k)
  {
    var t := s.tasks[id];
    assert Delivered(s.log, s.tasks[k], k);
    if DeliverBody(s, id, o).log != s.log { CountAppend(s.log, Succeeded(id, t.cb.value, o.Throws?), k); }
  }

  /** What the delivery of a body may change: the task's phase, and one success output. */
  lemma BodyShape(s: State, id: nat, o: Outcome)
    requires id < |s.tasks| && s.tasks[id].phase == Reading
    ensures var r := DeliverBody(s, id, o);
      && SamePlace(s, r, id)
      && (r.log == s.log || exists out ::
            r.log == s.log + [out] && (out.Succeeded? || out.Failed?) && out.id == id && !Stale(s, s.tasks[id]))
  {
    var t := s.tasks[id];
    if !t.timedOut && !Stale(s, t) && t.cb.Some? {
      assert DeliverBody(s, id, o).log == s.log + [Succeeded(id, t.cb.value, o.Throws?)];
    }
  }

  lemma CatchKept(e: Env, s: State, id: nat)
    requires Inv(e, s) && Awake(e, s) && Enabled(s, Catches(id))
    ensures Kept(e, s, CatchError(s, id))
  {
    CatchInv(e, s, id);
  }

  lemma SettleKept(e: Env, s: State, id: nat)
    requires Monotone(e) && Inv(e, s) && Enabled(s, Settles(id))
    ensures Kept(e, s, FinishTask(e, s, id))
  {
    ReleaseInv(e, s, id);
    PumpKept(e, s, Release(s, id));
  }

  lemma StepKept(e: Env, s: State, ev: Event)
    requires Monotone(e) && Inv(e, s) && Awake(e, s)
    ensures Kept(e, s, Step(e, s, ev))
  {
    if Enabled(s, ev) {
      match ev
      case EnqueueCall(seqNo, path, cb, errCb) => EnqueueKept(e, s, seqNo, path, cb, errCb);
      case InvalidateCall(seqNo) => InvalidateKept(e, s, seqNo);
      case WakeFires =>
        TickInv(e, s, s.(wake := None));
        PumpKept(e, s, s.(wake := None));
      case TimeoutFires(id) => TimeoutKept(e, s, id);
      case FetchResolves(id, a) => RespondKept(e, s, id, a);
      case FetchRejects(id, abort) => RejectKept(e, s, id, abort);
      case BodyResolves(id, o) => BodyKept(e, s, id, o);
      case BodyRejects(id, abort) => RejectKept(e, s, id, abort);
      case Catches(id) => CatchKept(e, s, id);
      case Settles(id) => SettleKept(e, s, id);
    }
  }

  // ---------------------------------------------------------------- runs

  lemma {:induction false} RunInv(e: Env, initialSeq: int, evs: seq<Event>)
    requires Monotone(e)
    ensures Inv(e, Run(e, initialSeq, evs)) && Awake(e, Run(e, initialSeq, evs))
  {
    if evs == [] {
      assert ActiveIds(Init(initialSeq)) == {};
    } else {
      RunInv(e, initialSeq, evs[..|evs| - 1]);
      StepKept(e, Run(e, initialSeq, evs[..|evs| - 1]), evs[|evs| - 1]);
    }
  }

  /** Slots: the counter is the number of started and unreleased tasks, never above the limit. */
  lemma SlotsAccounted(e: Env, initialSeq: int, evs: seq<Event>)
    requires Monotone(e)
    ensures var s := Run(e, initialSeq, evs);
      s.activeCount == |set id | 0 <= id < |s.tasks| && Active(s.tasks[id])| <= e.maxConcurrency
  {
    RunInv(e, initialSeq, evs);
  }

  /** No lost wakeup: while a live task waits, all slots are taken or a timer will fire by the time every
      gate is open, for a light task by the end of the cooldown; and with a slot at all, something is due to
      call pump again. */
  lemma NoLostWakeup(e: Env, initialSeq: int, evs: seq<Event>, id: nat)
    requires Monotone(e)
    requires var s := Run(e, initialSeq, evs);
      id < |s.tasks| && s.tasks[id].phase == Queued && !s.tasks[id].cancelled
    ensures var s := Run(e, initialSeq, evs);
      && id in s.queue && s.tasks[id].key.seqNo == s.currentSeq
      && (s.activeCount == e.maxConcurrency || (s.wake.Some? && s.wake.value <= OpenAt(e, s)))
      && (s.activeCount == e.maxConcurrency || s.tasks[id].heavy || s.wake.value <= s.cooldownUntil)
      && (e.maxConcurrency > 0 ==> s.wake.Some? || exists k :: 0 <= k < |s.tasks| && Active(s.tasks[k]))
  {
    RunInv(e, initialSeq, evs);
    var s := Run(e, initialSeq, evs);
    assert Registered(s, id);
    if e.maxConcurrency > 0 && s.wake.None? {
      assert ActiveIds(s) != {};
      var k :| k in ActiveIds(s);
    }
  }

  lemma LoopStartsHead(e: Env, s: State, now: nat)
    requires Monotone(e) && Inv(e, s) && s.queue != [] && s.activeCount < e.maxConcurrency
    requires !Blocked(e, s, s.tasks[s.queue[0]], now) && s.cooldownUntil <= now <= e.clock(s.ticks)
    ensures var r := PumpLoop(e, s, now);
      |s.log| < |r.log| && r.log[|s.log|].Started? && r.log[|s.log|].id == s.queue[0]
  {
    ScanFinds(e, s, 0, 0, now);
    var t, later := PumpTurn(e, s, now);
    PumpLoopInv(e, t, later);
    assert t.log <= PumpLoop(e, t, later).log;
  }

  /** A pump with a free slot, at or after the opening instant, starts the head of the queue first. */
  lemma OpenGateStartsHead(e: Env, s: State)
    requires Monotone(e) && Inv(e, s)
    requires s.queue != [] && s.activeCount < e.maxConcurrency && OpenAt(e, s) <= e.clock(s.ticks)
    ensures var r := Pump(e, s);
      |s.log| < |r.log| && r.log[|s.log|].Started? && r.log[|s.log|].id == s.queue[0]
  {
    var t, now := OpeningInv(e, s);
    LoopStartsHead(e, t, now);
  }

  /** Retried at the instant its timer was set for, a run never sleeps through: if the wake timer
      fires when every gate is open and a slot is free, the oldest waiting task starts. */
  lemma WakeIsEffective(e: Env, initialSeq: int, evs: seq<Event>)
    requires Monotone(e)
    requires var s := Run(e, initialSeq, evs);
      && Enabled(s, WakeFires) && s.queue != [] && s.activeCount < e.maxConcurrency
      && OpenAt(e, s) <= e.clock(s.ticks)
    ensures var s, r := Run(e, initialSeq, evs), Run(e, initialSeq, evs + [WakeFires]);
      |s.log| < |r.log| && r.log[|s.log|].Started? && r.log[|s.log|].id == s.queue[0]
  {
    var s := Run(e, initialSeq, evs);
    RunInv(e, initialSeq, evs);
    assert (evs + [WakeFires])[..|evs|] == evs;
    TickInv(e, s, s.(wake := None));
    OpenGateStartsHead(e, s.(wake := None));
  }

  /** Pacing: heavy starts are a gap apart, no start precedes a deadline learnt before it,
      and tasks of one weight start in the order they were enqueued. */
  lemma RunsArePaced(e: Env, initialSeq: int, evs: seq<Event>, i: nat, j: nat)
    requires Monotone(e)
    requires i < j < |Run(e, initialSeq, evs).log|
    ensures var a, b := Run(e, initialSeq, evs).log[i], Run(e, initialSeq, evs).log[j];
      && (a.Started? && b.Started? && a.heavy && b.heavy ==> a.at + e.heavyGapMs <= b.at)
      && (a.RateLimited? && b.Started? ==> a.until <= b.at)
      && (a.Started? && b.Started? && a.heavy == b.heavy ==> a.id < b.id)
  {
    RunInv(e, initialSeq, evs);
    var s := Run(e, initialSeq, evs);
    assert PacedPair(e, s.log[i], s.log[j]) && FifoPair(s.log[i], s.log[j]);
  }

  /** One event adds to the log, never lowers the cooldown, and runs callbacks of tasks that are
      neither cancelled nor of another generation, before and after it. */
  lemma CallbacksAreLive(e: Env, initialSeq: int, evs: seq<Event>, ev: Event, j: nat)
    requires Monotone(e)
    ensures var s, r := Run(e, initialSeq, evs), Step(e, Run(e, initialSeq, evs), ev);
      && s.log <= r.log && s.cooldownUntil <= r.cooldownUntil
      && (|s.log| <= j < |r.log| && (r.log[j].Succeeded? || r.log[j].Failed?) ==>
            var id := r.log[j].id;
            && id < |r.tasks| && !r.tasks[id].cancelled && r.tasks[id].key.seqNo == r.currentSeq
            && (id < |s.tasks| ==> !s.tasks[id].cancelled))
  {
    RunInv(e, initialSeq, evs);
    StepKept(e, Run(e, initialSeq, evs), ev);
  }

  /** Each task delivers at most one success and one failure; both only when the success
      callback itself threw; and no success once the task timed out. */
  lemma DeliveredAtMostOnce(e: Env, initialSeq: int, evs: seq<Event>, id: nat)
    requires Monotone(e)
    ensures var s := Run(e, initialSeq, evs);
      && Successes(s.log, id) <= 1 && Failures(s.log, id) <= 1
      && (Successes(s.log, id) == 1 && Failures(s.log, id) == 1 ==> Threw(s.log, id))
      && (id < |s.tasks| && s.tasks[id].timedOut ==> Successes(s.log, id) == 0)
  {
    RunInv(e, initialSeq, evs);
    var s := Run(e, initialSeq, evs);
    if id < |s.tasks| {
      assert Delivered(s.log, s.tasks[id], id);
    } else {
      forall i | 0 <= i < |s.log| && !s.log[i].RateLimited? ensures s.log[i].id != id {
        assert Accounted(s, s.log[i]);
      }
      CountFresh(s.log, id);
    }
  }

  /** Two live tasks never share generation and path. */
  lemma LiveTasksDistinct(e: Env, initialSeq: int, evs: seq<Event>, a: nat, b: nat)
    requires Monotone(e)
    requires var s := Run(e, initialSeq, evs);
      && a < |s.tasks| && b < |s.tasks| && Live(s.tasks[a]) && Live(s.tasks[b])
      && s.tasks[a].key == s.tasks[b].key
    ensures a == b
  {
    RunInv(e, initialSeq, evs);
    assert Registered(Run(e, initialSeq, evs), a) && Registered(Run(e, initialSeq, evs), b);
  }

  /** An enqueue of the current generation answers with the live task for its path, which now carries its
      callbacks unless that task already timed out: then they are dropped. */
  lemma EnqueueAnswers(e: Env, initialSeq: int, evs: seq<Event>, path: string, cb: Option<nat>, errCb: Option<nat>)
    requires Monotone(e)
    ensures var s := Run(e, initialSeq, evs);
      var (r, answer) := Enqueue(e, s, s.currentSeq, path, cb, errCb);
      var known := exists k :: 0 <= k < |s.tasks| && Live(s.tasks[k]) && s.tasks[k].key == Key(s.currentSeq, path);
      && answer.Some? && answer.value < |r.tasks| && r.tasks[answer.value].key == Key(s.currentSeq, path)
      && (known <==> answer.value < |s.tasks|)
      && (known ==> Live(s.tasks[answer.value]))
      && (known && s.tasks[answer.value].timedOut ==> r == s)
      && (known && !s.tasks[answer.value].timedOut ==>
            r.tasks[answer.value].cb == cb && r.tasks[answer.value].errCb == errCb)
  {
    var s := Run(e, initialSeq, evs);
    RunInv(e, initialSeq, evs);
    var key := Key(s.currentSeq, path);
    forall k | 0 <= k < |s.tasks| && Live(s.tasks[k]) && s.tasks[k].key == key ensures key in s.table {
      assert Registered(s, k);
    }
    if key !in s.table {
      EnqueueKept(e, s, s.currentSeq, path, cb, errCb);
      AddedInv(e, s, key, cb, errCb);
      PumpInv(e, Added(s, key, cb, errCb));
    }
  }
}
