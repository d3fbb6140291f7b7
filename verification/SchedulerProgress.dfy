/** Progress of the request scheduler: what is under way comes to its end, and every waiting task starts. */
module SchedulerProgress {
  import opened Wrappers
  import opened RequestScheduler
  import opened SchedulerTheorems

  // ---------------------------------------------------------------- the work that is left

  /** How many steps a task still has before it. */
  function Weight(p: Phase): (n: nat)
    ensures n <= 5
  {
    match p
    case Queued => 5
    case Fetching => 4
    case Reading => 3
    case Failing(_) => 2
    case Closing => 1
    case Released => 0
  }

  function Work(tasks: seq<Task>): nat {
    if tasks == [] then 0 else Work(tasks[..|tasks| - 1]) + Weight(tasks[|tasks| - 1].phase)
  }

  predicate NoMore(a: seq<Task>, b: seq<Task>) {
    |b| == |a| && forall k :: 0 <= k < |a| ==> Weight(b[k].phase) <= Weight(a[k].phase)
  }

  lemma {:induction false} WorkFalls(a: seq<Task>, b: seq<Task>)
    requires NoMore(a, b)
    ensures Work(b) <= Work(a)
    ensures (exists k :: 0 <= k < |a| && b[k].phase != a[k].phase && Weight(b[k].phase) < Weight(a[k].phase)) ==>
      Work(b) < Work(a)
  {
    if a != [] {
      var n := |a| - 1;
      WorkFalls(a[..n], b[..n]);
      if k :| 0 <= k < n && b[k].phase != a[k].phase && Weight(b[k].phase) < Weight(a[k].phase) {
        assert b[..n][k] == b[k] && a[..n][k] == a[k];
      }
    }
  }

  lemma {:induction false} WorkBound(tasks: seq<Task>)
    ensures Work(tasks) <= 5 * |tasks|
  {
    if tasks != [] {
      WorkBound(tasks[..|tasks| - 1]);
    }
  }

  // ---------------------------------------------------------------- productive events

  /** A step of some fetch that is under way. */
  predicate IsChain(ev: Event) {
    ev.FetchResolves? || ev.FetchRejects? || ev.BodyResolves? || ev.BodyRejects? || ev.Catches? || ev.Settles?
  }

  /** A fetch under way takes its next step, or the timer fires with work, a free slot and the gates open. */
  predicate Productive(e: Env, s: State, ev: Event) {
    && Enabled(s, ev)
    && (IsChain(ev) || (ev == WakeFires && CanStart(e, s)))
  }

  predicate CanStart(e: Env, s: State) {
    s.queue != [] && s.activeCount < e.maxConcurrency && OpenAt(e, s) <= e.clock(s.ticks)
  }

  lemma EvolvedWork(e: Env, s: State, r: State)
    requires AllEvolved(e, s, r)
    ensures Work(r.tasks) <= Work(s.tasks)
    ensures (exists id :: 0 <= id < |s.tasks| && s.tasks[id].phase == Queued && r.tasks[id].phase != Queued) ==>
      Work(r.tasks) < Work(s.tasks)
  {
    forall k | 0 <= k < |s.tasks| ensures Weight(r.tasks[k].phase) <= Weight(s.tasks[k].phase) {
      assert Evolved(e, s, r, k);
    }
    WorkFalls(s.tasks, r.tasks);
  }

  /** The loop takes work away exactly when its scan finds a task; otherwise the gates stay as they are. */
  lemma LoopWork(e: Env, s: State, now: nat)
    requires Monotone(e) && Inv(e, s) && s.cooldownUntil <= now <= e.clock(s.ticks)
    ensures var r := PumpLoop(e, s, now);
      if s.activeCount < e.maxConcurrency && Scan(e, s, 0, 0, now).1 >= 0 then Work(r.tasks) < Work(s.tasks)
      else r.tasks == s.tasks && OpenAt(e, r) == OpenAt(e, s)
  {
    if s.activeCount < e.maxConcurrency {
      ScanFinds(e, s, 0, 0, now);
      if Scan(e, s, 0, 0, now).1 >= 0 {
        hide PumpLoop, Inv, Scan;
        var t, later := TurnEvolves(e, s, now);
        PumpLoopEvolves(e, t, later);
        EvolvedWork(e, s, t);
        EvolvedWork(e, t, PumpLoop(e, t, later));
      }
    }
  }

  /** A pump adds no work, takes some away when it can start a task, and reads the clock. */
  lemma PumpWork(e: Env, s: State)
    requires Monotone(e) && Inv(e, s)
    ensures var r := Pump(e, s);
      && |r.tasks| == |s.tasks| && r.ticks > s.ticks
      && (Work(r.tasks) < Work(s.tasks) || (r.tasks == s.tasks && OpenAt(e, r) == OpenAt(e, s)))
      && (CanStart(e, s) ==> Work(r.tasks) < Work(s.tasks))
  {
    var u, now := PumpOpens(e, s);
    TickInv(e, s, u);
    if now >= u.cooldownUntil {
      hide PumpLoop, Inv, Scan;
      LoopWork(e, u, now);
      PumpLoopInv(e, u, now);
      if CanStart(e, s) {
        HeadIsFound(e, u, now);
      }
    }
  }

  lemma HeadIsFound(e: Env, s: State, now: nat)
    requires Inv(e, s) && s.queue != [] && OpenAt(e, s) <= now
    ensures Scan(e, s, 0, 0, now).1 >= 0
  {
    ScanFinds(e, s, 0, 0, now);
  }

  // ---------------------------------------------------------------- every event

  /** No event adds work but the enqueueing of a task, and a productive one takes some away. */
  ghost predicate Worked(e: Env, s: State, ev: Event, r: State) {
    && |s.tasks| <= |r.tasks|
    && Work(r.tasks) + (if Productive(e, s, ev) then 1 else 0) <= Work(s.tasks) + 5 * (|r.tasks| - |s.tasks|)
  }

  lemma OneTaskWorks(s: State, r: State, id: nat)
    requires id < |s.tasks| == |r.tasks| && r.tasks == s.tasks[id := r.tasks[id]]
    requires r.tasks[id].phase != s.tasks[id].phase && Weight(r.tasks[id].phase) < Weight(s.tasks[id].phase)
    ensures Work(r.tasks) < Work(s.tasks)
  {
    WorkFalls(s.tasks, r.tasks);
  }

  lemma SameWork(a: seq<Task>, b: seq<Task>)
    requires |a| == |b| && forall k :: 0 <= k < |a| ==> b[k].phase == a[k].phase
    ensures Work(b) <= Work(a)
  {
    WorkFalls(a, b);
  }

  lemma EnqueueWorks(e: Env, s: State, seqNo: int, path: string, cb: Option<nat>, errCb: Option<nat>)
    requires Monotone(e) && Inv(e, s)
    ensures Worked(e, s, EnqueueCall(seqNo, path, cb, errCb), Enqueue(e, s, seqNo, path, cb, errCb).0)
  {
    assert Indexed(s);
    hide Pump, Inv, Work, Added;
    var key := Key(seqNo, path);
    if seqNo == s.currentSeq {
      if key in s.table {
        SameWork(s.tasks, Enqueue(e, s, seqNo, path, cb, errCb).0.tasks);
      } else {
        NewWorks(e, s, key, cb, errCb);
      }
    }
  }

  lemma NewWorks(e: Env, s: State, key: Key, cb: Option<nat>, errCb: Option<nat>)
    requires Monotone(e) && Inv(e, s) && key.seqNo == s.currentSeq && key !in s.table
    ensures var r := Pump(e, Added(s, key, cb, errCb));
      |r.tasks| == |s.tasks| + 1 && Work(r.tasks) <= Work(s.tasks) + 5
  {
    hide Pump, Inv, Work;
    AddedWork(s, key, cb, errCb);
    AddedInv(e, s, key, cb, errCb);
    PumpWork(e, Added(s, key, cb, errCb));
  }

  lemma AddedWork(s: State, key: Key, cb: Option<nat>, errCb: Option<nat>)
    ensures var t := Added(s, key, cb, errCb);
      |t.tasks| == |s.tasks| + 1 && Work(t.tasks) == Work(s.tasks) + 5
  {
    assert Added(s, key, cb, errCb).tasks[..|s.tasks|] == s.tasks;
  }

  lemma InvalidateWorks(e: Env, s: State, seqNo: int)
    requires Monotone(e) && Inv(e, s)
    ensures Worked(e, s, InvalidateCall(seqNo), Invalidate(e, s, seqNo))
  {
    InvalidatedInv(e, s, seqNo);
    InvalidatedWork(e, s, seqNo);
    hide Pump, Inv, Invalidated, Work;
    PumpWork(e, Invalidated(e, s, seqNo));
  }

  lemma InvalidatedWork(e: Env, s: State, seqNo: int)
    requires Indexed(s)
    ensures var t := Invalidated(e, s, seqNo);
      && |t.tasks| == |s.tasks| && Work(t.tasks) == Work(s.tasks)
      && OpenAt(e, t) == OpenAt(e, s) && t.ticks == s.ticks
  {
    SameWork(s.tasks, Invalidated(e, s, seqNo).tasks);
    SameWork(Invalidated(e, s, seqNo).tasks, s.tasks);
  }

  lemma WakeWorks(e: Env, s: State)
    requires Monotone(e) && Inv(e, s)
    ensures Worked(e, s, WakeFires, Pump(e, s.(wake := None)))
  {
    var t := s.(wake := None);
    TickInv(e, s, t);
    hide Pump, Inv;
    PumpWork(e, t);
  }

  lemma SettleWorks(e: Env, s: State, id: nat)
    requires Monotone(e) && Inv(e, s) && Enabled(s, Settles(id))
    ensures Worked(e, s, Settles(id), FinishTask(e, s, id))
  {
    ReleaseInv(e, s, id);
    OneTaskWorks(s, Release(s, id), id);
    hide Pump, Inv;
    PumpWork(e, Release(s, id));
  }

  lemma ChainWorks(e: Env, s: State, ev: Event)
    requires IsChain(ev) && !ev.Settles? && Enabled(s, ev)
    requires Indexed(s)
    ensures Worked(e, s, ev, Step(e, s, ev))
  {
    ChainStep(e, s, ev);
    hide Step;
    OneTaskWorks(s, Step(e, s, ev), ev.id);
  }

  /** A step of a fetch other than its last changes that task alone, and brings it further. */
  lemma ChainStep(e: Env, s: State, ev: Event)
    requires IsChain(ev) && !ev.Settles? && Enabled(s, ev) && Indexed(s)
    ensures var r := Step(e, s, ev);
      && |r.tasks| == |s.tasks| && r.tasks == s.tasks[ev.id := r.tasks[ev.id]]
      && Further(s.tasks[ev.id], r.tasks[ev.id])
  {
    hide Further, DeliverBody, CatchError;
    match ev
    case BodyResolves(id, o) => BodyFurther(s, id, o);
    case Catches(id) => CatchFurther(s, id);
    case FetchResolves(id, a) => PhaseFurther(s, id, if a.Good? then Reading else Failing(false));
    case FetchRejects(id, abort) => PhaseFurther(s, id, Failing(abort));
    case BodyRejects(id, abort) => PhaseFurther(s, id, Failing(abort));
  }

  predicate Further(a: Task, b: Task) {
    a.phase != b.phase && Weight(b.phase) < Weight(a.phase) && b.cancelled == a.cancelled
  }

  lemma PhaseFurther(s: State, id: nat, p: Phase)
    requires id < |s.tasks| && Weight(p) < Weight(s.tasks[id].phase)
    ensures Further(s.tasks[id], SetPhase(s, id, p).tasks[id])
  {
  }

  lemma BodyFurther(s: State, id: nat, o: Outcome)
    requires id < |s.tasks| && s.tasks[id].phase == Reading
    ensures var r := DeliverBody(s, id, o);
      && |r.tasks| == |s.tasks| && r.tasks == s.tasks[id := r.tasks[id]]
      && Further(s.tasks[id], r.tasks[id])
  {
  }

  lemma CatchFurther(s: State, id: nat)
    requires id < |s.tasks| && s.tasks[id].phase.Failing?
    ensures var r := CatchError(s, id);
      && |r.tasks| == |s.tasks| && r.tasks == s.tasks[id := r.tasks[id]]
      && Further(s.tasks[id], r.tasks[id])
  {
  }

  lemma StepWorks(e: Env, s: State, ev: Event)
    requires Monotone(e) && Inv(e, s)
    ensures Worked(e, s, ev, Step(e, s, ev))
  {
    assert Indexed(s);
    hide Inv, Worked;
    if !Enabled(s, ev) {
      Unmoved(e, s, ev);
    } else {
      match ev
      case EnqueueCall(seqNo, path, cb, errCb) => EnqueueWorks(e, s, seqNo, path, cb, errCb);
      case InvalidateCall(seqNo) => InvalidateWorks(e, s, seqNo);
      case WakeFires => WakeWorks(e, s);
      case TimeoutFires(id) => TimeoutWorks(e, s, id);
      case Settles(id) => SettleWorks(e, s, id);
      case _ => ChainWorks(e, s, ev);
    }
  }

  lemma Unmoved(e: Env, s: State, ev: Event)
    requires !Enabled(s, ev)
    ensures Worked(e, s, ev, s)
  {
  }

  lemma TimeoutWorks(e: Env, s: State, id: nat)
    requires id < |s.tasks|
    ensures Worked(e, s, TimeoutFires(id), TimeoutTask(e, s, id))
  {
    SameWork(s.tasks, TimeoutTask(e, s, id).tasks);
  }

  // ---------------------------------------------------------------- every run

  /** How many events of a run were productive. */
  ghost function ProductiveSteps(e: Env, initialSeq: int, evs: seq<Event>): nat {
    if evs == [] then 0 else
      var before := evs[..|evs| - 1];
      ProductiveSteps(e, initialSeq, before) +
      if Productive(e, Run(e, initialSeq, before), evs[|evs| - 1]) then 1 else 0
  }

  /** In every run there are at most five productive events for each task ever enqueued. */
  lemma {:induction false} ProductiveStepsEnd(e: Env, initialSeq: int, evs: seq<Event>)
    requires Monotone(e)
    ensures var s := Run(e, initialSeq, evs);
      ProductiveSteps(e, initialSeq, evs) + Work(s.tasks) <= 5 * |s.tasks|
  {
    if evs != [] {
      var before := evs[..|evs| - 1];
      ProductiveStepsEnd(e, initialSeq, before);
      RunInv(e, initialSeq, before);
      StepWorks(e, Run(e, initialSeq, before), evs[|evs| - 1]);
    }
  }

  predicate Waits(s: State, id: nat) {
    id < |s.tasks| && s.tasks[id].phase == Queued && !s.tasks[id].cancelled
  }

  /** While a live task waits and the gates are open, some productive event is due. */
  lemma SomethingProductive(e: Env, initialSeq: int, evs: seq<Event>, id: nat) returns (ev: Event)
    requires Monotone(e) && e.maxConcurrency > 0 && Waits(Run(e, initialSeq, evs), id)
    ensures var s := Run(e, initialSeq, evs);
      if exists k :: 0 <= k < |s.tasks| && Active(s.tasks[k])
      then IsChain(ev) && Productive(e, s, ev)
      else ev == WakeFires && Enabled(s, ev) && (OpenAt(e, s) <= e.clock(s.ticks) ==> Productive(e, s, ev))
  {
    RunInv(e, initialSeq, evs);
    NoLostWakeup(e, initialSeq, evs, id);
    hide Run, Inv;
    var s := Run(e, initialSeq, evs);
    if k :| 0 <= k < |s.tasks| && Active(s.tasks[k]) {
      ev := NextOf(s, k);
    } else {
      SlotsAccounted(e, initialSeq, evs);
      assert (set i | 0 <= i < |s.tasks| && Active(s.tasks[i])) == {};
      ev := WakeFires;
    }
  }

  /** The next step of a fetch under way; one that is not answered fails. */
  lemma NextOf(s: State, id: nat) returns (ev: Event)
    requires id < |s.tasks| && Active(s.tasks[id])
    ensures IsChain(ev) && Enabled(s, ev)
  {
    match s.tasks[id].phase
    case Fetching => ev := FetchRejects(id, false);
    case Reading => ev := BodyRejects(id, false);
    case Failing(_) => ev := Catches(id);
    case Closing => ev := Settles(id);
  }

  predicate SameCancelled(a: seq<Task>, b: seq<Task>) {
    |b| == |a| && forall k :: 0 <= k < |a| ==> b[k].cancelled == a[k].cancelled
  }

  /** Such events call no task off. */
  lemma StepSpares(e: Env, s: State, ev: Event)
    requires Monotone(e) && Inv(e, s) && (IsChain(ev) || ev == WakeFires)
    ensures SameCancelled(s.tasks, Step(e, s, ev).tasks)
  {
    assert Indexed(s);
    hide SameCancelled, Pump, Inv, Release;
    if !Enabled(s, ev) {
      Spared(s.tasks, s.tasks);
    } else if ev.Settles? {
      ReleaseInv(e, s, ev.id);
      PumpSpares(e, s, Release(s, ev.id), ev.id);
    } else if ev == WakeFires {
      TickInv(e, s, s.(wake := None));
      PumpSpares(e, s, s.(wake := None), 0);
    } else {
      ChainSpares(e, s, ev);
    }
  }

  lemma Spared(a: seq<Task>, b: seq<Task>)
    requires a == b
    ensures SameCancelled(a, b)
  {
  }

  lemma PumpSpares(e: Env, s: State, t: State, id: nat)
    requires Monotone(e) && Inv(e, t)
    requires t.tasks == s.tasks || (id < |s.tasks| && t == Release(s, id))
    ensures SameCancelled(s.tasks, Pump(e, t).tasks)
  {
    hide Pump, Inv;
    PumpInv(e, t);
  }

  lemma ChainSpares(e: Env, s: State, ev: Event)
    requires Indexed(s) && IsChain(ev) && !ev.Settles? && Enabled(s, ev)
    ensures SameCancelled(s.tasks, Step(e, s, ev).tasks)
  {
    ChainStep(e, s, ev);
    hide Step;
  }

  /** Readings of the clock pass every instant. */
  ghost predicate Unbounded(e: Env) {
    forall at: nat :: Passes(e, at)
  }

  ghost predicate Passes(e: Env, at: nat) {
    exists i: nat :: e.clock(i) >= at
  }

  /**
   * Every waiting task starts: from every reachable state, and with a slot at all, some steps of the
   * fetches under way and some firings of the wake timer lead to a state in which no live task waits, and
   * none was called off for it. (That any such steps will do is WaitingEnds.)
   */
  lemma {:induction false} EveryTaskStarts(e: Env, initialSeq: int, evs: seq<Event>) returns (more: seq<Event>)
    requires Monotone(e) && e.maxConcurrency > 0 && Unbounded(e)
    ensures forall i :: 0 <= i < |more| ==> IsChain(more[i]) || more[i] == WakeFires
    ensures forall id: nat :: !Waits(Run(e, initialSeq, evs + more), id)
    ensures SameCancelled(Run(e, initialSeq, evs).tasks, Run(e, initialSeq, evs + more).tasks)
  {
    var at := OpenAt(e, Run(e, initialSeq, evs));
    assert Passes(e, at);
    var last: nat :| e.clock(last) >= at;
    more := StartAll(e, initialSeq, evs, last);
  }

  lemma {:induction false} StartAll(e: Env, initialSeq: int, evs: seq<Event>, last: nat) returns (more: seq<Event>)
    requires Monotone(e) && e.maxConcurrency > 0 && Unbounded(e)
    requires e.clock(last) >= OpenAt(e, Run(e, initialSeq, evs))
    ensures forall i :: 0 <= i < |more| ==> IsChain(more[i]) || more[i] == WakeFires
    ensures forall id: nat :: !Waits(Run(e, initialSeq, evs + more), id)
    ensures SameCancelled(Run(e, initialSeq, evs).tasks, Run(e, initialSeq, evs + more).tasks)
    decreases Work(Run(e, initialSeq, evs).tasks),
      if last > Run(e, initialSeq, evs).ticks then last - Run(e, initialSeq, evs).ticks else 0
  {
    hide Run, Enabled, OpenAt, Work, Waits, SameCancelled, IsChain;
    var s := Run(e, initialSeq, evs);
    if id: nat :| Waits(s, id) {
      var ev := SomethingProductive(e, initialSeq, evs, id);
      var later := Continue(e, initialSeq, evs, ev, last);
      var rest := StartAll(e, initialSeq, evs + [ev], later);
      more := [ev] + rest;
      assert evs + [ev] + rest == evs + more;
      SparedTwice(s.tasks, Run(e, initialSeq, evs + [ev]).tasks, Run(e, initialSeq, evs + more).tasks);
    } else {
      more := [];
      assert evs + more == evs;
      Spared(s.tasks, s.tasks);
    }
  }

  lemma SparedTwice(a: seq<Task>, b: seq<Task>, c: seq<Task>)
    requires SameCancelled(a, b) && SameCancelled(b, c)
    ensures SameCancelled(a, c)
  {
  }

  /** One such event brings the end nearer: less work, or the same work and gates at a later reading. */
  lemma Continue(e: Env, initialSeq: int, evs: seq<Event>, ev: Event, last: nat) returns (later: nat)
    requires Monotone(e) && Unbounded(e) && e.clock(last) >= OpenAt(e, Run(e, initialSeq, evs))
    requires var s := Run(e, initialSeq, evs);
      Productive(e, s, ev) || (ev == WakeFires && Enabled(s, ev) && OpenAt(e, s) > e.clock(s.ticks))
    ensures var s, r := Run(e, initialSeq, evs), Run(e, initialSeq, evs + [ev]);
      && SameCancelled(s.tasks, r.tasks) && e.clock(later) >= OpenAt(e, r)
      && (Work(r.tasks) < Work(s.tasks)
          || (Work(r.tasks) == Work(s.tasks) && later == last && s.ticks < last && s.ticks < r.ticks))
  {
    var s, r := Run(e, initialSeq, evs), Run(e, initialSeq, evs + [ev]);
    assert (evs + [ev])[..|evs|] == evs;
    RunInv(e, initialSeq, evs);
    hide Run, Inv, OpenAt, SameCancelled, IsChain, Work;
    StepWorks(e, s, ev);
    StepSpares(e, s, ev);
    if Work(r.tasks) < Work(s.tasks) {
      var at := OpenAt(e, r);
      assert Passes(e, at);
      later :| e.clock(later) >= at;
    } else {
      EarlyWake(e, s);
      later := last;
    }
  }

  lemma EarlyWake(e: Env, s: State)
    requires Monotone(e) && Inv(e, s) && Enabled(s, WakeFires)
    ensures var r := Step(e, s, WakeFires);
      && r.ticks > s.ticks && |r.tasks| == |s.tasks|
      && (Work(r.tasks) < Work(s.tasks) || OpenAt(e, r) == OpenAt(e, s))
  {
    var t := s.(wake := None);
    TickInv(e, s, t);
    hide Pump, Inv;
    PumpWork(e, t);
  }

  // ---------------------------------------------------------------- runs without end

  function Prefix(sched: nat -> Event, n: nat): (evs: seq<Event>)
    ensures |evs| == n
  {
    seq(n, (i: int) requires 0 <= i < n => sched(i))
  }

  /** The state after the first n events of a run without end. */
  function At(e: Env, initialSeq: int, sched: nat -> Event, n: nat): (s: State)
    ensures Indexed(s)
  {
    Run(e, initialSeq, Prefix(sched, n))
  }

  lemma AtStep(e: Env, initialSeq: int, sched: nat -> Event, n: nat)
    requires Monotone(e)
    ensures At(e, initialSeq, sched, n + 1) == Step(e, At(e, initialSeq, sched, n), sched(n))
    ensures Inv(e, At(e, initialSeq, sched, n)) && Awake(e, At(e, initialSeq, sched, n))
  {
    var evs := Prefix(sched, n + 1);
    assert evs[..n] == Prefix(sched, n);
    RunInv(e, initialSeq, evs[..n]);
    hide Step;
  }

  /** Events that are due while tasks wait: the productive ones, and the wake timer before the gates are open. */
  predicate Due(e: Env, s: State, ev: Event) {
    Productive(e, s, ev) || (ev == WakeFires && Enabled(s, ev) && OpenAt(e, s) > e.clock(s.ticks))
  }

  ghost predicate DueFrom(e: Env, initialSeq: int, sched: nat -> Event, n: nat) {
    exists m: nat :: m >= n && Due(e, At(e, initialSeq, sched, m), sched(m))
  }

  /** Whenever a live task waits, one of the events then due is taken sooner or later. */
  ghost predicate Fair(e: Env, initialSeq: int, sched: nat -> Event) {
    forall n: nat, id: nat :: Waits(At(e, initialSeq, sched, n), id) ==> DueFrom(e, initialSeq, sched, n)
  }

  /** There is such an event. */
  lemma SomethingDue(e: Env, initialSeq: int, evs: seq<Event>, id: nat) returns (ev: Event)
    requires Monotone(e) && e.maxConcurrency > 0 && Waits(Run(e, initialSeq, evs), id)
    ensures Due(e, Run(e, initialSeq, evs), ev)
  {
    hide Productive, Run;
    ev := SomethingProductive(e, initialSeq, evs, id);
  }

  /** Less work, or the same work and the same gates. */
  ghost predicate NoFurther(e: Env, s: State, r: State) {
    Work(r.tasks) < Work(s.tasks)
    || (Work(r.tasks) == Work(s.tasks) && OpenAt(e, r) == OpenAt(e, s) && r.ticks >= s.ticks)
  }

  lemma StepNoFurther(e: Env, s: State, ev: Event)
    requires Monotone(e) && Inv(e, s) && !ev.EnqueueCall?
    ensures NoFurther(e, s, Step(e, s, ev))
    ensures var r := Step(e, s, ev);
      Due(e, s, ev) ==>
        Work(r.tasks) < Work(s.tasks) || (r.ticks > s.ticks && OpenAt(e, s) > e.clock(s.ticks))
  {
    assert Indexed(s);
    hide Inv, Work, Pump;
    StepWorks(e, s, ev);
    if Enabled(s, ev) {
      match ev
      case InvalidateCall(seqNo) => InvalidateNoFurther(e, s, seqNo);
      case WakeFires => EarlyWake(e, s);
      case TimeoutFires(id) => TimeoutNoFurther(e, s, id);
      case _ => ChainCount(e, s, ev);
    }
  }

  lemma InvalidateNoFurther(e: Env, s: State, seqNo: int)
    requires Monotone(e) && Inv(e, s)
    ensures NoFurther(e, s, Invalidate(e, s, seqNo))
  {
    InvalidatedInv(e, s, seqNo);
    InvalidatedWork(e, s, seqNo);
    hide Pump, Inv, Invalidated, Work;
    PumpWork(e, Invalidated(e, s, seqNo));
  }

  lemma TimeoutNoFurther(e: Env, s: State, id: nat)
    requires id < |s.tasks|
    ensures NoFurther(e, s, TimeoutTask(e, s, id))
  {
    SameWork(s.tasks, TimeoutTask(e, s, id).tasks);
    SameWork(TimeoutTask(e, s, id).tasks, s.tasks);
    hide Work;
  }

  /** The steps of a fetch enqueue nothing. */
  lemma ChainCount(e: Env, s: State, ev: Event)
    requires Monotone(e) && Inv(e, s) && IsChain(ev)
    ensures |Step(e, s, ev).tasks| == |s.tasks|
  {
    hide SameCancelled;
    StepSpares(e, s, ev);
    SparedLength(s.tasks, Step(e, s, ev).tasks);
  }

  lemma SparedLength(a: seq<Task>, b: seq<Task>)
    requires SameCancelled(a, b)
    ensures |b| == |a|
  {
  }

  /** Nothing that happens in between brings work back, or closes a gate without taking work away. */
  lemma {:induction false} StretchNoFurther(e: Env, initialSeq: int, sched: nat -> Event, n: nat, m: nat)
    requires Monotone(e) && n <= m && forall i: nat :: n <= i < m ==> !sched(i).EnqueueCall?
    ensures NoFurther(e, At(e, initialSeq, sched, n), At(e, initialSeq, sched, m))
    decreases m
  {
    hide At, Inv, Awake, Step, Work, OpenAt;
    if n < m {
      StretchNoFurther(e, initialSeq, sched, n, m - 1);
      AtStep(e, initialSeq, sched, m - 1);
      StepNoFurther(e, At(e, initialSeq, sched, m - 1), sched(m - 1));
    }
  }

  /**
   * Every waiting task starts, whatever the run: when enqueues have ceased, and while a live task waits one
   * of the events then due is taken sooner or later, the run reaches a state in which no live task waits.
   */
  lemma WaitingEnds(e: Env, initialSeq: int, sched: nat -> Event, quiet: nat) returns (k: nat)
    requires Monotone(e) && e.maxConcurrency > 0 && Unbounded(e)
    requires Fair(e, initialSeq, sched) && forall i: nat :: i >= quiet ==> !sched(i).EnqueueCall?
    ensures k >= quiet && forall id: nat :: !Waits(At(e, initialSeq, sched, k), id)
  {
    k := WaitingEndsFrom(e, initialSeq, sched, quiet, LateReading(e, At(e, initialSeq, sched, quiet)));
  }

  /** A reading of the clock at which every gate is open. */
  ghost function LateReading(e: Env, s: State): (last: nat)
    requires Unbounded(e)
    ensures e.clock(last) >= OpenAt(e, s)
  {
    assert Passes(e, OpenAt(e, s));
    var last: nat :| e.clock(last) >= OpenAt(e, s);
    last
  }

  lemma {:induction false} WaitingEndsFrom(e: Env, initialSeq: int, sched: nat -> Event, n: nat, last: nat)
    returns (k: nat)
    requires Monotone(e) && e.maxConcurrency > 0 && Unbounded(e)
    requires Fair(e, initialSeq, sched) && forall i: nat :: i >= n ==> !sched(i).EnqueueCall?
    requires e.clock(last) >= OpenAt(e, At(e, initialSeq, sched, n))
    ensures k >= n && forall id: nat :: !Waits(At(e, initialSeq, sched, k), id)
    decreases Work(At(e, initialSeq, sched, n).tasks),
      if last > At(e, initialSeq, sched, n).ticks then last - At(e, initialSeq, sched, n).ticks else 0
  {
    hide At, Waits, Due, Work, OpenAt, Unbounded, Step, Inv, Awake;
    var s := At(e, initialSeq, sched, n);
    if id: nat :| Waits(s, id) {
      assert DueFrom(e, initialSeq, sched, n);
      var m: nat :| m >= n && Due(e, At(e, initialSeq, sched, m), sched(m));
      var t := At(e, initialSeq, sched, m);
      StretchNoFurther(e, initialSeq, sched, n, m);
      AtStep(e, initialSeq, sched, m);
      StepNoFurther(e, t, sched(m));
      var r := At(e, initialSeq, sched, m + 1);
      if Work(r.tasks) < Work(s.tasks) {
        k := WaitingEndsFrom(e, initialSeq, sched, m + 1, LateReading(e, r));
      } else {
        ClockBelow(e, t.ticks, last);
        k := WaitingEndsFrom(e, initialSeq, sched, m + 1, last);
      }
    } else {
      k := n;
    }
  }

  lemma ClockBelow(e: Env, i: nat, j: nat)
    requires Monotone(e) && e.clock(i) < e.clock(j)
    ensures i < j
  {
  }
}
