/**
 * What single events of the request scheduler do, told by what happened and not by the log: a 429 keeps
 * everything back, starts are logged when and as they happen, a free light task starts first, a timeout
 * is told at once, and invalidate calls off exactly the other generations.
 */
module SchedulerEvents {
  import opened Wrappers
  import opened RequestScheduler
  import opened SchedulerTheorems
  import opened SchedulerCallbacks

  lemma RunOne(e: Env, initialSeq: int, evs: seq<Event>, ev: Event)
    ensures Run(e, initialSeq, evs + [ev]) == Step(e, Run(e, initialSeq, evs), ev)
  {
    assert (evs + [ev])[..|evs|] == evs;
  }

  lemma RunGrows(e: Env, initialSeq: int, evs: seq<Event>, more: seq<Event>)
    requires Monotone(e)
    ensures Grows(Run(e, initialSeq, evs), Run(e, initialSeq, evs + more))
  {
    assert (evs + more)[..|evs|] == evs;
    LogGrows(e, initialSeq, evs + more, |evs|);
  }

  // ---------------------------------------------------------------- answers

  /** A 429 answered at a reading of the clock raises the cooldown to as long after it as it asks. */
  lemma TooManyTeaches(e: Env, initialSeq: int, evs: seq<Event>, id: nat, ms: nat)
    requires Monotone(e) && Enabled(Run(e, initialSeq, evs), FetchResolves(id, TooMany(ms)))
    ensures var s, r := Run(e, initialSeq, evs), Run(e, initialSeq, evs + [FetchResolves(id, TooMany(ms))]);
      && r.cooldownUntil == Max(s.cooldownUntil, e.clock(s.ticks) + ms)
      && |r.log| == |s.log| + 1 && r.log[|s.log|] == RateLimited(e.clock(s.ticks) + ms)
      && id < |r.tasks| && r.tasks[id].phase == Failing(false)
  {
    hide Run, Step, Enabled;
    RunOne(e, initialSeq, evs, FetchResolves(id, TooMany(ms)));
    Teaches(e, Run(e, initialSeq, evs), id, ms);
  }

  lemma Teaches(e: Env, s: State, id: nat, ms: nat)
    requires Indexed(s) && Enabled(s, FetchResolves(id, TooMany(ms)))
    ensures var r := Step(e, s, FetchResolves(id, TooMany(ms)));
      var until := e.clock(s.ticks) + ms;
      && r.cooldownUntil == Max(s.cooldownUntil, until)
      && id < |r.tasks| && r.tasks[id].phase == Failing(false)
      && |r.log| == |s.log| + 1 && r.log[|s.log|] == RateLimited(until)
  {
  }

  /** And it keeps everything back so long: whatever happens then, the cooldown reaches that far and no start
      is logged for an earlier instant. */
  lemma TooManyHoldsBack(e: Env, initialSeq: int, evs: seq<Event>, id: nat, ms: nat, more: seq<Event>, j: nat)
    requires Monotone(e) && Enabled(Run(e, initialSeq, evs), FetchResolves(id, TooMany(ms)))
    ensures var s := Run(e, initialSeq, evs);
      var later := Run(e, initialSeq, evs + [FetchResolves(id, TooMany(ms))] + more);
      && later.cooldownUntil >= e.clock(s.ticks) + ms
      && (|s.log| <= j < |later.log| && later.log[j].Started? ==> later.log[j].at >= e.clock(s.ticks) + ms)
  {
    hide Run, Step, Enabled, Grows;
    var ev := FetchResolves(id, TooMany(ms));
    TooManyTeaches(e, initialSeq, evs, id, ms);
    RunGrows(e, initialSeq, evs + [ev], more);
    var s := Run(e, initialSeq, evs);
    GrownLog(Run(e, initialSeq, evs + [ev]), Run(e, initialSeq, evs + [ev] + more), |s.log|);
    HeldBack(e, initialSeq, evs + [ev] + more, |s.log|, j, e.clock(s.ticks) + ms);
  }

  lemma GrownLog(s: State, r: State, i: nat)
    requires Grows(s, r) && i < |s.log|
    ensures i < |r.log| && r.log[i] == s.log[i] && s.cooldownUntil <= r.cooldownUntil
  {
  }

  lemma HeldBack(e: Env, initialSeq: int, evs: seq<Event>, i: nat, j: nat, until: nat)
    requires Monotone(e) && i < |Run(e, initialSeq, evs).log|
    requires Run(e, initialSeq, evs).log[i] == RateLimited(until)
    ensures var log := Run(e, initialSeq, evs).log;
      i <= j < |log| && log[j].Started? ==> log[j].at >= until
  {
    hide Run;
    if i < j < |Run(e, initialSeq, evs).log| {
      RunsArePaced(e, initialSeq, evs, i, j);
    }
  }

  /** Any other answer leaves the cooldown alone: a good one goes on to the body, a bad one fails. */
  lemma OtherAnswers(e: Env, initialSeq: int, evs: seq<Event>, id: nat, a: Answer)
    requires Enabled(Run(e, initialSeq, evs), FetchResolves(id, a)) && !a.TooMany?
    ensures var s, r := Run(e, initialSeq, evs), Run(e, initialSeq, evs + [FetchResolves(id, a)]);
      && r == s.(tasks := r.tasks) && |r.tasks| == |s.tasks|
      && r.tasks == s.tasks[id := s.tasks[id].(phase := if a.Good? then Reading else Failing(false))]
  {
    RunOne(e, initialSeq, evs, FetchResolves(id, a));
  }

  // ---------------------------------------------------------------- starts

  /** How often the log says that a task started. */
  function Starts(log: seq<Output>, id: nat): nat {
    if log == [] then 0
    else Starts(log[..|log| - 1], id) + if log[|log| - 1].Started? && log[|log| - 1].id == id then 1 else 0
  }

  lemma StartsAppend(log: seq<Output>, o: Output, id: nat)
    ensures Starts(log + [o], id) == Starts(log, id) + if o.Started? && o.id == id then 1 else 0
  {
    assert (log + [o])[..|log|] == log;
  }

  /** Each task has been logged as started just once if it ever left the queue for a fetch, and is heavy as
      its path says. */
  ghost predicate Sound(log: seq<Output>, t: Task, id: nat) {
    && Starts(log, id) == (if t.phase == Queued then 0 else 1)
    && t.heavy == IsHeavy(t.key.path)
  }

  ghost predicate AllSound(s: State) {
    && (forall id :: 0 <= id < |s.tasks| ==> Sound(s.log, s.tasks[id], id))
    && (forall id: nat :: id >= |s.tasks| ==> Starts(s.log, id) == 0)
  }

  /** A reading of the clock made since the reading numbered lo. */
  predicate Read(e: Env, lo: nat, hi: nat, at: nat) {
    exists k :: lo <= k < hi && e.clock(k) == at
  }

  lemma ReadLater(e: Env, lo: nat, hi: nat, later: nat, at: nat)
    requires Read(e, lo, hi, at) && hi <= later
    ensures Read(e, lo, later, at)
  {
  }

  /** The new starts bear the instant at which they happened, and the weight of their path. */
  ghost predicate Honest(e: Env, lo: nat, s: State, r: State) {
    && s.log <= r.log && s.ticks <= r.ticks && |r.tasks| >= |s.tasks|
    && forall j :: |s.log| <= j < |r.log| && r.log[j].Started? ==>
         && r.log[j].id < |r.tasks| && r.log[j].heavy == IsHeavy(r.tasks[r.log[j].id].key.path)
         && Read(e, lo, r.ticks, r.log[j].at)
  }

  ghost predicate SameKeys(s: State, r: State) {
    |r.tasks| >= |s.tasks| && forall id :: 0 <= id < |s.tasks| ==> r.tasks[id].key == s.tasks[id].key
  }

  lemma HonestThen(e: Env, lo: nat, a: State, b: State, c: State)
    requires Honest(e, lo, a, b) && Honest(e, lo, b, c) && SameKeys(b, c)
    ensures Honest(e, lo, a, c)
  {
    forall j | |a.log| <= j < |c.log| && c.log[j].Started?
      ensures c.log[j].id < |c.tasks| && c.log[j].heavy == IsHeavy(c.tasks[c.log[j].id].key.path)
      ensures Read(e, lo, c.ticks, c.log[j].at)
    {
      if j < |b.log| {
        assert c.log[j] == b.log[j];
        ReadLater(e, lo, b.ticks, c.ticks, b.log[j].at);
      }
    }
  }

  /** A step that logs no start, and moves no task into or out of the queue's phase. */
  lemma QuietSound(s: State, r: State)
    requires AllSound(s) && |r.tasks| == |s.tasks|
    requires r.log == s.log || exists o :: r.log == s.log + [o] && !o.Started?
    requires forall id :: 0 <= id < |s.tasks| ==>
      && (r.tasks[id].phase == Queued <==> s.tasks[id].phase == Queued)
      && r.tasks[id].heavy == s.tasks[id].heavy && r.tasks[id].key == s.tasks[id].key
    ensures AllSound(r)
  {
    if r.log != s.log {
      var o :| r.log == s.log + [o] && !o.Started?;
      forall id: nat ensures Starts(r.log, id) == Starts(s.log, id) { StartsAppend(s.log, o, id); }
    }
    forall id | 0 <= id < |r.tasks| ensures Sound(r.log, r.tasks[id], id) { assert Sound(s.log, s.tasks[id], id); }
  }

  lemma QuietHonest(e: Env, lo: nat, s: State, r: State)
    requires |r.tasks| >= |s.tasks| && r.ticks >= s.ticks
    requires r.log == s.log || exists o :: r.log == s.log + [o] && !o.Started?
    ensures Honest(e, lo, s, r)
  {
  }

  lemma LaunchSound(e: Env, s: State, sel: nat, now: nat, lo: nat)
    requires AllSound(s) && sel < |s.queue| && s.queue[sel] < |s.tasks| && s.tasks[s.queue[sel]].phase == Queued
    requires lo <= s.ticks && Read(e, lo, s.ticks, now)
    ensures var r := Launch(e, Taken(s, sel), s.queue[sel], now);
      AllSound(r) && Honest(e, lo, s, r) && SameKeys(s, r)
  {
    var id := s.queue[sel];
    var r := Launch(e, Taken(s, sel), id, now);
    var o := r.log[|s.log|];
    assert r.log == s.log + [o] && o.Started? && o.id == id && o.heavy == s.tasks[id].heavy;
    assert Sound(s.log, s.tasks[id], id);
    forall k: nat ensures Starts(r.log, k) == Starts(s.log, k) + if k == id then 1 else 0 {
      StartsAppend(s.log, o, k);
    }
    forall k | 0 <= k < |r.tasks| ensures Sound(r.log, r.tasks[k], k) { assert Sound(s.log, s.tasks[k], k); }
    if s.tasks[id].heavy {
      assert e.clock(s.ticks) == o.at && lo <= s.ticks < r.ticks;
    } else {
      ReadLater(e, lo, s.ticks, r.ticks, now);
    }
  }

  /** The catch step and the release of a fetch that throws at once log no start. */
  lemma ThrowSound(e: Env, s: State, id: nat, abort: bool, lo: nat)
    requires AllSound(s) && id < |s.tasks| && s.tasks[id].phase == Fetching && Indexed(s)
    ensures var r := Release(CatchError(SetPhase(s, id, Failing(abort)), id), id);
      AllSound(r) && Honest(e, lo, s, r) && SameKeys(s, r)
  {
    var s1 := SetPhase(s, id, Failing(abort));
    CatchShape(s1, id);
    var s2 := CatchError(s1, id);
    hide CatchError, Starts;
    var r := Release(s2, id);
    QuietSound(s, r);
    QuietHonest(e, lo, s, r);
  }

  lemma {:induction false} StartSound(e: Env, s: State, sel: nat, now: nat, lo: nat)
    requires Monotone(e) && Inv(e, s) && AllSound(s) && sel < |s.queue| && s.activeCount < e.maxConcurrency
    requires !Blocked(e, s, s.tasks[s.queue[sel]], now)
    requires forall j :: 0 <= j < sel ==> Blocked(e, s, s.tasks[s.queue[j]], now)
    requires s.cooldownUntil <= now <= e.clock(s.ticks)
    requires Indexed(Taken(s, sel)) && lo <= s.ticks && Read(e, lo, s.ticks, now)
    ensures var r := StartTask(e, Taken(s, sel), s.queue[sel], now);
      AllSound(r) && Honest(e, lo, s, r) && SameKeys(s, r)
    decreases |s.queue|, 0, 0
  {
    var id := s.queue[sel];
    assert Registered(s, id);
    LaunchSound(e, s, sel, now, lo);
    if e.fetchThrows(id).Some? {
      ThrownStartFacts(e, s, sel, now);
      ThrownStartInv(e, s, sel, now);
      ThrowSound(e, Launch(e, Taken(s, sel), id, now), id, e.fetchThrows(id).value, lo);
      hide Inv, Pump, AllSound, Honest, SameKeys, StartTask;
      PumpSound(e, ThrownStart(e, s, sel, now), lo);
      SoundThen(e, lo, s, Launch(e, Taken(s, sel), id, now), ThrownStart(e, s, sel, now));
      SoundThen(e, lo, s, ThrownStart(e, s, sel, now), Pump(e, ThrownStart(e, s, sel, now)));
    }
  }

  lemma SoundThen(e: Env, lo: nat, a: State, b: State, c: State)
    requires Honest(e, lo, a, b) && Honest(e, lo, b, c) && SameKeys(a, b) && SameKeys(b, c)
    ensures Honest(e, lo, a, c) && SameKeys(a, c)
  {
    HonestThen(e, lo, a, b, c);
    KeysThen(a, b, c);
  }

  lemma KeysThen(a: State, b: State, c: State)
    requires SameKeys(a, b) && SameKeys(b, c)
    ensures SameKeys(a, c)
  {
  }

  lemma {:induction false} PumpSound(e: Env, s: State, lo: nat)
    requires Monotone(e) && Inv(e, s) && AllSound(s) && lo <= s.ticks
    ensures var r := Pump(e, s); AllSound(r) && Honest(e, lo, s, r) && SameKeys(s, r)
    decreases |s.queue|, 2
  {
    var u, now := PumpOpens(e, s);
    TickInv(e, s, u);
    QuietSound(s, u);
    QuietHonest(e, lo, s, u);
    if now < u.cooldownUntil {
      var r := ScheduleWake(u, u.cooldownUntil);
      QuietSound(s, r);
      QuietHonest(e, lo, s, r);
    } else {
      assert Read(e, lo, u.ticks, now);
      LoopSound(e, u, now, lo);
      hide PumpLoop, Inv;
      HonestThen(e, lo, s, u, PumpLoop(e, u, now));
    }
  }

  lemma {:induction false} LoopSound(e: Env, s: State, now: nat, lo: nat)
    requires Monotone(e) && Inv(e, s) && AllSound(s) && s.cooldownUntil <= now <= e.clock(s.ticks)
    requires lo <= s.ticks && Read(e, lo, s.ticks, now)
    ensures var r := PumpLoop(e, s, now); AllSound(r) && Honest(e, lo, s, r) && SameKeys(s, r)
    decreases |s.queue|, 1
  {
    if s.activeCount < e.maxConcurrency {
      ScanFinds(e, s, 0, 0, now);
      if Scan(e, s, 0, 0, now).1 >= 0 {
        var t, later := TurnSound(e, s, now, lo);
        LoopSound(e, t, later, lo);
        hide PumpLoop, Inv, AllSound, Honest, SameKeys;
        HonestThen(e, lo, s, t, PumpLoop(e, t, later));
        KeysThen(s, t, PumpLoop(e, t, later));
      } else {
        IdleSound(e, s, now, lo);
      }
    } else {
      QuietHonest(e, lo, s, s);
    }
  }

  lemma IdleSound(e: Env, s: State, now: nat, lo: nat)
    requires Monotone(e) && Inv(e, s) && AllSound(s) && s.activeCount < e.maxConcurrency
    requires Scan(e, s, 0, 0, now).1 == -1
    ensures var r := PumpLoop(e, s, now); AllSound(r) && Honest(e, lo, s, r) && SameKeys(s, r)
  {
    ScanFinds(e, s, 0, 0, now);
    var r := PumpLoop(e, s, now);
    assert r == s.(ticks := r.ticks, wake := r.wake) && r.ticks >= s.ticks;
    hide PumpLoop;
    QuietSound(s, r);
    QuietHonest(e, lo, s, r);
  }

  lemma {:induction false} TurnSound(e: Env, s: State, now: nat, lo: nat) returns (t: State, later: nat)
    requires Monotone(e) && Inv(e, s) && AllSound(s) && s.activeCount < e.maxConcurrency
    requires s.cooldownUntil <= now <= e.clock(s.ticks)
    requires Scan(e, s, 0, 0, now).1 >= 0 && lo <= s.ticks && Read(e, lo, s.ticks, now)
    ensures Inv(e, t) && |t.queue| < |s.queue| && t.cooldownUntil <= later <= e.clock(t.ticks)
    ensures PumpLoop(e, s, now) == PumpLoop(e, t, later)
    ensures AllSound(t) && Honest(e, lo, s, t) && SameKeys(s, t)
    ensures lo <= t.ticks && Read(e, lo, t.ticks, later)
    decreases |s.queue|, 0, 1
  {
    ScanFinds(e, s, 0, 0, now);
    t, later := PumpTurn(e, s, now);
    var sel := Scan(e, s, 0, 0, now).1;
    StartSound(e, s, sel, now, lo);
    var r := StartTask(e, Taken(s, sel), s.queue[sel], now);
    hide StartTask, PumpLoop, Scan;
    assert e.clock(t.ticks - 1) == later && lo <= t.ticks - 1 < t.ticks;
    EndOfTurn(e, lo, s, r, t);
  }

  /** Only the tick counter moves between the start and the next turn. */
  lemma EndOfTurn(e: Env, lo: nat, s: State, r: State, t: State)
    requires AllSound(r) && Honest(e, lo, s, r) && SameKeys(s, r)
    requires t.tasks == r.tasks && t.log == r.log && t.ticks >= r.ticks
    ensures AllSound(t) && Honest(e, lo, s, t) && SameKeys(s, t)
  {
    forall id | 0 <= id < |t.tasks| ensures Sound(t.log, t.tasks[id], id) { assert Sound(r.log, r.tasks[id], id); }
    forall j | |s.log| <= j < |t.log| && t.log[j].Started? ensures Read(e, lo, t.ticks, t.log[j].at) {
      ReadLater(e, lo, r.ticks, t.ticks, r.log[j].at);
    }
  }

  lemma StepSound(e: Env, s: State, ev: Event)
    requires Monotone(e) && Inv(e, s) && AllSound(s)
    ensures AllSound(Step(e, s, ev)) && Honest(e, s.ticks, s, Step(e, s, ev))
  {
    assert Indexed(s);
    hide Inv, AllSound, Honest;
    if !Enabled(s, ev) {
      QuietHonest(e, s.ticks, s, s);
    } else {
      match ev
      case EnqueueCall(seqNo, path, cb, errCb) => EnqueueSound(e, s, seqNo, path, cb, errCb);
      case InvalidateCall(seqNo) => InvalidateSound(e, s, seqNo);
      case WakeFires =>
        TickInv(e, s, s.(wake := None));
        PumpSoundFrom(e, s, s.(wake := None));
      case Settles(id) =>
        ReleaseInv(e, s, id);
        PumpSoundFrom(e, s, Release(s, id));
      case TimeoutFires(id) => TimeoutSound(e, s, id);
      case _ => ChainSound(e, s, ev);
    }
  }

  /** A pump after a change that logs nothing and moves no task into or out of the queue's phase. */
  lemma PumpSoundFrom(e: Env, s: State, t: State)
    requires Monotone(e) && Inv(e, t) && AllSound(s) && |t.tasks| == |s.tasks| && t.log == s.log && t.ticks == s.ticks
    requires forall id :: 0 <= id < |s.tasks| ==>
      && (t.tasks[id].phase == Queued <==> s.tasks[id].phase == Queued)
      && t.tasks[id].heavy == s.tasks[id].heavy && t.tasks[id].key == s.tasks[id].key
    ensures AllSound(Pump(e, t)) && Honest(e, s.ticks, s, Pump(e, t))
  {
    QuietSound(s, t);
    QuietHonest(e, s.ticks, s, t);
    hide Inv, AllSound, Honest, Pump;
    PumpSound(e, t, s.ticks);
    HonestThen(e, s.ticks, s, t, Pump(e, t));
  }

  lemma InvalidateSound(e: Env, s: State, seqNo: int)
    requires Monotone(e) && Inv(e, s) && AllSound(s)
    ensures AllSound(Invalidate(e, s, seqNo)) && Honest(e, s.ticks, s, Invalidate(e, s, seqNo))
  {
    InvalidatedInv(e, s, seqNo);
    PumpSoundFrom(e, s, Invalidated(e, s, seqNo));
  }

  lemma EnqueueSound(e: Env, s: State, seqNo: int, path: string, cb: Option<nat>, errCb: Option<nat>)
    requires Monotone(e) && Inv(e, s) && AllSound(s)
    ensures var r := Enqueue(e, s, seqNo, path, cb, errCb).0; AllSound(r) && Honest(e, s.ticks, s, r)
  {
    var key := Key(seqNo, path);
    if seqNo == s.currentSeq && key !in s.table {
      AddedInv(e, s, key, cb, errCb);
      AddedSound(e, s, key, cb, errCb);
      hide Inv, AllSound, Honest, Pump, Added;
      PumpSound(e, Added(s, key, cb, errCb), s.ticks);
      HonestThen(e, s.ticks, s, Added(s, key, cb, errCb), Pump(e, Added(s, key, cb, errCb)));
    } else {
      var r := Enqueue(e, s, seqNo, path, cb, errCb).0;
      assert Indexed(s) && r == s.(tasks := r.tasks);
      QuietSound(s, r);
      QuietHonest(e, s.ticks, s, r);
    }
  }

  lemma AddedSound(e: Env, s: State, key: Key, cb: Option<nat>, errCb: Option<nat>)
    requires AllSound(s)
    ensures var r := Added(s, key, cb, errCb); AllSound(r) && Honest(e, s.ticks, s, r) && r.ticks == s.ticks
  {
    var r := Added(s, key, cb, errCb);
    forall id | 0 <= id < |r.tasks| ensures Sound(r.log, r.tasks[id], id) {
      if id < |s.tasks| { assert Sound(s.log, s.tasks[id], id); }
    }
  }

  lemma TimeoutSound(e: Env, s: State, id: nat)
    requires AllSound(s) && Indexed(s) && id < |s.tasks| && Enabled(s, TimeoutFires(id)) && Inv(e, s)
    ensures AllSound(TimeoutTask(e, s, id)) && Honest(e, s.ticks, s, TimeoutTask(e, s, id))
  {
    assert Registered(s, id);
    TimeoutShape(e, s, id);
    var r := TimeoutTask(e, s, id);
    hide TimeoutTask, Inv;
    QuietSound(s, r);
    QuietHonest(e, s.ticks, s, r);
  }

  lemma ChainSound(e: Env, s: State, ev: Event)
    requires AllSound(s) && Indexed(s) && Enabled(s, ev)
    requires ev.FetchResolves? || ev.FetchRejects? || ev.BodyResolves? || ev.BodyRejects? || ev.Catches?
    ensures AllSound(Step(e, s, ev)) && Honest(e, s.ticks, s, Step(e, s, ev))
  {
    ChainShape(e, s, ev);
    var r := Step(e, s, ev);
    hide Step;
    QuietSound(s, r);
    QuietHonest(e, s.ticks, s, r);
  }

  /** A step of a fetch logs at most one thing, which is no start, and leaves keys, weights and the queue. */
  lemma ChainShape(e: Env, s: State, ev: Event)
    requires Indexed(s) && Enabled(s, ev)
    requires ev.FetchResolves? || ev.FetchRejects? || ev.BodyResolves? || ev.BodyRejects? || ev.Catches?
    ensures var r := Step(e, s, ev);
      && |r.tasks| == |s.tasks| && r.ticks >= s.ticks
      && (r.log == s.log || exists o :: r.log == s.log + [o] && !o.Started?)
      && forall id :: 0 <= id < |s.tasks| ==>
           && (r.tasks[id].phase == Queued <==> s.tasks[id].phase == Queued)
           && r.tasks[id].heavy == s.tasks[id].heavy && r.tasks[id].key == s.tasks[id].key
  {
    hide DeliverBody, CatchError;
    match ev
    case BodyResolves(id, o) => BodyShape(s, id, o);
    case Catches(id) => CatchShape(s, id);
    case FetchResolves(id, a) =>
      assert a.TooMany? ==> Step(e, s, ev).log == s.log + [RateLimited(e.clock(s.ticks) + a.retryAfterMs)];
    case _ =>
  }

  lemma {:induction false} RunSound(e: Env, initialSeq: int, evs: seq<Event>)
    requires Monotone(e)
    ensures AllSound(Run(e, initialSeq, evs))
  {
    if evs != [] {
      var n := |evs| - 1;
      RunSound(e, initialSeq, evs[..n]);
      RunInv(e, initialSeq, evs[..n]);
      hide Inv, AllSound, Step;
      StepSound(e, Run(e, initialSeq, evs[..n]), evs[n]);
    }
  }

  /**
   * What the log says of starts is so. In every run a task was logged as started just once if it left the
   * queue for a fetch, and not at all while it waits; each entry an event adds bears the weight of the
   * task's path and a reading of the clock made during that event.
   */
  lemma StartsAreReal(e: Env, initialSeq: int, evs: seq<Event>, ev: Event)
    requires Monotone(e)
    ensures var s, r := Run(e, initialSeq, evs), Run(e, initialSeq, evs + [ev]);
      && (forall id :: 0 <= id < |r.tasks| ==>
            && Starts(r.log, id) == (if r.tasks[id].phase == Queued then 0 else 1)
            && r.tasks[id].heavy == IsHeavy(r.tasks[id].key.path))
      && s.log <= r.log
      && forall j :: |s.log| <= j < |r.log| && r.log[j].Started? ==>
           && r.log[j].id < |r.tasks| && r.log[j].heavy == r.tasks[r.log[j].id].heavy
           && exists k :: s.ticks <= k < r.ticks && e.clock(k) == r.log[j].at
  {
    RunOne(e, initialSeq, evs, ev);
    RunSound(e, initialSeq, evs);
    RunInv(e, initialSeq, evs);
    var s := Run(e, initialSeq, evs);
    hide Run, Inv, Step;
    StepSound(e, s, ev);
    var r := Step(e, s, ev);
    forall id | 0 <= id < |r.tasks| ensures Sound(r.log, r.tasks[id], id) { }
    forall j | |s.log| <= j < |r.log| && r.log[j].Started? ensures Read(e, s.ticks, r.ticks, r.log[j].at) { }
  }

  // ---------------------------------------------------------------- which task starts

  /** A heavy task waits for the gap after the last heavy start; a light one waits for no gap. */
  predicate FreeAt(e: Env, s: State, t: Task, now: nat) {
    t.heavy && s.lastHeavyStartAt.Some? ==> s.lastHeavyStartAt.value + e.heavyGapMs <= now
  }

  lemma LoopStartsFirstFree(e: Env, s: State, now: nat, i: nat)
    requires Monotone(e) && Inv(e, s) && i < |s.queue| && s.activeCount < e.maxConcurrency
    requires s.cooldownUntil <= now <= e.clock(s.ticks)
    requires FreeAt(e, s, s.tasks[s.queue[i]], now)
    requires forall j :: 0 <= j < i ==> !FreeAt(e, s, s.tasks[s.queue[j]], now)
    ensures var r := PumpLoop(e, s, now);
      |s.log| < |r.log| && r.log[|s.log|].Started? && r.log[|s.log|].id == s.queue[i]
  {
    FirstFreeFound(e, s, now, i);
    hide Inv, Scan, FreeAt, PumpLoop, StartTask;
    var t, later := PumpTurn(e, s, now);
    PumpLoopInv(e, t, later);
    assert t.log <= PumpLoop(e, t, later).log;
  }

  lemma FirstFreeFound(e: Env, s: State, now: nat, i: nat)
    requires Consistent(e, s) && i < |s.queue| && FreeAt(e, s, s.tasks[s.queue[i]], now)
    requires forall j :: 0 <= j < i ==> !FreeAt(e, s, s.tasks[s.queue[j]], now)
    ensures Scan(e, s, 0, 0, now).1 == i
  {
    ScanFinds(e, s, 0, 0, now);
    hide Scan, Consistent;
    assert forall j :: 0 <= j < |s.queue| && s.queue[j] < |s.tasks| ==>
      (Blocked(e, s, s.tasks[s.queue[j]], now) <==> !FreeAt(e, s, s.tasks[s.queue[j]], now));
  }

  /** The wake timer, with a slot free and the cooldown over, starts the first queued task that is free:
      a light task overtakes heavy ones that wait for their gap. */
  lemma FirstFreeStarts(e: Env, initialSeq: int, evs: seq<Event>, i: nat)
    requires Monotone(e)
    requires var s := Run(e, initialSeq, evs);
      && Enabled(s, WakeFires) && s.activeCount < e.maxConcurrency && s.cooldownUntil <= e.clock(s.ticks)
      && i < |s.queue| && s.queue[i] < |s.tasks| && FreeAt(e, s, s.tasks[s.queue[i]], e.clock(s.ticks))
      && forall j :: 0 <= j < i && s.queue[j] < |s.tasks| ==> !FreeAt(e, s, s.tasks[s.queue[j]], e.clock(s.ticks))
    ensures var s, r := Run(e, initialSeq, evs), Run(e, initialSeq, evs + [WakeFires]);
      |s.log| < |r.log| && r.log[|s.log|].Started? && r.log[|s.log|].id == s.queue[i]
  {
    var s := Run(e, initialSeq, evs);
    RunInv(e, initialSeq, evs);
    RunOne(e, initialSeq, evs, WakeFires);
    var t := s.(wake := None);
    TickInv(e, s, t);
    hide Run, Pump, PumpLoop, Scan;
    var u, now := OpeningInv(e, t);
    assert forall k :: 0 <= k < |s.queue| ==> s.queue[k] < |s.tasks|;
    LoopStartsFirstFree(e, u, now, i);
  }

  // ---------------------------------------------------------------- timeouts and generations

  /** A timeout is told at once, with the error callback of the moment; the fetch is told to abort, and the
      task keeps its slot. A task called off, timed out or released before is left alone. */
  lemma TimeoutTells(e: Env, initialSeq: int, evs: seq<Event>, id: nat)
    requires Monotone(e) && Enabled(Run(e, initialSeq, evs), TimeoutFires(id))
    ensures var s, r := Run(e, initialSeq, evs), Run(e, initialSeq, evs + [TimeoutFires(id)]);
      var t := s.tasks[id];
      if t.cancelled || t.timedOut || t.phase == Released then r == s
      else
        && |r.tasks| == |s.tasks| && r.tasks[id].timedOut && r.tasks[id].phase == t.phase
        && r.activeCount == s.activeCount && r.queue == s.queue
        && (e.hasAbort ==> r.tasks[id].aborted)
        && (!t.failureNotified ==> r.log == s.log + if t.errCb.Some? then [Failed(id, t.errCb.value)] else [])
  {
    RunOne(e, initialSeq, evs, TimeoutFires(id));
    RunInv(e, initialSeq, evs);
    var s := Run(e, initialSeq, evs);
    assert Registered(s, id);
    hide Run, Inv;
    TimeoutNotice(e, s, id);
  }

  lemma TimeoutNotice(e: Env, s: State, id: nat)
    requires id < |s.tasks| && Registered(s, id)
    requires forall k :: k in s.table ==> k.seqNo == s.currentSeq
    requires s.tasks[id].phase == Queued ==> !s.tasks[id].timer
    ensures var r, t := TimeoutTask(e, s, id), s.tasks[id];
      if t.cancelled || t.timedOut || t.phase == Released then r == s
      else
        && |r.tasks| == |s.tasks| && r.tasks[id].timedOut && r.tasks[id].phase == t.phase
        && r.activeCount == s.activeCount && r.queue == s.queue
        && (e.hasAbort && t.phase != Queued ==> r.tasks[id].aborted)
        && (!t.failureNotified ==> r.log == s.log + if t.errCb.Some? then [Failed(id, t.errCb.value)] else [])
  {
    var t := s.tasks[id];
    assert s.log + [] == s.log;
  }

  /** Invalidate calls off exactly the live tasks of other generations: they lose their callbacks and their
      place in the queue, and a fetch under way is told to abort; any other task is left to the pump. */
  lemma InvalidateExactly(e: Env, initialSeq: int, evs: seq<Event>, seqNo: int, id: nat)
    requires Monotone(e) && id < |Run(e, initialSeq, evs).tasks|
    ensures var s, r := Run(e, initialSeq, evs), Run(e, initialSeq, evs + [InvalidateCall(seqNo)]);
      && r.currentSeq == seqNo && id < |r.tasks|
      && var t, u := s.tasks[id], r.tasks[id];
         if Live(t) && t.key.seqNo != seqNo then
           && u == t.(cancelled := true, cb := None, errCb := None,
                      aborted := t.aborted || (e.hasAbort && t.phase != Queued))
           && id !in r.queue
         else
           u.cancelled == t.cancelled && (u == t || (t.phase == Queued && Live(t) && u.phase != Queued))
  {
    RunOne(e, initialSeq, evs, InvalidateCall(seqNo));
    RunInv(e, initialSeq, evs);
    var s := Run(e, initialSeq, evs);
    hide Run;
    InvalidatedInv(e, s, seqNo);
    var m := Invalidated(e, s, seqNo);
    CancelledExactly(e, s, seqNo, id);
    hide Invalidated, Pump;
    PumpEvolves(e, m);
    PumpInv(e, m);
    assert Evolved(e, m, Pump(e, m), id);
  }

  lemma CancelledExactly(e: Env, s: State, seqNo: int, id: nat)
    requires Inv(e, s) && id < |s.tasks|
    ensures var m, t := Invalidated(e, s, seqNo), s.tasks[id];
      && m.currentSeq == seqNo && |m.tasks| == |s.tasks|
      && m.tasks[id] == if Live(t) && t.key.seqNo != seqNo then
           t.(cancelled := true, cb := None, errCb := None, aborted := t.aborted || (e.hasAbort && t.phase != Queued))
         else t
  {
    assert Registered(s, id);
    if id in s.table.Values {
      var k :| k in s.table && s.table[k] == id;
    }
  }

  // ---------------------------------------------------------------- which paths are heavy

  lemma {:induction false} BeforeQueryStops(p: string, rest: string)
    requires '?' !in p
    ensures BeforeQuery(p) == p && BeforeQuery(p + "?" + rest) == p
  {
    var whole := p + "?" + rest;
    if p != [] {
      BeforeQueryStops(p[1..], rest);
      assert whole[1..] == p[1..] + "?" + rest && whole[0] == p[0];
    } else {
      assert whole[0] == '?';
    }
  }

  /** Whatever its query, a path is heavy exactly when it is one of the listed ones. */
  lemma QueryIsIgnored(p: string, rest: string)
    requires '?' !in p
    ensures IsHeavy(p) <==> p in HEAVY_PATHS
    ensures IsHeavy(p + "?" + rest) <==> p in HEAVY_PATHS
  {
    BeforeQueryStops(p, rest);
  }
}
