/** Which callbacks of a task run: those of its latest round, and how many of them. */
module SchedulerCallbacks {
  import opened Wrappers
  import opened RequestScheduler
  import opened SchedulerTheorems
  import opened SchedulerDelivery

  // ---------------------------------------------------------------- one step, seen from one task

  /** The outputs of a failure notice about a task. */
  function NoticeSays(s: State, t: Task, id: nat, abort: bool): seq<Output> {
    if Stale(s, t) || t.failureNotified || (abort && !t.timedOut) || t.errCb.None? then []
    else [Failed(id, t.errCb.value)]
  }

  /** The callbacks an event that does not pump runs for a task. */
  function Says(s: State, ev: Event, id: nat): seq<Output>
    requires id < |s.tasks|
  {
    var t := s.tasks[id];
    match ev
    case TimeoutFires(k) =>
      if k != id || t.phase == Released || t.cancelled || t.timedOut then [] else NoticeSays(s, t, id, false)
    case BodyResolves(k, o) =>
      if k != id || t.timedOut || Stale(s, t) || t.cb.None? then [] else [Succeeded(id, t.cb.value, o.Throws?)]
    case Catches(k) => if k != id || !t.phase.Failing? then [] else NoticeSays(s, t, id, t.phase.abort)
    case _ => []
  }

  predicate InPlace(ev: Event) { !ev.EnqueueCall? && !ev.InvalidateCall? && !ev.WakeFires? && !ev.Settles? }

  lemma TellsOne(log: seq<Output>, o: Output, id: nat)
    ensures Told(log + [o], id) == Told(log, id) + if (o.Succeeded? || o.Failed?) && o.id == id then [o] else []
  {
    CountAppend(log, o, id);
  }

  lemma NoticeTells(s: State, k: nat, abort: bool, id: nat)
    requires k < |s.tasks| && id < |s.tasks|
    ensures var r := NotifyFailure(s, k, abort);
      Told(r.log, id) == Told(s.log, id) + if k == id then NoticeSays(s, s.tasks[k], k, abort) else []
  {
    var r := NotifyFailure(s, k, abort);
    var said := NoticeSays(s, s.tasks[k], k, abort);
    assert s.log + [] == s.log;
    if said != [] {
      assert r.log == s.log + [Failed(k, s.tasks[k].errCb.value)];
      TellsOne(s.log, Failed(k, s.tasks[k].errCb.value), id);
    }
  }

  lemma TimeoutTells(e: Env, s: State, k: nat, id: nat)
    requires Indexed(s) && Enabled(s, TimeoutFires(k)) && id < |s.tasks|
    ensures Told(TimeoutTask(e, s, k).log, id) == Told(s.log, id) + Says(s, TimeoutFires(k), id)
  {
    var t := s.tasks[k];
    if t.phase == Released || t.cancelled || t.timedOut {
    } else {
      NoticeTells(s.(tasks := s.tasks[k := t.(timedOut := true)]), k, false, id);
    }
  }

  /** What an event that does not pump runs is what it says, for every task. */
  lemma InPlaceTells(e: Env, s: State, ev: Event, id: nat)
    requires Indexed(s) && Enabled(s, ev) && id < |s.tasks| && InPlace(ev)
    ensures Told(Step(e, s, ev).log, id) == Told(s.log, id) + Says(s, ev, id)
  {
    match ev
    case TimeoutFires(k) => TimeoutTells(e, s, k, id);
    case FetchResolves(k, a) => if a.TooMany? { TellsOne(s.log, Respond(e, s, k, a).log[|s.log|], id); }
    case FetchRejects(k, abort) =>
    case BodyResolves(k, o) =>
      var r := DeliverBody(s, k, o);
      if r.log != s.log { TellsOne(s.log, r.log[|s.log|], id); }
    case BodyRejects(k, abort) =>
    case Catches(k) => NoticeTells(s, k, s.tasks[k].phase.abort, id);
  }

  // ---------------------------------------------------------------- the course of a task

  predicate OneFailed(told: seq<Output>) { |told| == 1 && told[0].Failed? }

  predicate OneThrown(told: seq<Output>) { |told| == 1 && told[0].Succeeded? && told[0].threw }

  /** One success, one failure, or a success that threw and the failure after it. */
  predicate Complete(told: seq<Output>) {
    || OneFailed(told)
    || (|told| == 1 && told[0].Succeeded? && !told[0].threw)
    || (|told| == 2 && told[0].Succeeded? && told[0].threw && told[1].Failed?)
  }

  /** In polite runs: what a task not called off has been told, by where it stands. */
  predicate Course(t: Task, told: seq<Output>) {
    !t.cancelled ==>
      match t.phase
      case Queued => told == [] && !t.timedOut && !t.failureNotified
      case Closing => Complete(told)
      case Released => Complete(told)
      case _ =>
        && t.failureNotified == t.timedOut
        && if t.timedOut then OneFailed(told) else told == [] || (t.phase.Failing? && OneThrown(told))
  }

  ghost predicate AllCourse(s: State) {
    forall id :: 0 <= id < |s.tasks| ==> Course(s.tasks[id], Told(s.log, id))
  }

  lemma PumpCourse(e: Env, s: State)
    requires Monotone(e) && PoliteEnv(e) && Inv(e, s) && AllAnswered(s) && AllCourse(s)
    ensures AllCourse(Pump(e, s))
  {
    PumpEvolves(e, s);
    var r := Pump(e, s);
    forall id | 0 <= id < |r.tasks| ensures Course(r.tasks[id], Told(r.log, id)) {
      assert Evolved(e, s, r, id) && Course(s.tasks[id], Told(s.log, id)) && Answered(s.log, s.tasks[id], id);
      assert e.fetchThrows(id) != Some(true);
    }
  }

  /** What an event that does not pump makes of a task record. */
  function Becomes(e: Env, s: State, ev: Event, id: nat): Task
    requires id < |s.tasks|
  {
    var t := s.tasks[id];
    match ev
    case TimeoutFires(k) =>
      if k != id || t.phase == Released || t.cancelled || t.timedOut then t
      else t.(timedOut := true, failureNotified := t.failureNotified || !Stale(s, t),
              aborted := t.aborted || (e.hasAbort && t.phase != Queued))
    case FetchResolves(k, a) => if k != id then t else t.(phase := if a.Good? then Reading else Failing(false))
    case FetchRejects(k, abort) => if k != id then t else t.(phase := Failing(abort))
    case BodyResolves(k, o) =>
      if k != id then t
      else if t.timedOut || Stale(s, t) || t.cb.None? || !o.Throws? then t.(phase := Closing)
      else t.(phase := Failing(o.abort))
    case BodyRejects(k, abort) => if k != id then t else t.(phase := Failing(abort))
    case Catches(k) =>
      if k != id || !t.phase.Failing? then t
      else t.(phase := Closing,
              failureNotified := t.failureNotified || !(Stale(s, t) || (t.phase.abort && !t.timedOut)))
    case _ => t
  }

  lemma InPlaceBecomes(e: Env, s: State, ev: Event, id: nat)
    requires Indexed(s) && Enabled(s, ev) && id < |s.tasks| && InPlace(ev)
    ensures var r := Step(e, s, ev); |r.tasks| == |s.tasks| && r.tasks[id] == Becomes(e, s, ev, id)
  {
    match ev
    case TimeoutFires(k) => hide Respond, DeliverBody, CatchError;
    case FetchResolves(k, a) => hide TimeoutTask, DeliverBody, CatchError;
    case BodyResolves(k, o) => hide TimeoutTask, Respond, CatchError;
    case Catches(k) => hide TimeoutTask, Respond, DeliverBody;
    case FetchRejects(k, abort) => hide TimeoutTask, Respond, DeliverBody, CatchError;
    case BodyRejects(k, abort) => hide TimeoutTask, Respond, DeliverBody, CatchError;
  }

  /** The course of one task is kept; `told` is what it has been told so far. */
  lemma BecomesCourse(e: Env, s: State, ev: Event, id: nat, told: seq<Output>)
    requires id < |s.tasks| && Enabled(s, ev) && InPlace(ev) && Course(s.tasks[id], told)
    requires var t := s.tasks[id];
      !t.cancelled ==>
        && (t.phase != Released ==> !Stale(s, t) && t.cb.Some? && t.errCb.Some?)
        && (t.phase.Failing? && t.phase.abort ==> t.timedOut)
        && (t.phase == Queued ==> !t.timer)
    requires ev == FetchRejects(id, true) || ev == BodyRejects(id, true) ==>
      s.tasks[id].cancelled || s.tasks[id].timedOut
    requires ev != BodyResolves(id, Throws(true))
    ensures Course(Becomes(e, s, ev, id), told + Says(s, ev, id))
  {
    assert told + [] == told;
  }

  lemma InPlaceCourse(e: Env, s: State, ev: Event, id: nat)
    requires Inv(e, s) && AllAnswered(s) && AllCourse(s) && Enabled(s, ev) && InPlace(ev) && Polite(s, ev)
    requires id < |s.tasks|
    ensures var r := Step(e, s, ev);
      |r.tasks| == |s.tasks| && Course(r.tasks[id], Told(r.log, id))
  {
    assert Course(s.tasks[id], Told(s.log, id)) && Answered(s.log, s.tasks[id], id) && Registered(s, id);
    InPlaceTells(e, s, ev, id);
    InPlaceBecomes(e, s, ev, id);
    hide Step, Told, Course, Becomes, Says;
    BecomesCourse(e, s, ev, id, Told(s.log, id));
  }

  lemma AddedCourse(e: Env, s: State, key: Key, cb: Option<nat>, errCb: Option<nat>)
    requires Inv(e, s) && AllCourse(s)
    ensures AllCourse(Added(s, key, cb, errCb))
  {
    var r := Added(s, key, cb, errCb);
    forall id | 0 <= id < |r.tasks| ensures Course(r.tasks[id], Told(r.log, id)) {
      if id < |s.tasks| { assert Course(s.tasks[id], Told(s.log, id)); } else { NothingTold(e, s, id); }
    }
  }

  lemma EnqueueCourse(e: Env, s: State, seqNo: int, path: string, cb: Option<nat>, errCb: Option<nat>)
    requires Monotone(e) && PoliteEnv(e) && Inv(e, s) && AllAnswered(s) && AllCourse(s) && cb.Some? && errCb.Some?
    ensures AllCourse(Enqueue(e, s, seqNo, path, cb, errCb).0)
  {
    var key := Key(seqNo, path);
    if seqNo == s.currentSeq {
      if key in s.table {
        var r := Enqueue(e, s, seqNo, path, cb, errCb).0;
        forall k | 0 <= k < |r.tasks| ensures Course(r.tasks[k], Told(r.log, k)) {
          assert Course(s.tasks[k], Told(s.log, k));
        }
      } else {
        AddedInv(e, s, key, cb, errCb);
        AddedCourse(e, s, key, cb, errCb);
        AddedAnswered(e, s, key, cb, errCb);
        PumpCourse(e, Added(s, key, cb, errCb));
      }
    }
  }

  lemma AddedAnswered(e: Env, s: State, key: Key, cb: Option<nat>, errCb: Option<nat>)
    requires AllAnswered(s) && cb.Some? && errCb.Some?
    ensures AllAnswered(Added(s, key, cb, errCb))
  {
    var r := Added(s, key, cb, errCb);
    forall k | 0 <= k < |r.tasks| ensures Answered(r.log, r.tasks[k], k) {
      if k < |s.tasks| { assert Answered(s.log, s.tasks[k], k); }
    }
  }

  lemma InvalidatedCourse(e: Env, s: State, seqNo: int)
    requires Inv(e, s) && AllAnswered(s) && AllCourse(s)
    ensures AllCourse(Invalidated(e, s, seqNo)) && AllAnswered(Invalidated(e, s, seqNo))
  {
    var r := Invalidated(e, s, seqNo);
    forall k | 0 <= k < |r.tasks|
      ensures Course(r.tasks[k], Told(r.log, k)) && Answered(r.log, r.tasks[k], k)
    {
      assert Course(s.tasks[k], Told(s.log, k)) && Answered(s.log, s.tasks[k], k);
    }
  }

  lemma ReleaseCourse(e: Env, s: State, id: nat)
    requires Inv(e, s) && AllAnswered(s) && AllCourse(s) && Enabled(s, Settles(id))
    ensures AllCourse(Release(s, id)) && AllAnswered(Release(s, id))
  {
    var r := Release(s, id);
    forall k | 0 <= k < |r.tasks|
      ensures Course(r.tasks[k], Told(r.log, k)) && Answered(r.log, r.tasks[k], k)
    {
      assert Course(s.tasks[k], Told(s.log, k)) && Answered(s.log, s.tasks[k], k);
    }
  }

  lemma StepCourse(e: Env, s: State, ev: Event)
    requires Monotone(e) && PoliteEnv(e) && Inv(e, s) && AllAnswered(s) && AllCourse(s) && Polite(s, ev)
    ensures AllCourse(Step(e, s, ev))
  {
    if Enabled(s, ev) {
      match ev
      case EnqueueCall(seqNo, path, cb, errCb) => EnqueueCourse(e, s, seqNo, path, cb, errCb);
      case InvalidateCall(seqNo) =>
        InvalidatedInv(e, s, seqNo);
        InvalidatedCourse(e, s, seqNo);
        PumpCourse(e, Invalidated(e, s, seqNo));
      case WakeFires =>
        TickInv(e, s, s.(wake := None));
        PumpCourse(e, s.(wake := None));
      case Settles(id) =>
        ReleaseInv(e, s, id);
        ReleaseCourse(e, s, id);
        PumpCourse(e, Release(s, id));
      case _ =>
        var r := Step(e, s, ev);
        InPlaceSize(e, s, ev);
        forall id | 0 <= id < |r.tasks| ensures Course(r.tasks[id], Told(r.log, id)) { InPlaceCourse(e, s, ev, id); }
    }
  }

  lemma InPlaceSize(e: Env, s: State, ev: Event)
    requires Indexed(s) && Enabled(s, ev) && InPlace(ev)
    ensures |Step(e, s, ev).tasks| == |s.tasks|
  {
  }

  lemma {:induction false} RunCourse(e: Env, initialSeq: int, evs: seq<Event>)
    requires Monotone(e) && PoliteEnv(e) && PoliteRun(e, initialSeq, evs)
    ensures AllCourse(Run(e, initialSeq, evs))
  {
    if evs != [] {
      var before := evs[..|evs| - 1];
      RunInv(e, initialSeq, before);
      RunAnswered(e, initialSeq, before);
      RunCourse(e, initialSeq, before);
      StepCourse(e, Run(e, initialSeq, before), evs[|evs| - 1]);
    }
  }

  // ---------------------------------------------------------------- exactly once

  function Wins(told: seq<Output>): nat {
    if told == [] then 0 else Wins(told[..|told| - 1]) + if told[|told| - 1].Succeeded? then 1 else 0
  }

  function Losses(told: seq<Output>): nat {
    if told == [] then 0 else Losses(told[..|told| - 1]) + if told[|told| - 1].Failed? then 1 else 0
  }

  predicate SomeThrew(told: seq<Output>) { exists i :: 0 <= i < |told| && told[i].Succeeded? && told[i].threw }

  lemma {:induction false} ToldCounts(log: seq<Output>, id: nat)
    ensures Successes(log, id) == Wins(Told(log, id)) && Failures(log, id) == Losses(Told(log, id))
    ensures Threw(log, id) <==> SomeThrew(Told(log, id))
  {
    if log != [] {
      var n := |log| - 1;
      var before, o := Told(log[..n], id), log[n];
      ToldCounts(log[..n], id);
      assert Threw(log, id) <==> Threw(log[..n], id) || (o.Succeeded? && o.id == id && o.threw) by {
        if Threw(log, id) {
          var i :| 0 <= i < |log| && log[i].Succeeded? && log[i].id == id && log[i].threw;
          assert i < n ==> log[..n][i] == log[i];
        }
      }
      if (o.Succeeded? || o.Failed?) && o.id == id {
        assert (before + [o])[..|before|] == before;
        ThrewSnoc(before, o);
      } else {
        assert Told(log, id) == before;
      }
    }
  }

  lemma ThrewSnoc(told: seq<Output>, o: Output)
    ensures SomeThrew(told + [o]) <==> SomeThrew(told) || (o.Succeeded? && o.threw)
  {
    var all := told + [o];
    if SomeThrew(told) {
      var i :| 0 <= i < |told| && told[i].Succeeded? && told[i].threw;
      assert all[i] == told[i];
    }
    assert all[|told|] == o;
  }

  /** Exactly once: a settled task that was never called off has had its success callback or its failure
      callback, and both if and only if the success callback threw. */
  lemma SettledIsAnsweredOnce(e: Env, initialSeq: int, evs: seq<Event>, id: nat)
    requires Monotone(e) && PoliteEnv(e) && PoliteRun(e, initialSeq, evs)
    requires var s := Run(e, initialSeq, evs);
      id < |s.tasks| && s.tasks[id].phase == Released && !s.tasks[id].cancelled
    ensures var log := Run(e, initialSeq, evs).log;
      var ok, bad := Successes(log, id), Failures(log, id);
      && ok <= 1 && bad <= 1 && ok + bad >= 1
      && (ok == 1 && bad == 1 <==> Threw(log, id))
  {
    RunCourse(e, initialSeq, evs);
    var s := Run(e, initialSeq, evs);
    var told := Told(s.log, id);
    assert Course(s.tasks[id], told);
    ToldCounts(s.log, id);
    CompleteCounts(told);
  }

  lemma CountsOfOne(a: Output)
    ensures Wins([a]) == (if a.Succeeded? then 1 else 0) && Losses([a]) == (if a.Failed? then 1 else 0)
    ensures SomeThrew([a]) <==> a.Succeeded? && a.threw
  {
    assert [a][..0] == [] && [a][0] == a;
  }

  lemma CompleteCounts(told: seq<Output>)
    requires Complete(told)
    ensures Wins(told) <= 1 && Losses(told) <= 1 && Wins(told) + Losses(told) >= 1
    ensures Wins(told) == 1 && Losses(told) == 1 <==> SomeThrew(told)
  {
    CountsOfOne(told[0]);
    if |told| == 1 {
      assert told == [told[0]];
    } else {
      assert told[..1] == [told[0]] && told == [told[0]] + [told[1]];
      ThrewSnoc([told[0]], told[1]);
    }
  }

  // ---------------------------------------------------------------- the latest round

  predicate Mine(o: Output, cb: Option<nat>, errCb: Option<nat>) {
    (o.Succeeded? && cb == Some(o.cb)) || (o.Failed? && errCb == Some(o.cb))
  }

  /** The body has been dealt with: only a failure can still be told. */
  predicate PastBody(t: Task) { t.phase.Failing? || t.phase == Closing || t.phase == Released }

  predicate MineSince(told: seq<Output>, n: nat, cb: Option<nat>, errCb: Option<nat>, late: bool) {
    forall k :: n <= k < |told| ==> Mine(told[k], cb, errCb) && (late ==> told[k].Failed?)
  }

  /** The record holds the callbacks of one round, or none any more. */
  predicate Holds(t: Task, cb: Option<nat>, errCb: Option<nat>, late: bool) {
    && (t.cb == cb || t.cb == None) && (t.errCb == errCb || t.errCb == None)
    && (late ==> PastBody(t))
  }

  /** Since `base` was told, only callbacks of this round were run. */
  predicate Tracked(s: State, id: nat, base: seq<Output>, cb: Option<nat>, errCb: Option<nat>, late: bool) {
    && id < |s.tasks| && base <= Told(s.log, id)
    && MineSince(Told(s.log, id), |base|, cb, errCb, late) && Holds(s.tasks[id], cb, errCb, late)
  }

  /** The call replaces the callbacks of the task. */
  predicate Supersedes(s: State, ev: Event, id: nat) {
    && ev.EnqueueCall? && ev.seqNo == s.currentSeq
    && var key := Key(ev.seqNo, ev.path);
       key in s.table && s.table[key] == id && id < |s.tasks| && !s.tasks[id].timedOut
  }

  lemma SaidMine(s: State, ev: Event, id: nat, cb: Option<nat>, errCb: Option<nat>, late: bool)
    requires id < |s.tasks| && InPlace(ev) && Enabled(s, ev) && Holds(s.tasks[id], cb, errCb, late)
    ensures forall k :: 0 <= k < |Says(s, ev, id)| ==>
      Mine(Says(s, ev, id)[k], cb, errCb) && (late ==> Says(s, ev, id)[k].Failed?)
  {
  }

  lemma BecomesHolds(e: Env, s: State, ev: Event, id: nat, cb: Option<nat>, errCb: Option<nat>, late: bool)
    requires id < |s.tasks| && InPlace(ev) && Enabled(s, ev) && Holds(s.tasks[id], cb, errCb, late)
    ensures Holds(Becomes(e, s, ev, id), cb, errCb, late)
  {
  }

  lemma InPlaceTracked(e: Env, s: State, ev: Event, id: nat, base: seq<Output>,
                       cb: Option<nat>, errCb: Option<nat>, late: bool)
    requires Indexed(s) && Enabled(s, ev) && InPlace(ev) && Tracked(s, id, base, cb, errCb, late)
    ensures Tracked(Step(e, s, ev), id, base, cb, errCb, late)
  {
    InPlaceTells(e, s, ev, id);
    InPlaceBecomes(e, s, ev, id);
    SaidMine(s, ev, id, cb, errCb, late);
    BecomesHolds(e, s, ev, id, cb, errCb, late);
    hide Step, Told, Says, Becomes, Holds;
  }

  lemma EvolvedTracked(e: Env, s: State, r: State, id: nat, base: seq<Output>,
                       cb: Option<nat>, errCb: Option<nat>, late: bool)
    requires Tracked(s, id, base, cb, errCb, late) && id < |r.tasks| && Evolved(e, s, r, id)
    ensures Tracked(r, id, base, cb, errCb, late)
  {
    hide Told, Successes, Failures;
  }

  lemma PumpTracked(e: Env, s: State, id: nat, base: seq<Output>, cb: Option<nat>, errCb: Option<nat>, late: bool)
    requires Monotone(e) && Inv(e, s) && Tracked(s, id, base, cb, errCb, late)
    ensures Tracked(Pump(e, s), id, base, cb, errCb, late)
  {
    PumpEvolves(e, s);
    EvolvedTracked(e, s, Pump(e, s), id, base, cb, errCb, late);
  }

  lemma InvalidatedTracked(e: Env, s: State, seqNo: int, id: nat, base: seq<Output>,
                           cb: Option<nat>, errCb: Option<nat>, late: bool)
    requires Indexed(s) && Tracked(s, id, base, cb, errCb, late)
    ensures Tracked(Invalidated(e, s, seqNo), id, base, cb, errCb, late)
  {
    hide Told;
  }

  lemma ReleaseTracked(s: State, k: nat, id: nat, base: seq<Output>, cb: Option<nat>, errCb: Option<nat>, late: bool)
    requires k < |s.tasks| && Tracked(s, id, base, cb, errCb, late)
    ensures Tracked(Release(s, k), id, base, cb, errCb, late)
  {
    hide Told;
  }

  lemma EnqueueTracked(e: Env, s: State, ev: Event, id: nat, base: seq<Output>,
                       cb: Option<nat>, errCb: Option<nat>, late: bool)
    requires Monotone(e) && Inv(e, s) && ev.EnqueueCall? && !Supersedes(s, ev, id)
    requires Tracked(s, id, base, cb, errCb, late)
    ensures Tracked(Step(e, s, ev), id, base, cb, errCb, late)
  {
    hide Told;
    var key := Key(ev.seqNo, ev.path);
    if ev.seqNo == s.currentSeq && key !in s.table {
      AddedInv(e, s, key, ev.cb, ev.errCb);
      PumpTracked(e, Added(s, key, ev.cb, ev.errCb), id, base, cb, errCb, late);
    }
  }

  lemma StepTracked(e: Env, s: State, ev: Event, id: nat, base: seq<Output>,
                    cb: Option<nat>, errCb: Option<nat>, late: bool)
    requires Monotone(e) && Inv(e, s) && Tracked(s, id, base, cb, errCb, late) && !Supersedes(s, ev, id)
    ensures Tracked(Step(e, s, ev), id, base, cb, errCb, late)
  {
    if Enabled(s, ev) {
      hide Tracked;
      match ev
      case EnqueueCall(_, _, _, _) => EnqueueTracked(e, s, ev, id, base, cb, errCb, late);
      case InvalidateCall(seqNo) =>
        InvalidatedInv(e, s, seqNo);
        InvalidatedTracked(e, s, seqNo, id, base, cb, errCb, late);
        PumpTracked(e, Invalidated(e, s, seqNo), id, base, cb, errCb, late);
      case WakeFires =>
        var s1 := s.(wake := None);
        TickInv(e, s, s1);
        SameRecords(s, s1, id, base, cb, errCb, late);
        PumpTracked(e, s1, id, base, cb, errCb, late);
      case Settles(k) =>
        ReleaseInv(e, s, k);
        ReleaseTracked(s, k, id, base, cb, errCb, late);
        PumpTracked(e, Release(s, k), id, base, cb, errCb, late);
      case _ => InPlaceTracked(e, s, ev, id, base, cb, errCb, late);
    }
  }

  lemma SameRecords(s: State, r: State, id: nat, base: seq<Output>, cb: Option<nat>, errCb: Option<nat>, late: bool)
    requires r.tasks == s.tasks && r.log == s.log && Tracked(s, id, base, cb, errCb, late)
    ensures Tracked(r, id, base, cb, errCb, late)
  {
  }

  /** From event i on, no call replaces the callbacks of the task. */
  ghost predicate LastRound(e: Env, initialSeq: int, evs: seq<Event>, i: nat, id: nat) {
    forall j :: i < j < |evs| ==> !Supersedes(Run(e, initialSeq, evs[..j]), evs[j], id)
  }

  /** The call at i is accepted: it answers with this task, and does not find it timed out. */
  ghost predicate Accepted(e: Env, initialSeq: int, evs: seq<Event>, i: nat, id: nat)
    requires i < |evs|
  {
    var s := Run(e, initialSeq, evs[..i]);
    && evs[i].EnqueueCall?
    && Enqueue(e, s, evs[i].seqNo, evs[i].path, evs[i].cb, evs[i].errCb).1 == Some(id)
    && (id < |s.tasks| ==> !s.tasks[id].timedOut)
  }

  lemma CallTracked(e: Env, s: State, ev: Event, id: nat)
    requires Monotone(e) && Inv(e, s) && ev.EnqueueCall?
    requires Enqueue(e, s, ev.seqNo, ev.path, ev.cb, ev.errCb).1 == Some(id)
    requires id < |s.tasks| ==> !s.tasks[id].timedOut
    ensures var late := id < |s.tasks| && PastBody(s.tasks[id]);
      Tracked(Step(e, s, ev), id, Told(s.log, id), ev.cb, ev.errCb, late)
    ensures id >= |s.tasks| ==> Told(s.log, id) == []
  {
    hide Told;
    var key := Key(ev.seqNo, ev.path);
    if key !in s.table {
      NothingTold(e, s, id);
      AddedInv(e, s, key, ev.cb, ev.errCb);
      PumpTracked(e, Added(s, key, ev.cb, ev.errCb), id, [], ev.cb, ev.errCb, false);
    }
  }

  lemma RoundBefore(e: Env, initialSeq: int, evs: seq<Event>, i: nat, id: nat)
    requires i < |evs| - 1 && Accepted(e, initialSeq, evs, i, id) && LastRound(e, initialSeq, evs, i, id)
    ensures var n := |evs| - 1;
      && evs[..n][..i] == evs[..i] && evs[..n][i] == evs[i]
      && Accepted(e, initialSeq, evs[..n], i, id) && LastRound(e, initialSeq, evs[..n], i, id)
      && !Supersedes(Run(e, initialSeq, evs[..n]), evs[n], id)
  {
    hide Supersedes, Run, Enqueue;
    var n := |evs| - 1;
    assert evs[..n][..i] == evs[..i] && evs[..n][i] == evs[i];
    assert forall j :: i < j < n ==> evs[..n][..j] == evs[..j] && evs[..n][j] == evs[j];
  }

  lemma RunSnoc(e: Env, initialSeq: int, evs: seq<Event>)
    requires evs != []
    ensures Run(e, initialSeq, evs) == Step(e, Run(e, initialSeq, evs[..|evs| - 1]), evs[|evs| - 1])
  {
  }

  lemma {:induction false} RunTracked(e: Env, initialSeq: int, evs: seq<Event>, i: nat, id: nat)
    requires Monotone(e) && i < |evs| && Accepted(e, initialSeq, evs, i, id) && LastRound(e, initialSeq, evs, i, id)
    ensures var was := Run(e, initialSeq, evs[..i]);
      var late := id < |was.tasks| && PastBody(was.tasks[id]);
      Tracked(Run(e, initialSeq, evs), id, Told(was.log, id), evs[i].cb, evs[i].errCb, late)
    decreases |evs|
  {
    hide Tracked, Step, Supersedes, Run, Told, LastRound;
    var n := |evs| - 1;
    var was := Run(e, initialSeq, evs[..i]);
    RunInv(e, initialSeq, evs[..n]);
    RunSnoc(e, initialSeq, evs);
    if i == n {
      CallTracked(e, was, evs[i], id);
    } else {
      RoundBefore(e, initialSeq, evs, i, id);
      RunTracked(e, initialSeq, evs[..n], i, id);
      var late := id < |was.tasks| && PastBody(was.tasks[id]);
      StepTracked(e, Run(e, initialSeq, evs[..n]), evs[n], id, Told(was.log, id), evs[i].cb, evs[i].errCb, late);
    }
  }

  /** In every run, polite or not: after the last call a task accepted, only that call's callbacks run for it. */
  lemma OnlyLatestCallbacksRun(e: Env, initialSeq: int, evs: seq<Event>, i: nat, id: nat, k: nat)
    requires Monotone(e) && i < |evs| && Accepted(e, initialSeq, evs, i, id) && LastRound(e, initialSeq, evs, i, id)
    ensures var base, told := Told(Run(e, initialSeq, evs[..i]).log, id), Told(Run(e, initialSeq, evs).log, id);
      && base <= told
      && (|base| <= k < |told| ==> Mine(told[k], evs[i].cb, evs[i].errCb))
  {
    RunTracked(e, initialSeq, evs, i, id);
  }

  // ---------------------------------------------------------------- whether a round is heard

  /** At the call the task is new, or has yet to be told something. */
  predicate StillOpen(s: State, id: nat) {
    id < |s.tasks| ==> !s.tasks[id].timedOut && s.tasks[id].phase != Closing && s.tasks[id].phase != Released
  }

  /** At the call the task is new, or its body has not been dealt with. */
  predicate BeforeBody(s: State, id: nat) {
    id < |s.tasks| ==> !s.tasks[id].timedOut && !PastBody(s.tasks[id])
  }

  lemma {:induction false} ToldPrefix(a: seq<Output>, b: seq<Output>, id: nat)
    requires a <= b
    ensures Told(a, id) <= Told(b, id)
  {
    if a != b {
      assert a <= b[..|b| - 1];
      ToldPrefix(a, b[..|b| - 1], id);
    }
  }

  /** What no event takes back. */
  predicate Grows(s: State, r: State) {
    && s.log <= r.log && |s.tasks| <= |r.tasks| && s.cooldownUntil <= r.cooldownUntil
    && forall id :: 0 <= id < |s.tasks| && s.tasks[id].cancelled ==> r.tasks[id].cancelled
  }

  lemma GrowsThen(s: State, m: State, r: State)
    requires Grows(s, m) && Grows(m, r)
    ensures Grows(s, r)
  {
  }

  lemma {:induction false} LogGrows(e: Env, initialSeq: int, evs: seq<Event>, i: nat)
    requires Monotone(e) && i <= |evs|
    ensures Grows(Run(e, initialSeq, evs[..i]), Run(e, initialSeq, evs))
    decreases |evs|
  {
    if i == |evs| {
      assert evs[..i] == evs;
    } else {
      var n := |evs| - 1;
      assert evs[..n][..i] == evs[..i];
      LogGrows(e, initialSeq, evs[..n], i);
      LastGrows(e, initialSeq, evs);
      hide Grows, Run;
      GrowsThen(Run(e, initialSeq, evs[..i]), Run(e, initialSeq, evs[..n]), Run(e, initialSeq, evs));
    }
  }

  lemma LastGrows(e: Env, initialSeq: int, evs: seq<Event>)
    requires Monotone(e) && evs != []
    ensures Grows(Run(e, initialSeq, evs[..|evs| - 1]), Run(e, initialSeq, evs))
  {
    RunInv(e, initialSeq, evs[..|evs| - 1]);
    hide Inv, Awake, Step, Grows;
    StepGrows(e, Run(e, initialSeq, evs[..|evs| - 1]), evs[|evs| - 1]);
  }

  lemma StepGrows(e: Env, s: State, ev: Event)
    requires Monotone(e) && Inv(e, s) && Awake(e, s)
    ensures Grows(s, Step(e, s, ev))
  {
    hide Inv, Awake, CallbacksLive, Step;
    StepKept(e, s, ev);
  }

  /** A complete account is not continued. */
  lemma NothingMore(base: seq<Output>, told: seq<Output>)
    requires base <= told && Complete(base) && Complete(told)
    ensures told == base
  {
    assert base[0] == told[0];
  }

  lemma {:induction false} PoliteBefore(e: Env, initialSeq: int, evs: seq<Event>, i: nat)
    requires PoliteRun(e, initialSeq, evs) && i <= |evs|
    ensures PoliteRun(e, initialSeq, evs[..i])
    decreases |evs|
  {
    if i == |evs| {
      assert evs[..i] == evs;
    } else {
      assert evs[..|evs| - 1][..i] == evs[..i];
      PoliteBefore(e, initialSeq, evs[..|evs| - 1], i);
    }
  }

  /** What was told of a task before a call that it answers. */
  lemma CallFinds(e: Env, s: State, ev: Event, id: nat)
    requires Inv(e, s) && AllCourse(s) && ev.EnqueueCall?
    requires Enqueue(e, s, ev.seqNo, ev.path, ev.cb, ev.errCb).1 == Some(id)
    ensures var base := Told(s.log, id);
      && (BeforeBody(s, id) ==> base == [])
      && (StillOpen(s, id) ==> base == [] || OneThrown(base))
      && (!StillOpen(s, id) ==> Complete(base))
  {
    if id < |s.tasks| {
      assert Registered(s, id) && Course(s.tasks[id], Told(s.log, id));
    } else {
      NothingTold(e, s, id);
    }
  }

  /** The callbacks of one call, run once: success, failure, or a success that threw and the failure. */
  predicate OneRound(run: seq<Output>, id: nat, cb: nat, errCb: nat) {
    || run == [Succeeded(id, cb, false)]
    || run == [Failed(id, errCb)]
    || run == [Succeeded(id, cb, true), Failed(id, errCb)]
  }

  lemma RoundOf(base: seq<Output>, told: seq<Output>, id: nat, cb: nat, errCb: nat, late: bool)
    requires base <= told && Complete(told) && MineSince(told, |base|, Some(cb), Some(errCb), late)
    requires forall k :: 0 <= k < |told| ==> (told[k].Succeeded? || told[k].Failed?) && told[k].id == id
    requires base == [] || (OneThrown(base) && late)
    ensures var run := told[|base|..];
      && run != [] && OneRound(run, id, cb, errCb)
      && (late ==> run == [Failed(id, errCb)])
  {
    assert base != [] ==> base[0] == told[0];
    if |base| == 1 {
      assert told[1..] == [told[1]];
    } else {
      assert told[0..] == told;
      assert |told| == 1 ==> told == [told[0]];
      assert |told| == 2 ==> told == [told[0], told[1]];
    }
  }

  lemma {:induction false} ToldOwn(log: seq<Output>, id: nat)
    ensures forall k :: 0 <= k < |Told(log, id)| ==>
      (Told(log, id)[k].Succeeded? || Told(log, id)[k].Failed?) && Told(log, id)[k].id == id
  {
    if log != [] { ToldOwn(log[..|log| - 1], id); }
  }

  /**
   * The latest round is heard. In polite runs, take the last call a task answered, and let the task settle
   * without being called off. The callbacks run since that call are its own, each at most once, and at
   * least one is run, if and only if at the call the task was new, or neither timed out nor already told
   * (Closing). If its chain had already failed, only the error callback is run.
   */
  lemma LatestRoundIsHeard(e: Env, initialSeq: int, evs: seq<Event>, i: nat, id: nat, cb: nat, errCb: nat)
    requires Monotone(e) && PoliteEnv(e) && PoliteRun(e, initialSeq, evs)
    requires i < |evs| && evs[i].EnqueueCall? && evs[i].cb == Some(cb) && evs[i].errCb == Some(errCb)
    requires var s := Run(e, initialSeq, evs[..i]);
      Enqueue(e, s, evs[i].seqNo, evs[i].path, Some(cb), Some(errCb)).1 == Some(id)
    requires LastRound(e, initialSeq, evs, i, id)
    requires var r := Run(e, initialSeq, evs);
      id < |r.tasks| && r.tasks[id].phase == Released && !r.tasks[id].cancelled
    ensures var s, told := Run(e, initialSeq, evs[..i]), Told(Run(e, initialSeq, evs).log, id);
      var base := Told(s.log, id);
      && base <= told
      && var run := told[|base|..];
         && (run != [] <==> StillOpen(s, id))
         && (StillOpen(s, id) ==> OneRound(run, id, cb, errCb))
         && (StillOpen(s, id) && !BeforeBody(s, id) ==> run == [Failed(id, errCb)])
  {
    hide Enqueue, LastRound, PoliteRun;
    var s, r := Run(e, initialSeq, evs[..i]), Run(e, initialSeq, evs);
    var base, told := Told(s.log, id), Told(r.log, id);
    LogGrows(e, initialSeq, evs, i);
    ToldPrefix(s.log, r.log, id);
    PoliteBefore(e, initialSeq, evs, i);
    RunInv(e, initialSeq, evs[..i]);
    RunCourse(e, initialSeq, evs[..i]);
    RunCourse(e, initialSeq, evs);
    assert Course(r.tasks[id], told);
    CallFinds(e, s, evs[i], id);
    if StillOpen(s, id) {
      RunTracked(e, initialSeq, evs, i, id);
      ToldOwn(r.log, id);
      hide Run, Told;
      RoundOf(base, told, id, cb, errCb, !BeforeBody(s, id));
    } else {
      NothingMore(base, told);
    }
  }

  // ---------------------------------------------------------------- a round that is not heard

  lemma FirstStarts(e: Env, cb: nat, errCb: nat)
    requires e.maxConcurrency > 0 && e.fetchThrows(0).None?
    ensures var s := Run(e, 0, [EnqueueCall(0, "/", Some(cb), Some(errCb))]);
      && |s.tasks| == 1 && s.tasks[0].phase == Fetching && !s.tasks[0].cancelled && !s.tasks[0].timedOut
      && s.tasks[0].cb == Some(cb) && s.tasks[0].key == Key(0, "/") && s.currentSeq == 0
      && Told(s.log, 0) == []
  {
    var call := EnqueueCall(0, "/", Some(cb), Some(errCb));
    assert [call][..0] == [];
    var a := Added(Init(0), Key(0, "/"), Some(cb), Some(errCb));
    assert Run(e, 0, [call]) == Pump(e, a);
    var a1 := a.(ticks := 1);
    var now := e.clock(0);
    assert Pump(e, a) == PumpLoop(e, a1, now);
    assert Scan(e, a1, 0, 0, now) == (a1, 0, 0);
    var b := Launch(e, a1.(queue := []), 0, now);
    assert RemoveAt(a1.queue, 0) == [];
    var c := b.(ticks := b.ticks + 1);
    assert PumpLoop(e, a1, now) == PumpLoop(e, c, e.clock(b.ticks));
    assert PumpLoop(e, c, e.clock(b.ticks)) == c;
    CountAppend([], b.log[0], 0);
    assert [] + [b.log[0]] == b.log;
  }

  /** A call that finds a task delivered but not yet settled is answered by it, and its callbacks never run. */
  lemma DeliveredTaskDropsRound(e: Env, initialSeq: int, evs: seq<Event>, id: nat, cb: nat, errCb: nat)
    requires Monotone(e)
    requires var s := Run(e, initialSeq, evs);
      && id < |s.tasks| && s.tasks[id].phase == Reading && !s.tasks[id].cancelled && !s.tasks[id].timedOut
      && s.tasks[id].cb.Some?
    ensures var s := Run(e, initialSeq, evs);
      var body := evs + [BodyResolves(id, Returns)];
      var call := EnqueueCall(s.currentSeq, s.tasks[id].key.path, Some(cb), Some(errCb));
      var r := Run(e, initialSeq, body + [call] + [Settles(id)]);
      && Accepted(e, initialSeq, body + [call] + [Settles(id)], |body|, id)
      && id < |r.tasks| && r.tasks[id].phase == Released && !r.tasks[id].cancelled
      && Told(r.log, id) == Told(s.log, id) + [Succeeded(id, s.tasks[id].cb.value, false)]
  {
    var s := Run(e, initialSeq, evs);
    var body := evs + [BodyResolves(id, Returns)];
    var call := EnqueueCall(s.currentSeq, s.tasks[id].key.path, Some(cb), Some(errCb));
    var all := body + [call] + [Settles(id)];
    assert body[..|evs|] == evs && (body + [call])[..|body|] == body;
    assert all[..|body| + 1] == body + [call] && all[..|body|] == body && all[|body|] == call;
    RunInv(e, initialSeq, evs);
    RunInv(e, initialSeq, body);
    RunInv(e, initialSeq, body + [call]);
    assert Registered(s, id);
    RunSnoc(e, initialSeq, body);
    RunSnoc(e, initialSeq, body + [call]);
    RunSnoc(e, initialSeq, all);
    hide Run, Told, Inv;
    DropsSteps(e, s, id, call, Run(e, initialSeq, body), Run(e, initialSeq, body + [call]));
  }

  /** The call finds the delivered task, and only its record changes. */
  lemma CallOnDelivered(e: Env, s: State, call: Event, id: nat)
    requires Inv(e, s) && id < |s.tasks| && s.tasks[id].phase == Closing && Live(s.tasks[id]) && !s.tasks[id].timedOut
    requires call.EnqueueCall? && s.tasks[id].key == Key(call.seqNo, call.path) && call.seqNo == s.currentSeq
    ensures Enqueue(e, s, call.seqNo, call.path, call.cb, call.errCb).1 == Some(id)
    ensures var r := Step(e, s, call);
      r.log == s.log && |r.tasks| == |s.tasks| && r.tasks[id].phase == Closing && Live(r.tasks[id])
  {
    assert Registered(s, id);
  }

  lemma SettleSilent(e: Env, s: State, id: nat)
    requires Monotone(e) && Inv(e, s) && id < |s.tasks| && s.tasks[id].phase == Closing && Live(s.tasks[id])
    ensures var r := Step(e, s, Settles(id));
      && id < |r.tasks| && r.tasks[id].phase == Released && !r.tasks[id].cancelled
      && Told(r.log, id) == Told(s.log, id)
  {
    ReleaseInv(e, s, id);
    PumpEvolves(e, Release(s, id));
    assert Evolved(e, Release(s, id), Pump(e, Release(s, id)), id);
  }

  lemma DropsSteps(e: Env, s: State, id: nat, call: Event, s1: State, s2: State)
    requires Monotone(e) && Inv(e, s) && Inv(e, s1) && Inv(e, s2)
    requires id < |s.tasks| && s.tasks[id].phase == Reading && Live(s.tasks[id]) && !s.tasks[id].timedOut
    requires s.tasks[id].cb.Some? && call.EnqueueCall?
    requires call.seqNo == s.currentSeq && call.path == s.tasks[id].key.path
    requires s1 == Step(e, s, BodyResolves(id, Returns)) && s2 == Step(e, s1, call)
    ensures Enqueue(e, s1, call.seqNo, call.path, call.cb, call.errCb).1 == Some(id)
    ensures id < |s1.tasks| && !s1.tasks[id].timedOut
    ensures var r := Step(e, s2, Settles(id));
      && id < |r.tasks| && r.tasks[id].phase == Released && !r.tasks[id].cancelled
      && Told(r.log, id) == Told(s.log, id) + [Succeeded(id, s.tasks[id].cb.value, false)]
  {
    assert Registered(s, id);
    BodyClosing(e, s, id);
    InPlaceTells(e, s, BodyResolves(id, Returns), id);
    InPlaceBecomes(e, s, BodyResolves(id, Returns), id);
    assert s.tasks[id].key == Key(call.seqNo, call.path);
    hide Step, Inv, Told;
    CallOnDelivered(e, s1, call, id);
    SettleSilent(e, s2, id);
  }

  lemma BodyClosing(e: Env, s: State, id: nat)
    requires Indexed(s) && id < |s.tasks| && s.tasks[id].phase == Reading
    ensures Step(e, s, BodyResolves(id, Returns)).currentSeq == s.currentSeq
  {
  }

  /** Such a run, from the start: the first round is heard, the second is not. */
  lemma SecondRoundUnheard(e: Env)
    requires Monotone(e) && e.maxConcurrency > 0 && e.fetchThrows(0).None?
    ensures var evs := [EnqueueCall(0, "/", Some(1), Some(2)), FetchResolves(0, Good), BodyResolves(0, Returns),
                        EnqueueCall(0, "/", Some(3), Some(4)), Settles(0)];
      var r := Run(e, 0, evs);
      && Accepted(e, 0, evs, 3, 0) && |r.tasks| > 0 && r.tasks[0].phase == Released && !r.tasks[0].cancelled
      && Told(r.log, 0) == [Succeeded(0, 1, false)]
  {
    var first := [EnqueueCall(0, "/", Some(1), Some(2))];
    FirstStarts(e, 1, 2);
    var evs := first + [FetchResolves(0, Good)];
    RunSnoc(e, 0, evs);
    assert evs[..1] == first;
    var s := Run(e, 0, evs);
    hide Run, Told;
    DeliveredTaskDropsRound(e, 0, evs, 0, 3, 4);
    assert evs + [BodyResolves(0, Returns)] + [EnqueueCall(0, "/", Some(3), Some(4))] + [Settles(0)]
      == [EnqueueCall(0, "/", Some(1), Some(2)), FetchResolves(0, Good), BodyResolves(0, Returns),
          EnqueueCall(0, "/", Some(3), Some(4)), Settles(0)];
  }
}
