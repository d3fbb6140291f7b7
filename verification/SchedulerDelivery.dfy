/** Every request that is not called off is answered: the exactly-once side of the scheduler. */
module SchedulerDelivery {
  import opened Wrappers
  import opened RequestScheduler
  import opened SchedulerTheorems

  /** A task not called off keeps its callbacks until released, and is answered before that. */
  ghost predicate Answered(log: seq<Output>, t: Task, id: nat) {
    !t.cancelled ==>
      && (t.phase != Released ==> t.cb.Some? && t.errCb.Some?)
      && (t.phase == Closing || t.phase == Released ==> Successes(log, id) + Failures(log, id) >= 1)
      && (t.phase != Released && t.failureNotified ==> Failures(log, id) >= 1)
      && (t.timedOut && t.phase != Released ==> t.failureNotified)
      && (t.aborted ==> t.timedOut)
      && (t.phase.Failing? && t.phase.abort ==> t.timedOut)
  }

  ghost predicate AllAnswered(s: State) {
    forall id :: 0 <= id < |s.tasks| ==> Answered(s.log, s.tasks[id], id)
  }

  /** Callers give both callbacks, fetches are only aborted through their controller, and callbacks
      do not throw AbortError. */
  ghost predicate Polite(s: State, ev: Event) {
    match ev
    case EnqueueCall(_, _, cb, errCb) => cb.Some? && errCb.Some?
    case FetchRejects(id, abort) => abort ==> id < |s.tasks| && s.tasks[id].aborted
    case BodyRejects(id, abort) => abort ==> id < |s.tasks| && s.tasks[id].aborted
    case BodyResolves(_, o) => o != Throws(true)
    case _ => true
  }

  ghost predicate PoliteEnv(e: Env) { forall id: nat :: e.fetchThrows(id) != Some(true) }

  ghost predicate PoliteRun(e: Env, initialSeq: int, evs: seq<Event>) {
    evs == []
    || (PoliteRun(e, initialSeq, evs[..|evs| - 1])
        && Polite(Run(e, initialSeq, evs[..|evs| - 1]), evs[|evs| - 1]))
  }

  lemma PumpAnswered(e: Env, s: State)
    requires Monotone(e) && PoliteEnv(e) && Inv(e, s) && AllAnswered(s)
    ensures AllAnswered(Pump(e, s))
  {
    PumpEvolves(e, s);
    var r := Pump(e, s);
    forall id | 0 <= id < |r.tasks| ensures Answered(r.log, r.tasks[id], id) {
      assert Evolved(e, s, r, id) && Answered(s.log, s.tasks[id], id) && Registered(s, id);
      assert e.fetchThrows(id) != Some(true);
    }
  }

  /** One task changed, with at most one output: only that task is to be looked at. */
  lemma OthersAnswered(s: State, r: State, id: nat)
    requires AllAnswered(s) && id < |s.tasks| && SamePlace(s, r, id)
    requires r.log == s.log || exists o :: r.log == s.log + [o] && (!o.RateLimited? ==> o.id == id)
    requires Answered(r.log, r.tasks[id], id)
    ensures AllAnswered(r)
  {
  }

  lemma EnqueueAnswered(e: Env, s: State, seqNo: int, path: string, cb: Option<nat>, errCb: Option<nat>)
    requires Monotone(e) && PoliteEnv(e) && Inv(e, s) && AllAnswered(s) && cb.Some? && errCb.Some?
    ensures AllAnswered(Enqueue(e, s, seqNo, path, cb, errCb).0)
  {
    var key := Key(seqNo, path);
    if seqNo == s.currentSeq {
      if key in s.table {
        var r := Enqueue(e, s, seqNo, path, cb, errCb).0;
        forall k | 0 <= k < |r.tasks| ensures Answered(r.log, r.tasks[k], k) {
          assert Answered(s.log, s.tasks[k], k);
        }
      } else {
        var r := Added(s, key, cb, errCb);
        AddedInv(e, s, key, cb, errCb);
        forall k | 0 <= k < |r.tasks| ensures Answered(r.log, r.tasks[k], k) {
          if k < |s.tasks| { assert Answered(s.log, s.tasks[k], k); }
        }
        PumpAnswered(e, r);
      }
    }
  }

  lemma InvalidateAnswered(e: Env, s: State, seqNo: int)
    requires Monotone(e) && PoliteEnv(e) && Inv(e, s) && AllAnswered(s)
    ensures AllAnswered(Invalidate(e, s, seqNo))
  {
    var r := Invalidated(e, s, seqNo);
    InvalidatedInv(e, s, seqNo);
    forall k | 0 <= k < |r.tasks| ensures Answered(r.log, r.tasks[k], k) {
      assert Answered(s.log, s.tasks[k], k);
    }
    PumpAnswered(e, r);
  }

  /** A failure notice about a live task given its error callback is a failure output. */
  lemma NoticeAnswers(s: State, id: nat, abort: bool)
    requires id < |s.tasks|
    requires var t := s.tasks[id]; !t.cancelled ==> !Stale(s, t) && t.errCb.Some? && (abort ==> t.timedOut)
    requires var t := s.tasks[id]; !t.cancelled && t.failureNotified ==> Failures(s.log, id) >= 1
    ensures var r := NotifyFailure(s, id, abort);
      !s.tasks[id].cancelled ==> Failures(r.log, id) >= 1 && r.tasks[id].failureNotified
  {
    var t := s.tasks[id];
    if !t.cancelled && !t.failureNotified { CountAppend(s.log, Failed(id, t.errCb.value), id); }
  }

  lemma TimeoutAnswered(e: Env, s: State, id: nat)
    requires Inv(e, s) && AllAnswered(s) && Enabled(s, TimeoutFires(id))
    ensures AllAnswered(TimeoutTask(e, s, id))
  {
    var t := s.tasks[id];
    var r := TimeoutTask(e, s, id);
    assert Registered(s, id) && Answered(s.log, t, id);
    if r != s {
      var s0 := s.(tasks := s.tasks[id := t.(timedOut := true)]);
      NoticeAnswers(s0, id, false);
      NotifyShape(s0, id, false);
      OthersAnswered(s, r, id);
    }
  }

  lemma BodyAnswered(e: Env, s: State, id: nat, o: Outcome)
    requires Inv(e, s) && AllAnswered(s) && Enabled(s, BodyResolves(id, o)) && o != Throws(true)
    ensures AllAnswered(DeliverBody(s, id, o))
  {
    assert Registered(s, id) && Answered(s.log, s.tasks[id], id);
    hide Inv, Registered, AllAnswered;
    BodyAnswersOne(s, id, o);
    BodyShape(s, id, o);
    hide DeliverBody, SamePlace;
    OthersAnswered(s, DeliverBody(s, id, o), id);
  }

  lemma BodyAnswersOne(s: State, id: nat, o: Outcome)
    requires id < |s.tasks| && s.tasks[id].phase == Reading && Answered(s.log, s.tasks[id], id) && o != Throws(true)
    requires !s.tasks[id].cancelled ==> !Stale(s, s.tasks[id])
    ensures Answered(DeliverBody(s, id, o).log, DeliverBody(s, id, o).tasks[id], id)
  {
    var t := s.tasks[id];
    if !t.timedOut && !Stale(s, t) && t.cb.Some? {
      CountAppend(s.log, Succeeded(id, t.cb.value, o.Throws?), id);
    }
  }

  lemma CatchAnswered(e: Env, s: State, id: nat)
    requires Inv(e, s) && AllAnswered(s) && Enabled(s, Catches(id))
    ensures AllAnswered(CatchError(s, id))
  {
    assert Registered(s, id) && Answered(s.log, s.tasks[id], id);
    NoticeAnswers(s, id, s.tasks[id].phase.abort);
    NotifyShape(s, id, s.tasks[id].phase.abort);
    OthersAnswered(s, CatchError(s, id), id);
  }

  lemma SettleAnswered(e: Env, s: State, id: nat)
    requires Monotone(e) && PoliteEnv(e) && Inv(e, s) && AllAnswered(s) && Enabled(s, Settles(id))
    ensures AllAnswered(FinishTask(e, s, id))
  {
    ReleaseInv(e, s, id);
    var r := Release(s, id);
    forall k | 0 <= k < |r.tasks| ensures Answered(r.log, r.tasks[k], k) { assert Answered(s.log, s.tasks[k], k); }
    PumpAnswered(e, r);
  }

  lemma StepAnswered(e: Env, s: State, ev: Event)
    requires Monotone(e) && PoliteEnv(e) && Inv(e, s) && Awake(e, s) && AllAnswered(s) && Polite(s, ev)
    ensures AllAnswered(Step(e, s, ev))
  {
    if Enabled(s, ev) {
      match ev
      case EnqueueCall(seqNo, path, cb, errCb) => EnqueueAnswered(e, s, seqNo, path, cb, errCb);
      case InvalidateCall(seqNo) => InvalidateAnswered(e, s, seqNo);
      case WakeFires =>
        TickInv(e, s, s.(wake := None));
        PumpAnswered(e, s.(wake := None));
      case TimeoutFires(id) => TimeoutAnswered(e, s, id);
      case FetchResolves(id, a) =>
        assert Answered(s.log, s.tasks[id], id);
        var s1 := SetPhase(s, id, if a.Good? then Reading else Failing(false));
        OthersAnswered(s, s1, id);
        var r := Respond(e, s, id, a);
        forall k | 0 <= k < |r.tasks| ensures Answered(r.log, r.tasks[k], k) {
          assert Answered(s1.log, s1.tasks[k], k);
          if a.TooMany? { CountAppend(s.log, r.log[|s.log|], k); }
        }
      case FetchRejects(id, abort) =>
        assert Answered(s.log, s.tasks[id], id);
        OthersAnswered(s, SetPhase(s, id, Failing(abort)), id);
      case BodyResolves(id, o) => BodyAnswered(e, s, id, o);
      case BodyRejects(id, abort) =>
        assert Answered(s.log, s.tasks[id], id);
        OthersAnswered(s, SetPhase(s, id, Failing(abort)), id);
      case Catches(id) => CatchAnswered(e, s, id);
      case Settles(id) => SettleAnswered(e, s, id);
    }
  }

  lemma {:induction false} RunAnswered(e: Env, initialSeq: int, evs: seq<Event>)
    requires Monotone(e) && PoliteEnv(e) && PoliteRun(e, initialSeq, evs)
    ensures AllAnswered(Run(e, initialSeq, evs))
  {
    if evs != [] {
      RunInv(e, initialSeq, evs[..|evs| - 1]);
      RunAnswered(e, initialSeq, evs[..|evs| - 1]);
      StepAnswered(e, Run(e, initialSeq, evs[..|evs| - 1]), evs[|evs| - 1]);
    }
  }

  /** In the run in which the catch step comes next, a success callback that throws is followed by the
      failure callback of the same task. */
  lemma ThrowingCallbackAlsoFails(e: Env, initialSeq: int, evs: seq<Event>, id: nat)
    requires Monotone(e)
    requires var s := Run(e, initialSeq, evs);
      && id < |s.tasks| && s.tasks[id].phase == Reading && !s.tasks[id].cancelled && !s.tasks[id].timedOut
      && s.tasks[id].cb.Some? && s.tasks[id].errCb.Some? && !s.tasks[id].failureNotified
    ensures var s := Run(e, initialSeq, evs);
      var r := Run(e, initialSeq, evs + [BodyResolves(id, Throws(false)), Catches(id)]);
      r.log == s.log + [Succeeded(id, s.tasks[id].cb.value, true), Failed(id, s.tasks[id].errCb.value)]
  {
    var s := Run(e, initialSeq, evs);
    RunInv(e, initialSeq, evs);
    assert Registered(s, id);
    ThrownThenCaught(e, s, id);
    hide Inv, Registered, Monotone, Step;
    var evs1 := evs + [BodyResolves(id, Throws(false))];
    var evs2 := evs + [BodyResolves(id, Throws(false)), Catches(id)];
    assert evs1[..|evs1| - 1] == evs && evs2[..|evs2| - 1] == evs1;
  }

  lemma ThrownThenCaught(e: Env, s: State, id: nat)
    requires Indexed(s) && id < |s.tasks| && s.tasks[id].phase == Reading
    requires !Stale(s, s.tasks[id]) && !s.tasks[id].timedOut
    requires s.tasks[id].cb.Some? && s.tasks[id].errCb.Some? && !s.tasks[id].failureNotified
    ensures Step(e, Step(e, s, BodyResolves(id, Throws(false))), Catches(id)).log
      == s.log + [Succeeded(id, s.tasks[id].cb.value, true), Failed(id, s.tasks[id].errCb.value)]
  {
    var r := Step(e, s, BodyResolves(id, Throws(false)));
    assert r.log == s.log + [Succeeded(id, s.tasks[id].cb.value, true)];
    assert r.tasks[id].phase == Failing(false);
  }

  // ---------------------------------------------------------------- aborts

  /** A fetch still under way for a task called off or timed out has been told to abort. */
  predicate Signalled(e: Env, t: Task) {
    e.hasAbort && Active(t) && (t.cancelled || t.timedOut) ==> t.aborted
  }

  /** Tasks under way stay so, and keep their abort signal where it is due. */
  predicate Sound(e: Env, s: State, r: State) {
    && |r.tasks| == |s.tasks|
    && (forall k :: 0 <= k < |s.tasks| && Active(s.tasks[k]) ==> Active(r.tasks[k]))
    && (forall k :: 0 <= k < |s.tasks| && Signalled(e, s.tasks[k]) ==> Signalled(e, r.tasks[k]))
  }

  lemma InPlaceSound(e: Env, s: State, ev: Event)
    requires Indexed(s) && Enabled(s, ev)
    requires !ev.EnqueueCall? && !ev.InvalidateCall? && !ev.WakeFires? && !ev.Settles?
    ensures Sound(e, s, Step(e, s, ev))
  {
    hide Respond, SetPhase, DeliverBody, CatchError, TimeoutTask, Sound;
    match ev
    case TimeoutFires(k) => TimeoutSound(e, s, k);
    case FetchResolves(k, a) => RespondSound(e, s, k, a);
    case FetchRejects(k, abort) => PhaseSound(e, s, k, Failing(abort));
    case BodyResolves(k, o) => BodySound(e, s, k, o);
    case BodyRejects(k, abort) => PhaseSound(e, s, k, Failing(abort));
    case Catches(k) => CatchSound(e, s, k);
  }

  lemma PhaseSound(e: Env, s: State, id: nat, p: Phase)
    requires id < |s.tasks| && Active(s.tasks[id]) && p != Queued && p != Released
    ensures Sound(e, s, SetPhase(s, id, p))
  {
  }

  lemma RespondSound(e: Env, s: State, id: nat, a: Answer)
    requires id < |s.tasks| && Active(s.tasks[id])
    ensures Sound(e, s, Respond(e, s, id, a))
  {
  }

  lemma BodySound(e: Env, s: State, id: nat, o: Outcome)
    requires id < |s.tasks| && Active(s.tasks[id])
    ensures Sound(e, s, DeliverBody(s, id, o))
  {
  }

  lemma CatchSound(e: Env, s: State, id: nat)
    requires id < |s.tasks| && s.tasks[id].phase.Failing?
    ensures Sound(e, s, CatchError(s, id))
  {
  }

  lemma TimeoutSound(e: Env, s: State, id: nat)
    requires id < |s.tasks|
    ensures Sound(e, s, TimeoutTask(e, s, id))
  {
  }

  /** The events that do not pump change one task, and never its standing without the signal. */
  lemma SignalledInPlace(e: Env, s: State, ev: Event, id: nat)
    requires forall k :: 0 <= k < |s.tasks| ==> Signalled(e, s.tasks[k])
    requires Indexed(s) && Enabled(s, ev)
    requires !ev.EnqueueCall? && !ev.InvalidateCall? && !ev.WakeFires? && !ev.Settles?
    requires id < |Step(e, s, ev).tasks|
    ensures Signalled(e, Step(e, s, ev).tasks[id])
  {
    InPlaceSound(e, s, ev);
    hide Step;
  }

  lemma SignalledEnqueue(e: Env, s: State, ev: Event, id: nat)
    requires Monotone(e) && Inv(e, s) && ev.EnqueueCall?
    requires forall k :: 0 <= k < |s.tasks| ==> Signalled(e, s.tasks[k])
    requires id < |Step(e, s, ev).tasks|
    ensures Signalled(e, Step(e, s, ev).tasks[id])
  {
    var key := Key(ev.seqNo, ev.path);
    if ev.seqNo == s.currentSeq && key !in s.table {
      AddedInv(e, s, key, ev.cb, ev.errCb);
      SignalledPump(e, Added(s, key, ev.cb, ev.errCb), id);
    }
  }

  lemma SignalledStep(e: Env, s: State, ev: Event, id: nat)
    requires Monotone(e) && Inv(e, s)
    requires forall k :: 0 <= k < |s.tasks| ==> Signalled(e, s.tasks[k])
    requires id < |Step(e, s, ev).tasks|
    ensures Signalled(e, Step(e, s, ev).tasks[id])
  {
    if Enabled(s, ev) {
      match ev
      case EnqueueCall(_, _, _, _) => SignalledEnqueue(e, s, ev, id);
      case InvalidateCall(seqNo) =>
        InvalidatedInv(e, s, seqNo);
        forall k | 0 <= k < |s.tasks| ensures Signalled(e, Invalidated(e, s, seqNo).tasks[k]) {
          assert Signalled(e, s.tasks[k]);
        }
        SignalledPump(e, Invalidated(e, s, seqNo), id);
      case WakeFires =>
        TickInv(e, s, s.(wake := None));
        SignalledPump(e, s.(wake := None), id);
      case Settles(k) =>
        ReleaseInv(e, s, k);
        SignalledPump(e, Release(s, k), id);
      case _ => SignalledInPlace(e, s, ev, id);
    }
  }

  lemma SignalledPump(e: Env, s: State, id: nat)
    requires Monotone(e) && Inv(e, s) && id < |s.tasks|
    requires forall k :: 0 <= k < |s.tasks| ==> Signalled(e, s.tasks[k])
    ensures Signalled(e, Pump(e, s).tasks[id])
  {
    PumpEvolves(e, s);
    assert Evolved(e, s, Pump(e, s), id) && Registered(s, id);
  }

  lemma {:induction false} AbandonedFetchesAreAborted(e: Env, initialSeq: int, evs: seq<Event>, id: nat)
    requires Monotone(e) && id < |Run(e, initialSeq, evs).tasks|
    ensures Signalled(e, Run(e, initialSeq, evs).tasks[id])
  {
    if evs != [] {
      var s := Run(e, initialSeq, evs[..|evs| - 1]);
      RunInv(e, initialSeq, evs[..|evs| - 1]);
      forall k | 0 <= k < |s.tasks| ensures Signalled(e, s.tasks[k]) {
        AbandonedFetchesAreAborted(e, initialSeq, evs[..|evs| - 1], k);
      }
      SignalledStep(e, s, evs[|evs| - 1], id);
    }
  }

  // ---------------------------------------------------------------- slots

  /** A pump takes slots for waiting tasks only; it never takes one from a task that has it. */
  lemma PumpKeepsSlot(e: Env, s: State, id: nat)
    requires Monotone(e) && Inv(e, s) && id < |s.tasks| && Active(s.tasks[id])
    ensures Active(Pump(e, s).tasks[id])
  {
    PumpEvolves(e, s);
    assert Evolved(e, s, Pump(e, s), id);
  }

  lemma InPlaceKeepsSlot(e: Env, s: State, ev: Event, id: nat)
    requires Indexed(s) && Enabled(s, ev) && id < |s.tasks| && Active(s.tasks[id])
    requires !ev.EnqueueCall? && !ev.InvalidateCall? && !ev.WakeFires? && !ev.Settles?
    ensures id < |Step(e, s, ev).tasks| && Active(Step(e, s, ev).tasks[id])
  {
    InPlaceSound(e, s, ev);
    hide Step;
  }

  lemma StepKeepsSlot(e: Env, s: State, ev: Event, id: nat)
    requires Monotone(e) && Inv(e, s) && id < |s.tasks| && Active(s.tasks[id]) && Enabled(s, ev)
    ensures var r := Step(e, s, ev);
      id < |r.tasks| && (Active(r.tasks[id]) <==> ev != Settles(id))
  {
    match ev
    case EnqueueCall(seqNo, path, cb, errCb) =>
      var key := Key(seqNo, path);
      if seqNo == s.currentSeq && key !in s.table {
        AddedInv(e, s, key, cb, errCb);
        PumpKeepsSlot(e, Added(s, key, cb, errCb), id);
      }
    case InvalidateCall(seqNo) =>
      InvalidatedInv(e, s, seqNo);
      PumpKeepsSlot(e, Invalidated(e, s, seqNo), id);
    case WakeFires =>
      TickInv(e, s, s.(wake := None));
      PumpKeepsSlot(e, s.(wake := None), id);
    case Settles(k) =>
      ReleaseInv(e, s, k);
      if k == id {
        PumpEvolves(e, Release(s, k));
        assert Evolved(e, Release(s, k), Pump(e, Release(s, k)), id);
      } else {
        PumpKeepsSlot(e, Release(s, k), id);
      }
    case _ => InPlaceKeepsSlot(e, s, ev, id);
  }

  /** Only settling frees a slot, and it frees its own: a task under way goes on holding its slot
      through timeouts, invalidations and every other event until it settles. */
  lemma SlotsFreedBySettlingOnly(e: Env, initialSeq: int, evs: seq<Event>, ev: Event, id: nat)
    requires Monotone(e) && Enabled(Run(e, initialSeq, evs), ev)
    requires id < |Run(e, initialSeq, evs).tasks| && Active(Run(e, initialSeq, evs).tasks[id])
    ensures var r := Step(e, Run(e, initialSeq, evs), ev);
      id < |r.tasks| && (Active(r.tasks[id]) <==> ev != Settles(id))
  {
    RunInv(e, initialSeq, evs);
    StepKeepsSlot(e, Run(e, initialSeq, evs), ev, id);
  }
}
