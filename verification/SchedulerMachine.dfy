/** The scheduler as the source writes it: closure variables updated in place, loops over the queue.
    Every method is shown to compute the transition of RequestScheduler with the same name. */
module SchedulerMachine {
  import opened Wrappers
  import S = RequestScheduler

  lemma {:induction false} FirstIndex(q: seq<nat>, id: nat, i: nat)
    requires i < |q| && q[i] == id && id !in q[..i]
    ensures S.IndexOf(q, id) == i
  {
  }

  lemma KeepFreshStep(s: S.State, q: seq<nat>, kept: seq<nat>, i: nat)
    requires i < |q| && forall k :: 0 <= k < |q| ==> q[k] < |s.tasks|
    ensures kept + S.KeepFresh(s, q[i..])
      == (if S.Stale(s, s.tasks[q[i]]) then kept else kept + [q[i]]) + S.KeepFresh(s, q[i + 1..])
  {
  }

  /** What one turn of pump's inner loop does to the scan. */
  lemma ScanStep(e: S.Env, s: S.State, i: nat, waitUntil: nat, now: nat)
    requires S.Indexed(s) && i < |s.queue|
    ensures s.queue[i] < |s.tasks|
    ensures var t := s.tasks[s.queue[i]];
      var out := S.RemoveFromQueue(s, s.queue[i]);
      if S.Stale(s, t) then
        && S.Indexed(out) && |out.queue| == |s.queue| - 1 && i <= |out.queue|
        && S.Scan(e, s, i, waitUntil, now) == S.Scan(e, out, i, waitUntil, now)
      else if S.Blocked(e, s, t, now) then
        var readyAt := s.lastHeavyStartAt.value + e.heavyGapMs;
        S.Scan(e, s, i, waitUntil, now)
          == S.Scan(e, s, i + 1, if waitUntil == 0 || readyAt < waitUntil then readyAt else waitUntil, now)
      else S.Scan(e, s, i, waitUntil, now) == (s, i, waitUntil)
  {
    RemoveIndexed(s, i);
    hide S.RemoveFromQueue, S.Indexed;
  }

  lemma RemoveIndexed(s: S.State, i: nat)
    requires S.Indexed(s) && i < |s.queue|
    ensures s.queue[i] < |s.tasks|
    ensures var out := S.RemoveFromQueue(s, s.queue[i]);
      S.Indexed(out) && |out.queue| == |s.queue| - 1 && |out.tasks| == |s.tasks|
  {
    assert s.queue[i] in s.queue;
  }

  lemma ScanEnds(e: S.Env, s: S.State, waitUntil: nat, now: nat)
    requires S.Indexed(s)
    ensures S.Scan(e, s, |s.queue|, waitUntil, now) == (s, -1, waitUntil)
  {
  }

  /** Pump up to its outer loop, and where the loop ends for want of a slot. */
  lemma PumpStarts(e: S.Env, s: S.State)
    requires S.Indexed(s)
    ensures var now := e.clock(s.ticks);
      var s1 := S.DisarmDue(s.(ticks := s.ticks + 1), now);
      S.Pump(e, s) ==
        if now < s1.cooldownUntil then S.ScheduleWake(s1, s1.cooldownUntil) else S.PumpLoop(e, s1, now)
  {
  }

  lemma LoopFull(e: S.Env, s: S.State, now: nat)
    requires S.Indexed(s) && s.activeCount >= e.maxConcurrency
    ensures S.PumpLoop(e, s, now) == s
  {
  }

  /** What one turn of pump's outer loop does. */
  lemma LoopTurn(e: S.Env, s: S.State, now: nat)
    requires S.Indexed(s) && s.activeCount < e.maxConcurrency
    ensures var (s1, selected, waitUntil) := S.Scan(e, s, 0, 0, now);
      if selected == -1 then
        S.PumpLoop(e, s, now) == if waitUntil != 0 then S.ScheduleWake(s1, waitUntil) else s1
      else
        var s2 := s1.(queue := S.RemoveAt(s1.queue, selected));
        var id := s1.queue[selected];
        && S.Indexed(s2) && id < |s2.tasks|
        && if !(s2.tasks[id].key in s2.table && s2.table[s2.tasks[id].key] == id)
           then S.PumpLoop(e, s, now) == S.PumpLoop(e, s2, now)
           else
             var s3 := S.StartTask(e, s2, id, now);
             S.PumpLoop(e, s, now) == S.PumpLoop(e, s3.(ticks := s3.ticks + 1), e.clock(s3.ticks))
  {
    hide S.Scan, S.StartTask, S.ScheduleWake, S.Stale, S.Blocked;
  }

  /** The sweep of invalidate with the entries of `keys` still to be visited. */
  ghost function Swept(e: S.Env, s: S.State, seqNo: int, keys: set<S.Key>): S.State {
    s.(currentSeq := seqNo,
       tasks := seq(|s.tasks|, (i: int) requires 0 <= i < |s.tasks| =>
         if Doomed(s, seqNo, i) && s.tasks[i].key !in keys then S.Cancel(e, s.tasks[i]) else s.tasks[i]),
       table := map k | k in s.table && (k in keys || k.seqNo == seqNo) :: s.table[k])
  }

  ghost predicate Doomed(s: S.State, seqNo: int, i: nat)
    requires i < |s.tasks|
  {
    var key := s.tasks[i].key;
    key in s.table && s.table[key] == i && key.seqNo != seqNo
  }

  ghost predicate OwnKeys(s: S.State) {
    S.Indexed(s) && forall k :: k in s.table ==> s.tasks[s.table[k]].key == k
  }

  lemma SweepStep(e: S.Env, s: S.State, seqNo: int, keys: set<S.Key>, key: S.Key)
    requires OwnKeys(s) && keys <= s.table.Keys && key in keys
    ensures var a, b := Swept(e, s, seqNo, keys), Swept(e, s, seqNo, keys - {key});
      && key in a.table && a.table[key] < |a.tasks| && a.tasks[a.table[key]].key == key
      && b == if key.seqNo != seqNo
              then a.(tasks := a.tasks[a.table[key] := S.Cancel(e, a.tasks[a.table[key]])], table := a.table - {key})
              else a
  {
    var a, b := Swept(e, s, seqNo, keys), Swept(e, s, seqNo, keys - {key});
    var id := s.table[key];
    assert a.tasks[id] == s.tasks[id];
    if key.seqNo != seqNo {
      assert b.tasks == a.tasks[id := S.Cancel(e, a.tasks[id])];
      assert b.table == a.table - {key};
    } else {
      assert b.tasks == a.tasks;
      assert b.table == a.table;
    }
  }

  lemma SweepEnds(e: S.Env, s: S.State, seqNo: int)
    requires OwnKeys(s)
    ensures Swept(e, s, seqNo, {}) == S.CancelOthers(e, s, seqNo)
    ensures Swept(e, s, seqNo, s.table.Keys) == s.(currentSeq := seqNo)
  {
    var a, b := Swept(e, s, seqNo, {}), S.CancelOthers(e, s, seqNo);
    forall i | 0 <= i < |s.tasks| ensures a.tasks[i] == b.tasks[i] {
      if i in s.table.Values {
        var k :| k in s.table && s.table[k] == i;
      }
    }
    assert a.tasks == b.tasks;
    assert a.table == b.table;
    assert Swept(e, s, seqNo, s.table.Keys).tasks == s.tasks;
    assert Swept(e, s, seqNo, s.table.Keys).table == s.table;
  }

  class Scheduler {
    const env: S.Env
    var currentSeq: int
    var queue: seq<nat>
    var tasksByKey: map<S.Key, nat>
    var tasks: seq<S.Task>
    var activeCount: nat
    var lastHeavyStartAt: Option<nat>
    var cooldownUntil: nat
    var wake: Option<nat>
    var ticks: nat
    var outputs: seq<S.Output>

    ghost function View(): S.State
      reads this
    {
      S.State(currentSeq, queue, tasksByKey, tasks, activeCount, lastHeavyStartAt, cooldownUntil, wake, ticks, outputs)
    }

    ghost predicate Valid()
      reads this
    {
      S.Indexed(View())
    }

    constructor (env: S.Env, initialSeq: int)
      ensures this.env == env && Valid() && View() == S.Init(initialSeq)
    {
      this.env := env;
      currentSeq, queue, tasksByKey, tasks, activeCount := initialSeq, [], map[], [], 0;
      lastHeavyStartAt, cooldownUntil, wake, ticks, outputs := None, 0, None, 0, [];
    }

    /** now(): the next reading of the clock. */
    method Now() returns (t: nat)
      modifies this
      ensures t == env.clock(old(ticks))
      ensures View() == old(View()).(ticks := old(ticks) + 1)
      ensures old(Valid()) ==> Valid()
    {
      t := env.clock(ticks);
      ticks := ticks + 1;
    }

    method ScheduleWake(at: nat)
      modifies this
      ensures View() == S.ScheduleWake(old(View()), at)
    {
      if queue == [] { return; }
      if wake.Some? && wake.value <= at { return; }
      wake := Some(at);
      var _ := Now();
    }

    method RemoveFromQueue(id: nat)
      requires id < |tasks|
      modifies this
      ensures View() == S.RemoveFromQueue(old(View()), id)
    {
      var idx := 0;
      while idx < |queue| && queue[idx] != id
        invariant idx <= |queue| && id !in queue[..idx]
        invariant View() == old(View())
      {
        idx := idx + 1;
      }
      if idx < |queue| { FirstIndex(queue, id, idx); }
      if idx < |queue| {
        queue := queue[..idx] + queue[idx + 1..];
      }
      Unindex(id);
    }

    method Unindex(id: nat)
      requires id < |tasks|
      modifies this
      ensures View() == old(View()).(table := S.Unindex(old(View()), id))
    {
      var key := tasks[id].key;
      if key in tasksByKey && tasksByKey[key] == id {
        tasksByKey := tasksByKey - {key};
      }
    }

    method NotifyFailure(id: nat, abort: bool)
      requires id < |tasks|
      modifies this
      ensures View() == S.NotifyFailure(old(View()), id, abort)
    {
      var t := tasks[id];
      if t.cancelled || t.key.seqNo != currentSeq || t.failureNotified { return; }
      if abort && !t.timedOut { return; }
      tasks := tasks[id := t.(failureNotified := true)];
      if t.errCb.Some? {
        outputs := outputs + [S.Failed(id, t.errCb.value)];
      }
    }

    method TimeoutTask(id: nat)
      requires id < |tasks|
      modifies this
      ensures View() == S.TimeoutTask(env, old(View()), id)
    {
      var t := tasks[id];
      if t.phase == S.Released || t.cancelled || t.timedOut { return; }
      tasks := tasks[id := t.(timedOut := true)];
      NotifyFailure(id, false);
      if env.hasAbort && t.phase != S.Queued {
        tasks := tasks[id := tasks[id].(aborted := true)];
      }
    }

    method FinishTask(id: nat)
      requires Valid() && id < |tasks|
      modifies this
      ensures Valid() && View() == S.FinishTask(env, old(View()), id)
      decreases |queue|, 2
    {
      var wasReleased := tasks[id].phase == S.Released;
      ReleaseTask(id);
      if wasReleased { return; }
      Pump();
    }

    /** finishTask up to its call of pump. */
    method ReleaseTask(id: nat)
      requires id < |tasks|
      modifies this
      ensures View() == S.Release(old(View()), id)
    {
      var t := tasks[id];
      tasks := tasks[id := t.(timer := false)];
      if t.phase == S.Released { return; }
      activeCount := if activeCount > 0 then activeCount - 1 else 0;
      Unindex(id);
      tasks := tasks[id := t.(timer := false, phase := S.Released, cb := None, errCb := None)];
    }

    method StartTask(id: nat, now: nat)
      requires Valid() && id < |tasks|
      modifies this
      ensures Valid() && |queue| <= old(|queue|) && View() == S.StartTask(env, old(View()), id, now)
      decreases |queue|, 3
    {
      Launch(id, now);
      if env.fetchThrows(id).Some? {
        var abort := env.fetchThrows(id).value;
        tasks := tasks[id := tasks[id].(phase := S.Failing(abort))];
        OnError(id);
        FinishTask(id);
      }
    }

    /** startTask up to the fetch: the slot, the heavy mark, the timeout timer. */
    method Launch(id: nat, now: nat)
      requires id < |tasks|
      modifies this
      ensures View() == S.Launch(env, old(View()), id, now)
    {
      var t := tasks[id];
      activeCount := activeCount + 1;
      var at := now;
      if t.heavy {
        at := Now();
        lastHeavyStartAt := Some(at);
      }
      tasks := tasks[id := t.(phase := S.Fetching, timer := env.timeoutMs > 0)];
      outputs := outputs + [S.Started(id, t.heavy, at)];
    }

    /** The inner loop of pump. */
    method SelectNext(now: nat) returns (selected: int, waitUntil: nat)
      requires Valid()
      modifies this
      ensures Valid() && |queue| <= old(|queue|) && (selected == -1 || 0 <= selected < |queue|)
      ensures (View(), selected, waitUntil) == S.Scan(env, old(View()), 0, 0, now)
    {
      hide S.RemoveFromQueue, S.Indexed, S.Scan;
      selected, waitUntil := -1, 0;
      var i := 0;
      while i < |queue|
        invariant Valid() && i <= |queue| <= old(|queue|) && selected == -1
        invariant S.Scan(env, old(View()), 0, 0, now) == S.Scan(env, View(), i, waitUntil, now)
        decreases |queue| - i
      {
        ScanStep(env, View(), i, waitUntil, now);
        var candidate := tasks[queue[i]];
        if candidate.cancelled || candidate.key.seqNo != currentSeq {
          RemoveFromQueue(queue[i]);
        } else if candidate.heavy && lastHeavyStartAt.Some? && now < lastHeavyStartAt.value + env.heavyGapMs {
          var heavyReadyAt := lastHeavyStartAt.value + env.heavyGapMs;
          if waitUntil == 0 || heavyReadyAt < waitUntil { waitUntil := heavyReadyAt; }
          i := i + 1;
        } else {
          selected := i;
          return;
        }
      }
      ScanEnds(env, View(), waitUntil, now);
    }

    method Pump()
      requires Valid()
      modifies this
      ensures Valid() && |queue| <= old(|queue|) && View() == S.Pump(env, old(View()))
      decreases |queue|, 1
    {
      hide S.Pump, S.PumpLoop;
      PumpStarts(env, View());
      var currentNow: nat := Now();
      if wake.Some? && wake.value <= currentNow { wake := None; }
      assert View() == S.DisarmDue(old(View()).(ticks := old(ticks) + 1), currentNow);
      if currentNow < cooldownUntil {
        ScheduleWake(cooldownUntil);
        return;
      }
      ghost var start, startNow := View(), currentNow;
      while activeCount < env.maxConcurrency
        invariant Valid() && |queue| <= old(|queue|)
        invariant S.PumpLoop(env, start, startNow) == S.PumpLoop(env, View(), currentNow)
        decreases |queue|
      {
        var more: bool;
        more, currentNow := StartNext(currentNow);
        if !more { return; }
      }
      LoopFull(env, View(), currentNow);
    }

    /** One turn of pump's loop: false when nothing can start now. */
    method StartNext(now: nat) returns (more: bool, later: nat)
      requires Valid() && activeCount < env.maxConcurrency
      modifies this
      ensures Valid() && |queue| <= old(|queue|)
      ensures more ==> |queue| < old(|queue|) && S.PumpLoop(env, old(View()), now) == S.PumpLoop(env, View(), later)
      ensures !more ==> View() == S.PumpLoop(env, old(View()), now)
      decreases |queue|, 0
    {
      hide S.PumpLoop, S.Scan, S.StartTask, S.ScheduleWake, S.Indexed;
      LoopTurn(env, View(), now);
      later := now;
      var selected, waitUntil := SelectNext(now);
      if selected == -1 {
        if waitUntil != 0 { ScheduleWake(waitUntil); }
        return false, later;
      }
      var id := queue[selected];
      queue := queue[..selected] + queue[selected + 1..];
      if tasks[id].key in tasksByKey && tasksByKey[tasks[id].key] == id {
        StartTask(id, now);
        later := Now();
      }
      return true, later;
    }

    method Enqueue(seqNo: int, path: string, cb: Option<nat>, errCb: Option<nat>) returns (task: Option<nat>)
      requires Valid()
      modifies this
      ensures Valid() && (View(), task) == S.Enqueue(env, old(View()), seqNo, path, cb, errCb)
    {
      if seqNo != currentSeq { return None; }
      var key := S.Key(seqNo, path);
      if key in tasksByKey {
        var id := tasksByKey[key];
        if !tasks[id].timedOut {
          tasks := tasks[id := tasks[id].(cb := cb, errCb := errCb)];
        }
        return Some(id);
      }
      var id := |tasks|;
      tasks := tasks + [S.Task(key, S.IsHeavy(path), cb, errCb, S.Queued, false, false, false, false, false)];
      tasksByKey := tasksByKey[key := id];
      queue := queue + [id];
      assert View() == S.Added(old(View()), key, cb, errCb);
      Pump();
      return Some(id);
    }

    /** The sweep of invalidate over the key index, in any order of its keys. */
    method CancelOthers(seqNo: int)
      requires OwnKeys(View())
      modifies this
      ensures Valid() && View() == S.CancelOthers(env, old(View()), seqNo)
    {
      currentSeq := seqNo;
      ghost var s := old(View());
      var keys := tasksByKey.Keys;
      SweepEnds(env, s, seqNo);
      while keys != {}
        invariant keys <= s.table.Keys
        invariant View() == Swept(env, s, seqNo, keys)
        decreases |keys|
      {
        var key :| key in keys;
        SweepStep(env, s, seqNo, keys, key);
        keys := keys - {key};
        var id := tasksByKey[key];
        if tasks[id].key.seqNo != seqNo {
          tasks := tasks[id := S.Cancel(env, tasks[id])];
          tasksByKey := tasksByKey - {key};
        }
      }
    }

    method FilterQueue()
      requires Valid()
      modifies this
      ensures View() == old(View()).(queue := S.KeepFresh(old(View()), old(queue)))
    {
      ghost var s1 := View();
      var q, kept, i := queue, [], 0;
      assert q[0..] == q;
      while i < |q|
        invariant i <= |q| && View() == s1
        invariant S.KeepFresh(s1, q) == kept + S.KeepFresh(s1, q[i..])
      {
        var t := tasks[q[i]];
        KeepFreshStep(s1, q, kept, i);
        if t.key.seqNo == currentSeq && !t.cancelled { kept := kept + [q[i]]; }
        i := i + 1;
      }
      assert q[i..] == [];
      queue := kept;
    }

    method Invalidate(seqNo: int)
      requires OwnKeys(View())
      modifies this
      ensures Valid() && View() == S.Invalidate(env, old(View()), seqNo)
    {
      CancelOthers(seqNo);
      FilterQueue();
      assert View() == S.Invalidated(env, old(View()), seqNo);
      Pump();
    }

    /** The first `then` of the promise chain: a bad answer rejects, a 429 also sets the cooldown. */
    method OnResponse(id: nat, answer: S.Answer)
      requires id < |tasks|
      modifies this
      ensures View() == S.Respond(env, old(View()), id, answer)
    {
      if answer.Good? {
        tasks := tasks[id := tasks[id].(phase := S.Reading)];
        return;
      }
      if answer.TooMany? {
        var t := Now();
        var nextCooldown := t + answer.retryAfterMs;
        if nextCooldown > cooldownUntil { cooldownUntil := nextCooldown; }
        outputs := outputs + [S.RateLimited(nextCooldown)];
      }
      tasks := tasks[id := tasks[id].(phase := S.Failing(false))];
    }

    /** The second `then`: the success callback, unless the task was called off meanwhile. */
    method OnBody(id: nat, outcome: S.Outcome)
      requires id < |tasks|
      modifies this
      ensures View() == S.DeliverBody(old(View()), id, outcome)
    {
      var t := tasks[id];
      var next := S.Closing;
      if !(t.cancelled || t.timedOut || t.key.seqNo != currentSeq) && t.cb.Some? {
        outputs := outputs + [S.Succeeded(id, t.cb.value, outcome.Throws?)];
        if outcome.Throws? { next := S.Failing(outcome.abort); }
      }
      tasks := tasks[id := t.(phase := next)];
    }

    /** The `catch` of the promise chain. */
    method OnError(id: nat)
      requires id < |tasks| && tasks[id].phase.Failing?
      modifies this
      ensures View() == S.CatchError(old(View()), id)
    {
      NotifyFailure(id, tasks[id].phase.abort);
      tasks := tasks[id := tasks[id].(phase := S.Closing)];
    }
  }
}
