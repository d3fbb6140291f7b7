/** The browser request scheduler of internal/web/static/app.js
    (createFetchJSONScheduler), as a state machine over its events.

    Task objects are records in `tasks`; a task's index is its identity, so the queue, the
    key index and the promise chains share tasks by identity as the source does.
    The promise chain of a started task is split into its own steps (response, body, catch,
    settle), so other events may run between any two of them. */
module RequestScheduler {
  import opened Wrappers

  // ---------------------------------------------------------------- data

  /** What the scheduler is given: `clock(i)` is the i-th reading of now(), `fetchThrows(id)` tells
      whether fetching task `id` throws synchronously (and whether the error is an AbortError). */
  datatype Env = Env(
    clock: nat -> nat,
    fetchThrows: nat -> Option<bool>,
    maxConcurrency: nat,
    heavyGapMs: nat,
    timeoutMs: nat,
    hasAbort: bool)

  ghost predicate Monotone(e: Env) {
    forall i: nat, j: nat :: i <= j ==> e.clock(i) <= e.clock(j)
  }

  datatype Key = Key(seqNo: int, path: string)

  /** Where a task stands. Started is `phase != Queued`; released is `phase == Released`.
      Failing and Closing are microtasks already due: no timer can fire before they run. */
  datatype Phase = Queued | Fetching | Reading | Failing(abort: bool) | Closing | Released

  datatype Task = Task(
    key: Key, heavy: bool, cb: Option<nat>, errCb: Option<nat>, phase: Phase,
    timer: bool, aborted: bool, cancelled: bool, timedOut: bool, failureNotified: bool)

  /** What the outside sees: fetches started, 429 deadlines learnt, callbacks run. */
  datatype Output =
    | Started(id: nat, heavy: bool, at: nat)
    | RateLimited(until: nat)
    | Succeeded(id: nat, cb: nat, threw: bool)
    | Failed(id: nat, cb: nat)

  datatype State = State(
    currentSeq: int,
    queue: seq<nat>,
    table: map<Key, nat>,
    tasks: seq<Task>,
    activeCount: nat,
    lastHeavyStartAt: Option<nat>,
    cooldownUntil: nat,
    wake: Option<nat>,
    ticks: nat,
    log: seq<Output>)

  function Init(initialSeq: int): State {
    State(initialSeq, [], map[], [], 0, None, 0, None, 0, [])
  }

  /** The ids held by the queue and the key index name existing tasks. */
  predicate Indexed(s: State) {
    && (forall i :: 0 <= i < |s.queue| ==> s.queue[i] < |s.tasks|)
    && (forall k :: k in s.table ==> s.table[k] < |s.tasks|)
  }

  const HEAVY_PATHS: set<string> := {
    "/api/v1/summary", "/api/v1/ssh/timeline", "/api/v1/firewall/timeline", "/api/v1/attacks/geo",
    "/api/v1/export/attacks_csv", "/api/v1/export/csv", "/api/v1/export/table", "/api/v1/export/creds"}

  function BeforeQuery(path: string): string {
    if path == [] || path[0] == '?' then [] else [path[0]] + BeforeQuery(path[1..])
  }

  predicate IsHeavy(path: string) { BeforeQuery(path) in HEAVY_PATHS }

  predicate Stale(s: State, t: Task) { t.cancelled || t.key.seqNo != s.currentSeq }

  predicate Blocked(e: Env, s: State, t: Task, now: nat) {
    t.heavy && s.lastHeavyStartAt.Some? && now < s.lastHeavyStartAt.value + e.heavyGapMs
  }

  predicate Active(t: Task) { t.phase != Queued && t.phase != Released }

  // ---------------------------------------------------------------- operations

  function ScheduleWake(s: State, at: nat): State {
    if s.queue == [] then s
    else if s.wake.Some? && s.wake.value <= at then s
    else s.(wake := Some(at), ticks := s.ticks + 1)
  }

  function IndexOf(q: seq<nat>, id: nat): (i: int)
    ensures -1 <= i < |q|
    ensures i >= 0 ==> q[i] == id && id !in q[..i]
    ensures i == -1 <==> id !in q
  {
    if q == [] then -1
    else if q[0] == id then 0
    else var r := IndexOf(q[1..], id); if r == -1 then -1 else r + 1
  }

  function RemoveAt(q: seq<nat>, i: nat): (r: seq<nat>)
    requires i < |q|
  {
    q[..i] + q[i + 1..]
  }

  function Unindex(s: State, id: nat): map<Key, nat>
    requires id < |s.tasks|
  {
    var key := s.tasks[id].key;
    if key in s.table && s.table[key] == id then s.table - {key} else s.table
  }

  function RemoveFromQueue(s: State, id: nat): State
    requires id < |s.tasks|
  {
    var i := IndexOf(s.queue, id);
    s.(queue := if i == -1 then s.queue else RemoveAt(s.queue, i), table := Unindex(s, id))
  }

  function NotifyFailure(s: State, id: nat, abort: bool): State
    requires id < |s.tasks|
  {
    var t := s.tasks[id];
    if Stale(s, t) || t.failureNotified then s
    else if abort && !t.timedOut then s
    else s.(tasks := s.tasks[id := t.(failureNotified := true)],
            log := s.log + if t.errCb.Some? then [Failed(id, t.errCb.value)] else [])
  }

  /** timeoutTask: one failure callback, then the abort; the slot stays taken. */
  function TimeoutTask(e: Env, s: State, id: nat): State
    requires id < |s.tasks|
  {
    var t := s.tasks[id];
    if t.phase == Released || t.cancelled || t.timedOut then s
    else
      var s1 := NotifyFailure(s.(tasks := s.tasks[id := t.(timedOut := true)]), id, false);
      s1.(tasks := s1.tasks[id := s1.tasks[id].(aborted := t.aborted || (e.hasAbort && t.phase != Queued))])
  }

  /** finishTask up to its call of pump. */
  function Release(s: State, id: nat): State
    requires id < |s.tasks|
  {
    var t := s.tasks[id];
    if t.phase == Released then s.(tasks := s.tasks[id := t.(timer := false)])
    else
      s.(tasks := s.tasks[id := t.(timer := false, phase := Released, cb := None, errCb := None)],
         activeCount := if s.activeCount > 0 then s.activeCount - 1 else 0,
         table := Unindex(s, id))
  }

  /** The scan of pump: drops stale tasks on the way, stops at the first task free to start. */
  function Scan(e: Env, s: State, i: nat, waitUntil: nat, now: nat): (r: (State, int, nat))
    requires Indexed(s) && i <= |s.queue|
    ensures Indexed(r.0) && -1 <= r.1 < |r.0.queue| <= |s.queue| && |r.0.tasks| == |s.tasks|
    decreases |s.queue| - i
  {
    if i == |s.queue| then (s, -1, waitUntil)
    else
      var t := s.tasks[s.queue[i]];
      if Stale(s, t) then Scan(e, RemoveFromQueue(s, s.queue[i]), i, waitUntil, now)
      else if Blocked(e, s, t, now) then
        var readyAt := s.lastHeavyStartAt.value + e.heavyGapMs;
        Scan(e, s, i + 1, if waitUntil == 0 || readyAt < waitUntil then readyAt else waitUntil, now)
      else (s, i, waitUntil)
  }

  /** The slot, the heavy mark and the timer a task takes when it starts. */
  function Launch(e: Env, s: State, id: nat, now: nat): State
    requires id < |s.tasks|
  {
    var t := s.tasks[id];
    s.(activeCount := s.activeCount + 1,
       lastHeavyStartAt := if t.heavy then Some(e.clock(s.ticks)) else s.lastHeavyStartAt,
       ticks := if t.heavy then s.ticks + 1 else s.ticks,
       tasks := s.tasks[id := t.(phase := Fetching, timer := e.timeoutMs > 0)],
       log := s.log + [Started(id, t.heavy, if t.heavy then e.clock(s.ticks) else now)])
  }

  function StartTask(e: Env, s: State, id: nat, now: nat): (r: State)
    requires Indexed(s) && id < |s.tasks|
    ensures Indexed(r) && |r.queue| <= |s.queue| && |r.tasks| == |s.tasks|
    decreases |s.queue|, 2
  {
    var s1 := Launch(e, s, id, now);
    match e.fetchThrows(id)
    case None => s1
    case Some(abort) => FinishTask(e, CatchError(SetPhase(s1, id, Failing(abort)), id), id)
  }

  function FinishTask(e: Env, s: State, id: nat): (r: State)
    requires Indexed(s) && id < |s.tasks|
    ensures Indexed(r) && |r.queue| <= |s.queue| && |r.tasks| == |s.tasks|
    decreases |s.queue|, 1
  {
    if s.tasks[id].phase == Released then Release(s, id) else Pump(e, Release(s, id))
  }

  function Pump(e: Env, s: State): (r: State)
    requires Indexed(s)
    ensures Indexed(r) && |r.queue| <= |s.queue| && |r.tasks| == |s.tasks|
    decreases |s.queue|, 0, 1
  {
    var now := e.clock(s.ticks);
    var s1 := DisarmDue(s.(ticks := s.ticks + 1), now);
    if now < s1.cooldownUntil then ScheduleWake(s1, s1.cooldownUntil) else PumpLoop(e, s1, now)
  }

  /** A wake timer that is already due is cleared: this very pump does its work. */
  function DisarmDue(s: State, now: nat): State {
    if s.wake.Some? && s.wake.value <= now then s.(wake := None) else s
  }

  function PumpLoop(e: Env, s: State, now: nat): (r: State)
    requires Indexed(s)
    ensures Indexed(r) && |r.queue| <= |s.queue| && |r.tasks| == |s.tasks|
    decreases |s.queue|, 0, 0
  {
    if s.activeCount >= e.maxConcurrency then s
    else
      var (s1, selected, waitUntil) := Scan(e, s, 0, 0, now);
      if selected == -1 then
        if waitUntil != 0 then ScheduleWake(s1, waitUntil) else s1
      else
        var id := s1.queue[selected];
        var s2 := s1.(queue := RemoveAt(s1.queue, selected));
        if !(s2.tasks[id].key in s2.table && s2.table[s2.tasks[id].key] == id) then PumpLoop(e, s2, now)
        else
          var s3 := StartTask(e, s2, id, now);
          PumpLoop(e, s3.(ticks := s3.ticks + 1), e.clock(s3.ticks))
  }

  function Enqueue(e: Env, s: State, seqNo: int, path: string, cb: Option<nat>, errCb: Option<nat>)
    : (r: (State, Option<nat>))
    requires Indexed(s)
    ensures Indexed(r.0)
  {
    var key := Key(seqNo, path);
    if seqNo != s.currentSeq then (s, None)
    else if key in s.table then
      var id := s.table[key];
      var t := s.tasks[id];
      (if t.timedOut then s else s.(tasks := s.tasks[id := t.(cb := cb, errCb := errCb)]), Some(id))
    else
      (Pump(e, Added(s, key, cb, errCb)), Some(|s.tasks|))
  }

  function Added(s: State, key: Key, cb: Option<nat>, errCb: Option<nat>): State {
    var t := Task(key, IsHeavy(key.path), cb, errCb, Queued, false, false, false, false, false);
    s.(tasks := s.tasks + [t], table := s.table[key := |s.tasks|], queue := s.queue + [|s.tasks|])
  }

  function Cancel(e: Env, t: Task): Task {
    t.(cancelled := true, cb := None, errCb := None, aborted := t.aborted || (e.hasAbort && Active(t)))
  }

  /** The queue filter of invalidate. */
  function KeepFresh(s: State, q: seq<nat>): (r: seq<nat>)
    requires forall i :: 0 <= i < |q| ==> q[i] < |s.tasks|
    ensures forall i :: 0 <= i < |r| ==> r[i] in q && !Stale(s, s.tasks[r[i]])
    ensures forall id :: id in q && !Stale(s, s.tasks[id]) ==> id in r
    ensures |r| <= |q|
  {
    if q == [] then []
    else if Stale(s, s.tasks[q[0]]) then KeepFresh(s, q[1..])
    else [q[0]] + KeepFresh(s, q[1..])
  }

  /** Every indexed task of another generation is cancelled and dropped from the index. */
  function CancelOthers(e: Env, s: State, seqNo: int): (r: State)
    requires Indexed(s)
    ensures |r.tasks| == |s.tasks| && r.queue == s.queue
    ensures forall k :: k in r.table ==> k in s.table && r.table[k] == s.table[k]
  {
    s.(currentSeq := seqNo,
       tasks := seq(|s.tasks|, (i: int) requires 0 <= i < |s.tasks| =>
         if i in s.table.Values && s.tasks[i].key.seqNo != seqNo then Cancel(e, s.tasks[i]) else s.tasks[i]),
       table := map k | k in s.table && s.tasks[s.table[k]].key.seqNo == seqNo :: s.table[k])
  }

  function Invalidated(e: Env, s: State, seqNo: int): (r: State)
    requires Indexed(s)
    ensures Indexed(r)
  {
    var s1 := CancelOthers(e, s, seqNo);
    s1.(queue := KeepFresh(s1, s1.queue))
  }

  function Invalidate(e: Env, s: State, seqNo: int): (r: State)
    requires Indexed(s)
    ensures Indexed(r)
  {
    Pump(e, Invalidated(e, s, seqNo))
  }

  // ---------------------------------------------------------------- promise chain

  datatype Answer = Good | TooMany(retryAfterMs: nat) | Bad

  datatype Outcome = Returns | Throws(abort: bool)

  function SetPhase(s: State, id: nat, p: Phase): State
    requires id < |s.tasks|
  {
    s.(tasks := s.tasks[id := s.tasks[id].(phase := p)])
  }

  function Respond(e: Env, s: State, id: nat, a: Answer): State
    requires id < |s.tasks|
  {
    match a
    case Good => SetPhase(s, id, Reading)
    case Bad => SetPhase(s, id, Failing(false))
    case TooMany(retryAfterMs) =>
      var until := e.clock(s.ticks) + retryAfterMs;
      SetPhase(s, id, Failing(false)).(
        ticks := s.ticks + 1,
        cooldownUntil := if until > s.cooldownUntil then until else s.cooldownUntil,
        log := s.log + [RateLimited(until)])
  }

  function DeliverBody(s: State, id: nat, o: Outcome): State
    requires id < |s.tasks|
  {
    var t := s.tasks[id];
    if t.timedOut || Stale(s, t) || t.cb.None? then SetPhase(s, id, Closing)
    else SetPhase(s, id, if o.Throws? then Failing(o.abort) else Closing).(
           log := s.log + [Succeeded(id, t.cb.value, o.Throws?)])
  }

  function CatchError(s: State, id: nat): State
    requires id < |s.tasks| && s.tasks[id].phase.Failing?
  {
    SetPhase(NotifyFailure(s, id, s.tasks[id].phase.abort), id, Closing)
  }

  // ---------------------------------------------------------------- events and runs

  datatype Event =
    | EnqueueCall(seqNo: int, path: string, cb: Option<nat>, errCb: Option<nat>)
    | InvalidateCall(seqNo: int)
    | WakeFires
    | TimeoutFires(id: nat)
    | FetchResolves(id: nat, answer: Answer)
    | FetchRejects(id: nat, abort: bool)
    | BodyResolves(id: nat, outcome: Outcome)
    | BodyRejects(id: nat, abort: bool)
    | Catches(id: nat)
    | Settles(id: nat)

  /** No promise reaction is due: only then may the event loop fire a timer. */
  predicate Quiescent(s: State) {
    forall i :: 0 <= i < |s.tasks| ==> !s.tasks[i].phase.Failing? && s.tasks[i].phase != Closing
  }

  predicate Enabled(s: State, ev: Event) {
    match ev
    case EnqueueCall(_, _, _, _) => true
    case InvalidateCall(_) => true
    case WakeFires => s.wake.Some? && Quiescent(s)
    case TimeoutFires(id) => id < |s.tasks| && s.tasks[id].timer && Quiescent(s)
    case FetchResolves(id, _) => id < |s.tasks| && s.tasks[id].phase == Fetching
    case FetchRejects(id, _) => id < |s.tasks| && s.tasks[id].phase == Fetching
    case BodyResolves(id, _) => id < |s.tasks| && s.tasks[id].phase == Reading
    case BodyRejects(id, _) => id < |s.tasks| && s.tasks[id].phase == Reading
    case Catches(id) => id < |s.tasks| && s.tasks[id].phase.Failing?
    case Settles(id) => id < |s.tasks| && s.tasks[id].phase == Closing
  }

  /** One event; an event that is not enabled leaves the state alone. */
  function Step(e: Env, s: State, ev: Event): (r: State)
    requires Indexed(s)
    ensures Indexed(r)
  {
    if !Enabled(s, ev) then s else
    match ev
    case EnqueueCall(seqNo, path, cb, errCb) => Enqueue(e, s, seqNo, path, cb, errCb).0
    case InvalidateCall(seqNo) => Invalidate(e, s, seqNo)
    case WakeFires => Pump(e, s.(wake := None))
    case TimeoutFires(id) => TimeoutTask(e, s, id)
    case FetchResolves(id, a) => Respond(e, s, id, a)
    case FetchRejects(id, abort) => SetPhase(s, id, Failing(abort))
    case BodyResolves(id, o) => DeliverBody(s, id, o)
    case BodyRejects(id, abort) => SetPhase(s, id, Failing(abort))
    case Catches(id) => CatchError(s, id)
    case Settles(id) => FinishTask(e, s, id)
  }

  function Run(e: Env, initialSeq: int, evs: seq<Event>): (r: State)
    ensures Indexed(r)
  {
    if evs == [] then Init(initialSeq)
    else Step(e, Run(e, initialSeq, evs[..|evs| - 1]), evs[|evs| - 1])
  }
}
