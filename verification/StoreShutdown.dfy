/** Draining and shutdown of the event store, and where System events may be overtaken. */
module StoreShutdown {
  import opened EventStore

  // ---------------------------------------------------------------- drain

  function Total(s: State): nat {
    |Chan(s, Resource)| + |Chan(s, Conn)| + |Chan(s, SSH)| + |Chan(s, FW)|
    + |Chan(s, F2B)| + |Chan(s, Cred)| + |Chan(s, System)|
  }

  function TakeIfAny(s: State, k: Kind): (r: State)
    ensures Total(r) == Total(s) - if Chan(s, k) == [] then 0 else 1
    ensures Chan(s, k) == [] ==> r == s
  {
    if Chan(s, k) != [] then TakeTotal(s, k); Take(s, k) else s
  }

  lemma TakeTotal(s: State, k: Kind)
    requires Chan(s, k) != []
    ensures Total(Take(s, k)) == Total(s) - 1
  {
  }

  /** One pass over the channels, from KINDS[at] on. */
  function Pass(s: State, at: nat): (r: State)
    requires at <= |KINDS|
    ensures Total(r) <= Total(s)
    ensures Total(r) == Total(s) ==> r == s && forall j :: at <= j < |KINDS| ==> Chan(s, KINDS[j]) == []
    decreases |KINDS| - at
  {
    if at == |KINDS| then s else Pass(TakeIfAny(s, KINDS[at]), at + 1)
  }

  /** Channels.Drain with nobody sending: passes until one finds nothing. */
  function Drained(s: State): State
    decreases Total(s)
  {
    var r := Pass(s, 0);
    if Total(r) == Total(s) then s else Drained(r)
  }

  /** A drain empties every channel into the batch, moving nothing out of order. */
  lemma {:induction false} PassMoves(s: State, at: nat, k: Kind)
    requires at <= |KINDS|
    ensures var r := Pass(s, at);
      && Moved(s, r, k) && r == s.(chans := r.chans, pending := r.pending)
      && (Of(s.pending, k) <= Of(r.pending, k))
    decreases |KINDS| - at
  {
    hide Of, Whereabouts;
    if at < |KINDS| {
      TakeIfAnyMoves(s, KINDS[at], k);
      PassMoves(TakeIfAny(s, KINDS[at]), at + 1, k);
    }
  }

  lemma TakeIfAnyMoves(s: State, from: Kind, k: Kind)
    ensures var r := TakeIfAny(s, from);
      Moved(s, r, k) && r == s.(chans := r.chans, pending := r.pending) && Of(s.pending, k) <= Of(r.pending, k)
  {
    hide Of;
    if Chan(s, from) != [] {
      TakeMoves(s, from, k);
      OfSnoc(s.pending, Item(from, Chan(s, from)[0]), k);
    }
  }

  lemma PassAccounts(s: State, k: Kind)
    ensures var r := Pass(s, 0);
      && r == s.(chans := r.chans, pending := r.pending)
      && Of(s.pending, k) + Chan(s, k) == Of(r.pending, k) + Chan(r, k)
  {
    hide Of, Total;
    var r := Pass(s, 0);
    PassMoves(s, 0, k);
    Cancel(Of(s.committed, k), Of(s.pending, k), Chan(s, k), Of(r.pending, k), Chan(r, k));
  }

  lemma PassEmpty(s: State, k: Kind)
    requires Total(Pass(s, 0)) == Total(s)
    ensures Chan(s, k) == []
  {
    EveryKind(k);
  }

  lemma {:induction false} DrainedMoves(s: State, k: Kind)
    ensures var r := Drained(s);
      && r == s.(chans := r.chans, pending := r.pending)
      && Chan(r, k) == [] && Of(r.pending, k) == Of(s.pending, k) + Chan(s, k)
    decreases Total(s)
  {
    hide Of, Chan, Pass;
    if Total(Pass(s, 0)) == Total(s) {
      PassEmpty(s, k);
      assert Of(s.pending, k) + [] == Of(s.pending, k);
    } else {
      PassAccounts(s, k);
      DrainedMoves(Pass(s, 0), k);
    }
  }

  lemma EveryKind(k: Kind)
    ensures exists j :: 0 <= j < |KINDS| && KINDS[j] == k
  {
    assert KINDS[0] == Resource && KINDS[1] == Conn && KINDS[2] == SSH && KINDS[3] == FW;
    assert KINDS[4] == F2B && KINDS[5] == Cred && KINDS[6] == System;
  }

  lemma Cancel(a: seq<nat>, b: seq<nat>, c: seq<nat>, b': seq<nat>, c': seq<nat>)
    requires a + b + c == a + b' + c'
    ensures b + c == b' + c'
  {
    assert (a + b + c)[|a|..] == b + c;
    assert (a + b' + c')[|a|..] == b' + c';
  }

  // ---------------------------------------------------------------- the drain, step by step

  lemma {:induction false} RunFromConcat(c: Config, s: State, a: seq<Action>, b: seq<Action>)
    ensures RunFrom(c, s, a + b) == RunFrom(c, RunFrom(c, s, a), b)
  {
    if b == [] {
      assert a + b == a;
    } else {
      var ab := a + b;
      assert ab[..|ab| - 1] == a + b[..|b| - 1];
      RunFromConcat(c, s, a, b[..|b| - 1]);
    }
  }

  lemma RunOne(c: Config, s: State, acts: seq<Action>, a: Action)
    ensures RunFrom(c, s, acts + [a]) == Step(c, RunFrom(c, s, acts), a)
  {
  }

  function Drains(n: nat, w: Write): seq<Action> {
    if n == 0 then [] else [Drain(w)] + Drains(n - 1, w)
  }

  lemma DrainsFirst(c: Config, s: State, n: nat, w: Write)
    requires n > 0
    ensures RunFrom(c, s, Drains(n, w)) == RunFrom(c, Step(c, s, Drain(w)), Drains(n - 1, w))
  {
    RunFromConcat(c, s, [Drain(w)], Drains(n - 1, w));
    RunOne(c, s, [], Drain(w));
    assert [] + [Drain(w)] == [Drain(w)];
  }

  lemma NoDrains(c: Config, s: State, w: Write)
    ensures RunFrom(c, s, Drains(0, w)) == s
  {
  }

  function At(s: State, at: nat, got: bool, next: Then): State { s.(pc := Draining(at, got, next)) }

  /** The polls of one pass compute Pass. */
  lemma {:induction false} PassSteps(c: Config, s: State, at: nat, got: bool, next: Then, w: Write) returns (got': bool)
    requires at <= |KINDS|
    ensures RunFrom(c, At(s, at, got, next), Drains(|KINDS| - at, w)) == At(Pass(s, at), |KINDS|, got', next)
    ensures got' == (got || Total(Pass(s, at)) < Total(s))
    decreases |KINDS| - at
  {
    hide TakeIfAny, Step, Total;
    got' := got;
    if at < |KINDS| {
      PassFirst(s, at);
      FirstPoll(c, s, at, got, next, |KINDS| - at, w);
      got' := PassSteps(c, TakeIfAny(s, KINDS[at]), at + 1, got || Chan(s, KINDS[at]) != [], next, w);
    }
  }

  lemma FirstPoll(c: Config, s: State, at: nat, got: bool, next: Then, n: nat, w: Write)
    requires at < |KINDS| && n > 0
    ensures RunFrom(c, At(s, at, got, next), Drains(n, w))
      == RunFrom(c, At(TakeIfAny(s, KINDS[at]), at + 1, got || Chan(s, KINDS[at]) != [], next), Drains(n - 1, w))
  {
    DrainsFirst(c, At(s, at, got, next), n, w);
    StepAt(c, s, at, got, next, w);
  }

  lemma PassFirst(s: State, at: nat)
    requires at < |KINDS|
    ensures var t := TakeIfAny(s, KINDS[at]);
      && Pass(s, at) == Pass(t, at + 1)
      && Total(Pass(t, at + 1)) <= Total(t) <= Total(s)
      && (Chan(s, KINDS[at]) != [] <==> Total(t) < Total(s))
  {
  }

  lemma StepAt(c: Config, s: State, at: nat, got: bool, next: Then, w: Write)
    requires at < |KINDS|
    ensures Step(c, At(s, at, got, next), Drain(w))
      == At(TakeIfAny(s, KINDS[at]), at + 1, got || Chan(s, KINDS[at]) != [], next)
  {
  }

  /** The step after a pass that found something starts the next one; after one that did not, it ends. */
  lemma StepAtEnd(c: Config, s: State, next: Then, w: Write)
    ensures Step(c, At(s, |KINDS|, true, next), Drain(w)) == At(s, 0, false, next)
    ensures Step(c, At(s, |KINDS|, false, next), Drain(w)) == EndDrain(c, At(s, |KINDS|, false, next), next, w)
  {
  }

  lemma DrainedAgain(s: State)
    ensures Total(Pass(s, 0)) < Total(s) ==> Drained(s) == Drained(Pass(s, 0))
    ensures Total(Pass(s, 0)) >= Total(s) ==> Drained(s) == s && Pass(s, 0) == s
  {
  }

  /** With nobody sending, polling again and again ends, and computes Drained followed by what comes next. */
  lemma {:induction false} DrainEnds(c: Config, s: State, next: Then, w: Write) returns (n: nat)
    ensures RunFrom(c, At(s, 0, false, next), Drains(n, w))
      == EndDrain(c, At(Drained(s), |KINDS|, false, next), next, w)
    decreases Total(s)
  {
    hide Step, EndDrain, Total;
    var r := Pass(s, 0);
    var got := PassSteps(c, s, 0, false, next, w);
    var mid := At(r, |KINDS|, got, next);
    StepAtEnd(c, r, next, w);
    DrainedAgain(s);
    if got {
      var m := DrainEnds(c, r, next, w);
      n := |KINDS| + 1 + m;
      OneMore(c, At(s, 0, false, next), mid, m, w);
    } else {
      n := |KINDS| + 1;
      OneMore(c, At(s, 0, false, next), mid, 0, w);
      NoDrains(c, Step(c, mid, Drain(w)), w);
    }
  }

  /** A pass, the step after it, and m more steps. */
  lemma OneMore(c: Config, s: State, mid: State, m: nat, w: Write)
    requires RunFrom(c, s, Drains(|KINDS|, w)) == mid
    ensures RunFrom(c, s, Drains(|KINDS| + 1 + m, w)) == RunFrom(c, Step(c, mid, Drain(w)), Drains(m, w))
  {
    DrainsSplit(c, s, |KINDS|, m + 1, w);
    DrainsFirst(c, mid, m + 1, w);
  }

  lemma {:induction false} DrainsSplit(c: Config, s: State, m: nat, n: nat, w: Write)
    ensures RunFrom(c, s, Drains(m + n, w)) == RunFrom(c, RunFrom(c, s, Drains(m, w)), Drains(n, w))
    decreases m
  {
    if m > 0 {
      DrainsFirst(c, s, m + n, w);
      DrainsFirst(c, s, m, w);
      DrainsSplit(c, Step(c, s, Drain(w)), m - 1, n, w);
    }
  }

  // ---------------------------------------------------------------- between turns

  /** Whenever the select loop waits, the batch is not full: one transaction is enough for a turn. */
  predicate BetweenTurns(c: Config, s: State) {
    s.pc == Selecting ==> |s.pending| < c.batchSize || s.pending == []
  }

  lemma EndTurnBetween(c: Config, s: State, w: Write)
    ensures BetweenTurns(c, EndTurn(c, s, w))
  {
  }

  lemma StepBetween(c: Config, s: State, a: Action)
    requires BetweenTurns(c, s)
    ensures BetweenTurns(c, Step(c, s, a))
  {
    if Enabled(c, s, a) {
      hide Flush, EndTurn, Accept, Report, Take, BetweenTurns;
      match a
      case Tick(w) => EndTurnBetween(c, Flush(c, s, w).0, w);
      case Recv(k, w) =>
        if k == System {
          EndTurnBetween(c, Received(s, System).(committed := s.committed + [Item(System, Chan(s, System)[0])]), w);
        } else {
          EndTurnBetween(c, Take(s, k), w);
        }
      case RetentionEnd(w) => EndTurnBetween(c, s.(pc := Selecting), w);
      case _ =>
    }
  }

  lemma {:induction false} RunBetween(c: Config, acts: seq<Action>)
    ensures BetweenTurns(c, Run(c, acts))
  {
    if acts != [] {
      RunBetween(c, acts[..|acts| - 1]);
      StepBetween(c, Run(c, acts[..|acts| - 1]), acts[|acts| - 1]);
    }
  }

  // ---------------------------------------------------------------- shutdown

  /** What the shutdown drain has established so far; reports on System may come at any time. */
  ghost predicate ShuttingDown(s: State) {
    && (s.pc.Draining? ==> s.pc.at <= |KINDS|)
    && (s.pc.Draining? && s.pc.next == ShutDown ==> !s.producing)
    && (s.pc.Draining? && s.pc.next == ShutDown && !s.pc.got ==> EmptyTo(s, s.pc.at))
    && (s.pc == Returned ==> !s.producing && s.pending == [] && EmptyTo(s, SIX))
  }

  /** System is the last channel of the drain order. */
  const SIX: nat := 6

  /** Of the six channels before System, the first n in drain order are empty. */
  ghost predicate EmptyTo(s: State, n: nat) {
    forall j :: 0 <= j < n && j < SIX ==> Chan(s, KINDS[j]) == []
  }

  /** The note about file modes that the flush of the shutdown leaves on the System channel. */
  predicate LeavesNote(s: State, w: Write) {
    s.pending != [] && !s.chmodDone && !w.chmodOk
  }

  function Noted(c: Config, ch: seq<nat>, s: State, w: Write): seq<nat> {
    if LeavesNote(s, w) && |ch| < c.capacity then ch + [w.note] else ch
  }

  lemma EndDrainShutsDown(c: Config, s: State, w: Write)
    requires !s.producing && EmptyTo(s, |KINDS|)
    ensures var r := EndDrain(c, s, ShutDown, w);
      && ShuttingDown(r)
      && (r.pc == Returned <==> s.pending == [] || w.ok)
      && (r.pc == Returned ==> Chan(r, System) == Noted(c, Chan(s, System), s, w))
  {
    var r := EndDrain(c, s, ShutDown, w);
    assert forall k :: k != System ==> Chan(r, k) == Chan(s, k);
    assert forall j :: 0 <= j < SIX ==> KINDS[j] != System;
  }

  lemma DrainStepShutsDown(c: Config, s: State, w: Write)
    requires ShuttingDown(s) && s.pc.Draining?
    ensures ShuttingDown(DrainStep(c, s, w))
  {
    var Draining(at, got, next) := s.pc;
    if at == |KINDS| && !got && next == ShutDown { EndDrainShutsDown(c, s, w); }
  }

  /** The select loop's own steps stay in it, or fail. */
  lemma TurnsShutDown(c: Config, s: State, k: Kind, w: Write)
    requires s.pc == Selecting || s.pc == Cleaning
    ensures s.pc == Selecting ==> ShuttingDown(Ticked(c, s, w))
    ensures s.pc == Selecting && Chan(s, k) != [] ==> ShuttingDown(Receive(c, s, k, w))
    ensures s.pc == Cleaning ==> ShuttingDown(Resumed(c, s, w))
  {
    hide EndTurn, Flush, Take;
    FlushStays(c, s, w);
    TurnStays(c, Flush(c, s, w).0, w);
    TurnStays(c, s.(pc := Selecting), w);
    if Chan(s, k) != [] {
      TakeStays(s, k);
      TurnStays(c, Take(s, k), w);
      var s1 := s.(chans := s.chans[System := Chan(s, System)[if Chan(s, System) == [] then 0 else 1..]]);
      TurnStays(c, s1.(committed := s1.committed + [Item(System, Chan(s, k)[0])]), w);
    }
  }

  lemma TakeStays(s: State, k: Kind)
    requires Chan(s, k) != []
    ensures Take(s, k).pc == s.pc
  {
  }

  lemma TurnStays(c: Config, s: State, w: Write)
    ensures var r := EndTurn(c, s, w); r.pc == s.pc || r.pc == Failed
  {
  }

  lemma ReportShutsDown(c: Config, s: State, v: nat)
    requires ShuttingDown(s)
    ensures ShuttingDown(Report(c, s, v))
  {
    var r := Report(c, s, v);
    assert forall k :: k != System ==> Chan(r, k) == Chan(s, k);
    assert forall j :: 0 <= j < SIX ==> KINDS[j] != System;
  }

  lemma StepShutsDown(c: Config, s: State, a: Action)
    requires ShuttingDown(s)
    ensures ShuttingDown(Step(c, s, a))
  {
    if Enabled(c, s, a) {
      hide Ticked, Receive, Resumed, DrainStep, Report;
      match a
      case Drain(w) => DrainStepShutsDown(c, s, w);
      case Tick(w) => TurnsShutDown(c, s, System, w);
      case Recv(k, w) => TurnsShutDown(c, s, k, w);
      case RetentionEnd(w) => TurnsShutDown(c, s, System, w);
      case SysReport(v) => ReportShutsDown(c, s, v);
      case _ =>
    }
  }

  lemma {:induction false} RunShutsDown(c: Config, acts: seq<Action>)
    ensures ShuttingDown(Run(c, acts))
  {
    if acts != [] {
      RunShutsDown(c, acts[..|acts| - 1]);
      StepShutsDown(c, Run(c, acts[..|acts| - 1]), acts[|acts| - 1]);
    }
  }

  /** A clean return: everything the six channels accepted is committed, in order, and nothing is
      pending; what System accepted is committed or still in its channel. */
  lemma CleanReturn(c: Config, acts: seq<Action>, k: Kind)
    requires Run(c, acts).pc == Returned
    ensures var s := Run(c, acts);
      && !s.producing && s.pending == []
      && (k != System ==> Chan(s, k) == [] && Of(s.committed, k) == Of(s.accepted, k))
      && multiset(Of(s.accepted, System)) == multiset(Of(s.committed, System)) + multiset(Chan(s, System))
  {
    var s := Run(c, acts);
    RunShutsDown(c, acts);
    NothingLost(c, acts, k);
    if k != System {
      EveryKind(k);
      var j :| 0 <= j < |KINDS| && KINDS[j] == k;
      assert j < SIX && Chan(s, KINDS[j]) == [];
      assert Of([], k) == [];
      assert Of(s.committed, k) + [] + [] == Of(s.committed, k);
    }
    assert Of([], System) == [];
  }

  /** Exactly when the last step of a shutdown returns, and exactly what it adds to the System channel:
      the note, if the flush is the first ever, finds work, and fails to tighten the file modes. */
  lemma ReturnExact(c: Config, acts: seq<Action>, w: Write)
    requires Run(c, acts).pc == Draining(|KINDS|, false, ShutDown)
    ensures var s, r := Run(c, acts), Run(c, acts + [Drain(w)]);
      && (r.pc == Returned <==> s.pending == [] || w.ok)
      && (r.pc == Returned ==> Chan(r, System) == Noted(c, Chan(s, System), s, w))
  {
    RunShutsDown(c, acts);
    RunOne(c, Init(), acts, Drain(w));
    EndDrainShutsDown(c, Run(c, acts), w);
  }
}
