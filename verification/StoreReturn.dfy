/** How a drain comes to an end while others go on sending, and what a clean return leaves behind. */
module StoreReturn {
  import opened EventStore
  import opened StoreShutdown

  // ---------------------------------------------------------------- every drain ends

  /** How many steps a drain has left if nothing more arrives. */
  function Rank(s: State): nat
    requires s.pc.Draining? && s.pc.at <= |KINDS|
  {
    16 * Total(s) + (if s.pc.got then 8 else 0) + 8 - s.pc.at
  }

  function Polls(acts: seq<Action>): nat {
    if acts == [] then 0 else Polls(acts[..|acts| - 1]) + if acts[|acts| - 1].Drain? then 1 else 0
  }

  /** The sends and reports of others. */
  function Arrivals(acts: seq<Action>): nat {
    if acts == [] then 0
    else Arrivals(acts[..|acts| - 1]) + if acts[|acts| - 1].Send? || acts[|acts| - 1].SysReport? then 1 else 0
  }

  lemma PollRank(c: Config, s: State, w: Write)
    requires s.pc.Draining? && s.pc.at <= |KINDS|
    ensures var r := DrainStep(c, s, w);
      r.pc.Draining? ==> r.pc.at <= |KINDS| && r.pc.next == s.pc.next && Rank(r) < Rank(s)
  {
    var Draining(at, got, next) := s.pc;
    if at < |KINDS| && Chan(s, KINDS[at]) != [] {
      TakeTotal(s, KINDS[at]);
      SameTotal(Take(s, KINDS[at]), DrainStep(c, s, w));
    } else if at < |KINDS| || got {
      SameTotal(s, DrainStep(c, s, w));
    } else {
      EndsDraining(c, s, next, w);
    }
  }

  lemma EndsDraining(c: Config, s: State, next: Then, w: Write)
    ensures !EndDrain(c, s, next, w).pc.Draining?
  {
  }

  lemma SameTotal(s: State, r: State)
    requires r.chans == s.chans
    ensures Total(r) == Total(s)
  {
  }

  lemma AcceptTotal(s: State, k: Kind, v: nat)
    ensures Total(Accept(s, k, v)) == Total(s) + 1
  {
    var r := Accept(s, k, v);
    assert forall q :: Chan(r, q) == if q == k then Chan(s, k) + [v] else Chan(s, q);
  }

  lemma OtherRank(c: Config, s: State, a: Action)
    requires s.pc.Draining? && s.pc.at <= |KINDS| && !a.Drain?
    ensures var r := Step(c, s, a);
      r.pc == s.pc && Rank(r) <= Rank(s) + if a.Send? || a.SysReport? then 16 else 0
  {
    match a
    case Send(k, v) => AcceptTotal(s, k, v);
    case SysReport(v) => AcceptTotal(s, System, v);
    case _ => SameTotal(s, Step(c, s, a));
  }

  /** The drain has come to its end somewhere along the way. */
  ghost predicate Ended(c: Config, s: State, acts: seq<Action>) {
    exists i :: 0 <= i <= |acts| && !RunFrom(c, s, acts[..i]).pc.Draining?
  }

  lemma {:induction false} DrainPace(c: Config, s: State, acts: seq<Action>)
    requires s.pc.Draining? && s.pc.at <= |KINDS|
    ensures Ended(c, s, acts)
      || (var r := RunFrom(c, s, acts);
          r.pc.Draining? && r.pc.at <= |KINDS| && Rank(r) + Polls(acts) <= Rank(s) + 16 * Arrivals(acts))
  {
    if acts != [] {
      hide Step, Rank;
      var n := |acts| - 1;
      DrainPace(c, s, acts[..n]);
      if Ended(c, s, acts[..n]) {
        var i :| 0 <= i <= n && !RunFrom(c, s, acts[..n][..i]).pc.Draining?;
        assert acts[..n][..i] == acts[..i];
      } else {
        OneMoreStep(c, RunFrom(c, s, acts[..n]), acts[n]);
        assert acts[..|acts|] == acts;
      }
    }
  }

  lemma OneMoreStep(c: Config, s: State, a: Action)
    requires s.pc.Draining? && s.pc.at <= |KINDS|
    ensures var r := Step(c, s, a);
      r.pc.Draining? ==>
        && r.pc.at <= |KINDS|
        && Rank(r) + (if a.Drain? then 1 else 0) <= Rank(s) + if a.Send? || a.SysReport? then 16 else 0
  {
    hide DrainStep;
    if a.Drain? { PollRank(c, s, a.w); } else { OtherRank(c, s, a); }
  }

  /** A drain ends, however sends and reports come between its polls, once there have been sixteen
      steps for each event that was there or arrived, and eight more. */
  lemma DrainFinishes(c: Config, s: State, next: Then, acts: seq<Action>) returns (i: nat)
    requires s.pc == Draining(0, false, next)
    requires Polls(acts) >= 16 * (Total(s) + Arrivals(acts)) + 8
    ensures i <= |acts| && !RunFrom(c, s, acts[..i]).pc.Draining?
  {
    DrainPace(c, s, acts);
    i :| 0 <= i <= |acts| && !RunFrom(c, s, acts[..i]).pc.Draining?;
  }

  // ---------------------------------------------------------------- the shutdown completes

  ghost predicate WritesWork(acts: seq<Action>) {
    forall i :: 0 <= i < |acts| && acts[i].Drain? ==> acts[i].w.ok
  }

  lemma {:induction false} ShutdownStays(c: Config, s: State, acts: seq<Action>)
    requires s.pc == Returned || (s.pc.Draining? && s.pc.at <= |KINDS| && s.pc.next == ShutDown)
    requires WritesWork(acts)
    ensures var r := RunFrom(c, s, acts);
      && (r.pc == Returned || (r.pc.Draining? && r.pc.at <= |KINDS| && r.pc.next == ShutDown))
      && (s.pc == Returned ==> r.pc == Returned)
  {
    if acts != [] {
      var n := |acts| - 1;
      assert WritesWork(acts[..n]) by {
        assert forall i :: 0 <= i < n ==> acts[..n][i] == acts[i];
      }
      ShutdownStays(c, s, acts[..n]);
      StaysOneStep(c, RunFrom(c, s, acts[..n]), acts[n]);
    }
  }

  lemma StaysOneStep(c: Config, s: State, a: Action)
    requires s.pc == Returned || (s.pc.Draining? && s.pc.at <= |KINDS| && s.pc.next == ShutDown)
    requires a.Drain? ==> a.w.ok
    ensures var r := Step(c, s, a);
      && (r.pc == Returned || (r.pc.Draining? && r.pc.at <= |KINDS| && r.pc.next == ShutDown))
      && (s.pc == Returned ==> r.pc == Returned)
  {
    hide Receive, Ticked, Resumed, Report, Accept;
    match a
    case SysReport(v) => ReportStays(c, s, v);
    case Send(k, v) => AcceptStays(s, k, v);
    case _ =>
  }

  /** Once the producers are gone, the writer's own steps reach a clean return, whatever services
      report meanwhile, provided they do not report for ever and the database accepts the last batch. */
  lemma ShutdownCompletes(c: Config, acts: seq<Action>, more: seq<Action>)
    requires Run(c, acts).pc == Waiting && !Run(c, acts).producing && WritesWork(more)
    requires Polls(more) >= 16 * (Total(Run(c, acts)) + Arrivals(more)) + 8
    ensures Run(c, acts + [ProducersGone] + more).pc == Returned
  {
    var s := Run(c, acts);
    var d := s.(pc := Draining(0, false, ShutDown));
    RunOne(c, Init(), acts, ProducersGone);
    assert Step(c, s, ProducersGone) == d;
    RunFromConcat(c, Init(), acts + [ProducersGone], more);
    SameTotal(s, d);
    hide Run, RunFrom, Step, Total, Polls, Arrivals, WritesWork;
    DrainReturnsClean(c, d, more);
  }

  /** The drain of a shutdown ends in a return. */
  lemma DrainReturnsClean(c: Config, d: State, more: seq<Action>)
    requires d.pc == Draining(0, false, ShutDown) && WritesWork(more)
    requires Polls(more) >= 16 * (Total(d) + Arrivals(more)) + 8
    ensures RunFrom(c, d, more).pc == Returned
  {
    hide RunFrom, Total, Polls, Arrivals;
    var i := DrainFinishes(c, d, ShutDown, more);
    assert WritesWork(more[..i]) && WritesWork(more[i..]);
    ShutdownStays(c, d, more[..i]);
    assert more[..i] + more[i..] == more;
    RunFromConcat(c, d, more[..i], more[i..]);
    ShutdownStays(c, RunFrom(c, d, more[..i]), more[i..]);
  }

  // ---------------------------------------------------------------- what a clean return leaves

  /** The System channel after reports that nobody takes: each is kept if there is room. */
  function Queued(c: Config, ch: seq<nat>, acts: seq<Action>): seq<nat> {
    if acts == [] then ch
    else
      var q := Queued(c, ch, acts[..|acts| - 1]);
      var a := acts[|acts| - 1];
      if a.SysReport? && |q| < c.capacity then q + [a.v] else q
  }

  /** The step that returns is the end of a shutdown drain that found nothing. */
  lemma StepReturns(c: Config, s: State, a: Action)
    requires s.pc != Returned && Step(c, s, a).pc == Returned
    ensures a.Drain? && s.pc == Draining(|KINDS|, false, ShutDown)
  {
    if Enabled(c, s, a) {
      hide Receive, Ticked, Resumed, Report, Accept, DrainStep;
      match a
      case Recv(k, w) => ReceiveStays(c, s, k, w);
      case Tick(w) => TickStays(c, s, w);
      case RetentionEnd(w) => TickStays(c, s, w);
      case SysReport(v) => ReportStays(c, s, v);
      case Send(k, v) => AcceptStays(s, k, v);
      case Drain(w) => DrainReturns(c, s, w);
      case _ =>
    }
  }

  lemma DrainReturns(c: Config, s: State, w: Write)
    requires s.pc.Draining? && s.pc.at <= |KINDS| && DrainStep(c, s, w).pc == Returned
    ensures s.pc == Draining(|KINDS|, false, ShutDown)
  {
    hide Flush;
  }

  lemma AcceptStays(s: State, k: Kind, v: nat)
    ensures Accept(s, k, v).pc == s.pc
  {
  }

  lemma ReportStays(c: Config, s: State, v: nat)
    ensures Report(c, s, v) == s.(chans := Report(c, s, v).chans, accepted := Report(c, s, v).accepted)
    ensures Chan(Report(c, s, v), System) == Queued(c, Chan(s, System), [SysReport(v)])
  {
    assert [SysReport(v)][..0] == [];
  }

  lemma TickStays(c: Config, s: State, w: Write)
    ensures Ticked(c, s, w).pc == s.pc || Ticked(c, s, w).pc == Failed
    ensures var r := Resumed(c, s, w); r.pc == Selecting || r.pc == Failed
  {
    hide EndTurn, Flush;
    FlushStays(c, s, w);
    TurnStays(c, Flush(c, s, w).0, w);
    TurnStays(c, s.(pc := Selecting), w);
  }

  lemma ReceiveStays(c: Config, s: State, k: Kind, w: Write)
    requires Chan(s, k) != []
    ensures var r := Receive(c, s, k, w); r.pc == s.pc || r.pc == Failed
  {
    hide EndTurn;
    if k == System {
      var s1 := s.(chans := s.chans[System := Chan(s, System)[1..]]);
      TurnStays(c, s1.(committed := s1.committed + [Item(System, Chan(s, System)[0])]), w);
    } else {
      TakeStays(s, k);
      TurnStays(c, Take(s, k), w);
    }
  }

  /** The step that ends the last pass of a drain is a poll of System that finds nothing. */
  lemma StepPolls(c: Config, s: State, a: Action, next: Then)
    requires Step(c, s, a).pc == Draining(|KINDS|, false, next)
    ensures if s.pc == Draining(|KINDS|, false, next) then !a.Drain?
      else
        && a.Drain? && s.pc == Draining(SIX, false, next) && Chan(s, System) == []
        && Step(c, s, a) == At(s, |KINDS|, false, next)
  {
    if Enabled(c, s, a) {
      hide Receive, Ticked, Resumed, Report, Accept;
      assert KINDS[SIX] == System;
      match a
      case Recv(k, w) => ReceiveStays(c, s, k, w);
      case Tick(w) => TickStays(c, s, w);
      case RetentionEnd(w) => TickStays(c, s, w);
      case SysReport(v) => ReportStays(c, s, v);
      case Send(k, v) => AcceptStays(s, k, v);
      case Drain(w) => EndsDraining(c, s, s.pc.next, w);
      case _ =>
    }
  }

  lemma {:induction false} FindReturn(c: Config, acts: seq<Action>)
    returns (before: seq<Action>, w: Write, after: seq<Action>)
    requires Run(c, acts).pc == Returned
    ensures acts == before + [Drain(w)] + after
    ensures Run(c, before).pc == Draining(|KINDS|, false, ShutDown) && Run(c, before + [Drain(w)]).pc == Returned
  {
    hide Step;
    var n := |acts| - 1;
    StartsSelecting(c);
    if Run(c, acts[..n]).pc == Returned {
      before, w, after := FindReturn(c, acts[..n]);
      after := after + [acts[n]];
    } else {
      StepReturns(c, Run(c, acts[..n]), acts[n]);
      before, w, after := acts[..n], acts[n].w, [];
      assert acts[..n] + [acts[n]] == acts;
    }
  }

  lemma StartsSelecting(c: Config)
    ensures Run(c, []).pc == Selecting
  {
  }

  ghost predicate NoPolls(acts: seq<Action>) {
    forall i :: 0 <= i < |acts| ==> !acts[i].Drain?
  }

  lemma {:induction false} FindPoll(c: Config, acts: seq<Action>, next: Then)
    returns (before: seq<Action>, w: Write, mid: seq<Action>)
    requires Run(c, acts).pc == Draining(|KINDS|, false, next)
    ensures acts == before + [Drain(w)] + mid && NoPolls(mid)
    ensures Run(c, before).pc == Draining(SIX, false, next) && Chan(Run(c, before), System) == []
    ensures Run(c, before + [Drain(w)]) == At(Run(c, before), |KINDS|, false, next)
  {
    hide Step, At;
    var n := |acts| - 1;
    StartsSelecting(c);
    StepPolls(c, Run(c, acts[..n]), acts[n], next);
    if Run(c, acts[..n]).pc == Draining(|KINDS|, false, next) {
      before, w, mid := FindPoll(c, acts[..n], next);
      mid := mid + [acts[n]];
    } else {
      before, w, mid := acts[..n], acts[n].w, [];
      assert acts[..n] + [acts[n]] == acts;
    }
  }

  /** With the producers gone, what is not a poll only queues reports. */
  lemma {:induction false} OnlyQueues(c: Config, s: State, acts: seq<Action>)
    requires s.pc == Returned || (s.pc.Draining? && NoPolls(acts))
    requires !s.producing
    ensures var r := RunFrom(c, s, acts);
      && Chan(r, System) == Queued(c, Chan(s, System), acts)
      && r.pc == s.pc && r.pending == s.pending && r.chmodDone == s.chmodDone && !r.producing
  {
    if acts != [] {
      hide Queued, Step, Report;
      var n := |acts| - 1;
      assert s.pc == Returned || NoPolls(acts[..n]);
      OnlyQueues(c, s, acts[..n]);
      QueuesOneStep(c, RunFrom(c, s, acts[..n]), acts[n]);
      QueuedSnoc(c, Chan(s, System), acts);
    }
  }

  lemma QueuesOneStep(c: Config, s: State, a: Action)
    requires (s.pc == Returned || (s.pc.Draining? && !a.Drain?)) && !s.producing
    ensures var r := Step(c, s, a);
      && Chan(r, System) == Queued(c, Chan(s, System), [a])
      && r.pc == s.pc && r.pending == s.pending && r.chmodDone == s.chmodDone && !r.producing
  {
    assert [a][..0] == [];
    if a.SysReport? { ReportStays(c, s, a.v); }
  }

  lemma QueuedSnoc(c: Config, ch: seq<nat>, acts: seq<Action>)
    requires acts != []
    ensures var n := |acts| - 1;
      Queued(c, ch, acts) == Queued(c, Queued(c, ch, acts[..n]), [acts[n]])
  {
    assert [acts[|acts| - 1]][..0] == [];
  }

  /**
   * A clean return, taken apart: the last poll of System finds it empty, `mid` happens, the final step
   * commits what is pending and returns, `after` happens. What is left on System is exactly what was
   * reported since that poll, and the note of the final commit, as far as there was room.
   */
  lemma ReturnLeaves(c: Config, acts: seq<Action>)
    returns (before: seq<Action>, w: Write, mid: seq<Action>, v: Write, after: seq<Action>)
    requires Run(c, acts).pc == Returned
    ensures acts == before + [Drain(w)] + mid + [Drain(v)] + after && NoPolls(mid)
    ensures Run(c, before).pc == Draining(SIX, false, ShutDown) && Chan(Run(c, before), System) == []
    ensures Chan(Run(c, acts), System) == Queued(c, Noted(c, Queued(c, [], mid), Run(c, before), v), after)
  {
    hide Step, Queued, RunFrom;
    var p;
    p, v, after := FindReturn(c, acts);
    before, w, mid := FindPoll(c, p, ShutDown);
    var s0 := Run(c, before + [Drain(w)]);
    RunShutsDown(c, before);
    RunFromConcat(c, Init(), before + [Drain(w)], mid);
    OnlyQueues(c, s0, mid);
    ReturnExact(c, p, v);
    RunShutsDown(c, p + [Drain(v)]);
    RunFromConcat(c, Init(), p + [Drain(v)], after);
    OnlyQueues(c, Run(c, p + [Drain(v)]), after);
  }

  lemma {:induction false} QueuedGrows(c: Config, ch: seq<nat>, acts: seq<Action>)
    ensures |Queued(c, ch, acts)| >= |ch|
    ensures ch == [] ==>
      (Queued(c, ch, acts) == [] <==> forall i :: 0 <= i < |acts| ==> !acts[i].SysReport?)
  {
    if acts != [] {
      QueuedGrows(c, ch, acts[..|acts| - 1]);
    }
  }

  /** So nothing is left exactly when nobody reported since that poll and no note was due. */
  lemma NothingLeftExactly(c: Config, acts: seq<Action>)
    returns (before: seq<Action>, w: Write, mid: seq<Action>, v: Write, after: seq<Action>)
    requires Run(c, acts).pc == Returned
    ensures acts == before + [Drain(w)] + mid + [Drain(v)] + after && NoPolls(mid)
    ensures Run(c, before).pc == Draining(SIX, false, ShutDown)
    ensures Chan(Run(c, acts), System) == [] <==>
      && (forall i :: 0 <= i < |mid| ==> !mid[i].SysReport?) && (forall i :: 0 <= i < |after| ==> !after[i].SysReport?)
      && !LeavesNote(Run(c, before), v)
  {
    hide Run, Queued, NoPolls;
    before, w, mid, v, after := ReturnLeaves(c, acts);
    QueuedGrows(c, [], mid);
    QueuedGrows(c, Noted(c, Queued(c, [], mid), Run(c, before), v), after);
  }
}
