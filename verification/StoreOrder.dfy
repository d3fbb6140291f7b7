/** When System events keep their order: exactly when no retention round can hold one back. */
module StoreOrder {
  import opened EventStore
  import opened StoreShutdown

  /** A retention round may put a System event into a batch that outlives the round. */
  predicate CanHoldBack(c: Config) { c.retention && c.batchSize >= 2 }

  /** System events are committed in the order their channel accepted them; the one lost when an immediate
      commit fails comes right after those committed. */
  ghost predicate Straight(s: State) {
    Of(s.accepted, System)
      == Of(s.committed, System) + Of(s.lost, System) + Of(s.pending, System) + Chan(s, System)
  }

  ghost predicate KeepsSystemOrder(c: Config) {
    forall acts :: Straight(Run(c, acts))
  }

  /** Without a loss it is the order of the other kinds. */
  lemma StraightIsInOrder(s: State)
    requires s.lost == []
    ensures Straight(s) <==> InOrder(s, System)
  {
    assert Of([], System) == [];
    assert Of(s.committed, System) + [] == Of(s.committed, System);
  }

  // ---------------------------------------------------------------- it holds otherwise

  /** Whenever the select loop is about to receive, no System event is pending. */
  ghost predicate Quiet(c: Config, s: State) {
    && (c.batchSize <= 1 && s.pc == Selecting ==> s.pending == [])
    && (!c.retention ==>
          s.pc != Cleaning && !(s.pc.Draining? && s.pc.next == BackToCleaning)
          && (s.pc == Selecting ==> Of(s.pending, System) == []))
  }

  lemma EndTurnQuiet(c: Config, s: State, w: Write)
    requires c.batchSize <= 1 || !c.retention
    requires s.pc == Selecting && (!c.retention ==> Of(s.pending, System) == [])
    ensures Quiet(c, EndTurn(c, s, w))
  {
    assert Of([], System) == [];
  }

  lemma RecvQuiet(c: Config, s: State, k: Kind, w: Write)
    requires !CanHoldBack(c) && Quiet(c, s) && Enabled(c, s, Recv(k, w))
    ensures Quiet(c, Receive(c, s, k, w))
  {
    if k == System {
      if w.ok {
        EndTurnQuiet(c, Received(s, System).(committed := s.committed + [Item(System, Chan(s, System)[0])]), w);
      }
    } else {
      OfSnoc(s.pending, Item(k, Chan(s, k)[0]), System);
      EndTurnQuiet(c, Take(s, k), w);
    }
  }

  lemma TickQuiet(c: Config, s: State, w: Write)
    requires !CanHoldBack(c) && Quiet(c, s) && s.pc == Selecting
    ensures Quiet(c, Ticked(c, s, w))
  {
  }

  lemma StepQuiet(c: Config, s: State, a: Action)
    requires !CanHoldBack(c) && Quiet(c, s)
    ensures Quiet(c, Step(c, s, a))
  {
    if Enabled(c, s, a) {
      hide Of, Receive, Ticked, DrainStep, EndTurn;
      match a
      case Recv(k, w) => RecvQuiet(c, s, k, w);
      case Tick(w) => TickQuiet(c, s, w);
      case RetentionEnd(w) =>
        if !s.yieldFailed { EndTurnQuiet(c, s.(pc := Selecting), w); }
      case Drain(w) => DrainStepQuiet(c, s, w);
      case _ =>
    }
  }

  lemma DrainStepQuiet(c: Config, s: State, w: Write)
    requires !CanHoldBack(c) && Quiet(c, s) && s.pc.Draining? && s.pc.at <= |KINDS|
    ensures Quiet(c, DrainStep(c, s, w))
  {
    hide Of, Flush, Take;
    TakeStays(s);
  }

  lemma TakeStays(s: State)
    ensures forall k :: Chan(s, k) != [] ==> Take(s, k).pc == s.pc
  {
  }

  lemma {:induction false} RunInOrder(c: Config, acts: seq<Action>)
    requires !CanHoldBack(c)
    ensures Quiet(c, Run(c, acts)) && Straight(Run(c, acts))
  {
    if acts == [] {
      assert Of([], System) == [];
    } else {
      var s, a := Run(c, acts[..|acts| - 1]), acts[|acts| - 1];
      RunInOrder(c, acts[..|acts| - 1]);
      RunConserved(c, acts[..|acts| - 1]);
      StepQuiet(c, s, a);
      StepStraight(c, s, a);
    }
  }

  lemma StepStraight(c: Config, s: State, a: Action)
    requires !CanHoldBack(c) && Quiet(c, s) && Conserved(s) && Straight(s)
    ensures Straight(Step(c, s, a))
  {
    if s.pc == Failed {
      FailedStraight(c, s, a);
    } else {
      StraightIsInOrder(s);
      if Enabled(c, s, a) && a.Recv? && a.k == System {
        NoneHeld(c, s);
        if !a.w.ok {
          LoseStraight(c, s, a.w);
          return;
        }
      }
      hide Straight, Conserved, Quiet, InOrder, Of;
      StepConserved(c, s, a);
      StepKeepsLost(c, s, a);
      StraightIsInOrder(Step(c, s, a));
    }
  }

  lemma NoneHeld(c: Config, s: State)
    requires !CanHoldBack(c) && Quiet(c, s) && s.pc == Selecting
    ensures Of(s.pending, System) == []
  {
    assert Of([], System) == [];
  }

  /** After the run has ended with an error, only others add events, to the channels. */
  lemma FailedStraight(c: Config, s: State, a: Action)
    requires s.pc == Failed && Straight(s)
    ensures Straight(Step(c, s, a))
  {
    if Enabled(c, s, a) {
      match a
      case Send(k, v) => AcceptStraight(s, k, v);
      case SysReport(v) => AcceptStraight(s, System, v);
      case _ =>
    }
  }

  lemma AcceptStraight(s: State, k: Kind, v: nat)
    requires Straight(s)
    ensures Straight(Accept(s, k, v))
  {
    OfSnoc(s.accepted, Item(k, v), System);
  }

  lemma LoseStraight(c: Config, s: State, w: Write)
    requires Straight(s) && s.lost == [] && Of(s.pending, System) == [] && Chan(s, System) != [] && !w.ok
    ensures Straight(Receive(c, s, System, w))
  {
    var ch := Chan(s, System);
    OfSnoc([], Item(System, ch[0]), System);
    assert [] + [Item(System, ch[0])] == [Item(System, ch[0])] && Of([], System) == [];
    var done := Of(s.committed, System);
    assert done + [ch[0]] + [] + ch[1..] == done + [] + [] + ch;
  }

  lemma StepKeepsLost(c: Config, s: State, a: Action)
    requires Enabled(c, s, a) && a.Recv? && a.k == System ==> a.w.ok
    ensures Step(c, s, a).lost == s.lost
  {
    if Enabled(c, s, a) {
      hide Accept, Report;
      match a
      case Recv(k, w) => ReceiveKeepsLost(c, s, k, w);
      case _ =>
    }
  }

  lemma ReceiveKeepsLost(c: Config, s: State, k: Kind, w: Write)
    requires Chan(s, k) != [] && (k == System ==> w.ok)
    ensures Receive(c, s, k, w).lost == s.lost
  {
  }

  // ---------------------------------------------------------------- it fails when one can be held back

  /** One System event drained during retention, and the next committed before it. */
  lemma Overtaken(c: Config) returns (acts: seq<Action>)
    requires CanHoldBack(c)
    ensures Run(c, acts).lost == [] && !InOrder(Run(c, acts), System)
  {
    var w := Write(true, true, 0);
    var s0 := Accept(Init(), System, 1);
    RunOne(c, Init(), [], Send(System, 1));
    RunOne(c, Init(), [Send(System, 1)], RetentionStart);
    RunOne(c, Init(), [Send(System, 1)] + [RetentionStart], DeletedBatch);
    var opening := [Send(System, 1)] + [RetentionStart] + [DeletedBatch];
    assert Run(c, opening) == At(s0, 0, false, BackToCleaning) by {
      assert [] + [Send(System, 1)] == [Send(System, 1)];
    }
    var n := DrainEnds(c, s0, BackToCleaning, w);
    RunFromConcat(c, Init(), opening, Drains(n, w));
    var held := HeldBack(c, s0, w);
    acts := opening + Drains(n, w);
    RunOne(c, Init(), acts, RetentionEnd(w));
    RunOne(c, Init(), acts + [RetentionEnd(w)], Send(System, 2));
    RunOne(c, Init(), acts + [RetentionEnd(w)] + [Send(System, 2)], Recv(System, w));
    acts := acts + [RetentionEnd(w)] + [Send(System, 2)] + [Recv(System, w)];
    Passed(c, held, w);
  }

  lemma HeldBack(c: Config, s0: State, w: Write) returns (r: State)
    requires CanHoldBack(c) && s0 == Accept(Init(), System, 1) && w == Write(true, true, 0)
    ensures r == EndDrain(c, At(Drained(s0), |KINDS|, false, BackToCleaning), BackToCleaning, w)
    ensures r == s0.(chans := r.chans, pending := [Item(System, 1)], pc := Cleaning)
    ensures Chan(r, System) == []
  {
    r := EndDrain(c, At(Drained(s0), |KINDS|, false, BackToCleaning), BackToCleaning, w);
    DrainedMoves(s0, System);
    assert Drained(s0).pending == [Item(System, 1)] by { OnlySystem(s0); }
  }

  lemma OnlySystem(s: State)
    requires s == Accept(Init(), System, 1)
    ensures Drained(s).pending == [Item(System, 1)]
  {
    assert forall k :: k != System ==> Chan(s, k) == [];
    var t := Take(s, System);
    assert t.pending == [Item(System, 1)];
    assert forall k :: Chan(t, k) == [];
    SkipTo(s, 0);
    assert Pass(s, 6) == Pass(t, 7) == t;
    NothingLeft(t);
  }

  lemma {:induction false} SkipTo(s: State, at: nat)
    requires at <= 6 && forall j :: 0 <= j < 6 ==> Chan(s, KINDS[j]) == []
    ensures Pass(s, at) == Pass(s, 6)
    decreases 6 - at
  {
    if at < 6 { SkipTo(s, at + 1); }
  }

  lemma NothingLeft(t: State)
    requires forall k :: Chan(t, k) == []
    ensures Drained(t) == t
  {
  }

  lemma OfSystemOne(a: Item)
    requires a.kind == System
    ensures Of([a], System) == [a.v]
  {
  }

  lemma OfSystemTwo(a: Item, b: Item)
    requires a.kind == System && b.kind == System
    ensures Of([a, b], System) == [a.v, b.v]
  {
    OfSystemOne(a);
    assert [a] + [b] == [a, b];
    OfSnoc([a], b, System);
  }

  /** From the held-back state: the round ends, a second event arrives and is committed at once. */
  lemma Passed(c: Config, s: State, w: Write)
    requires CanHoldBack(c) && w.ok && s.pc == Cleaning && !s.yieldFailed && s.producing && s.lost == []
    requires s.pending == [Item(System, 1)] && s.committed == [] && s.accepted == [Item(System, 1)]
    requires Chan(s, System) == []
    ensures var r := Step(c, Step(c, Step(c, s, RetentionEnd(w)), Send(System, 2)), Recv(System, w));
      r.lost == [] && !InOrder(r, System)
  {
    var a, b := Item(System, 1), Item(System, 2);
    hide Of;
    var r := PassedTo(c, s, a, b, w);
    OfSystemOne(a);
    OfSystemOne(b);
    OfSystemTwo(a, b);
    assert (Of(r.committed, System) + Of(r.pending, System) + Chan(r, System))[0] == 2;
  }

  lemma PassedTo(c: Config, s: State, a: Item, b: Item, w: Write) returns (r: State)
    requires CanHoldBack(c) && w.ok && s.pc == Cleaning && !s.yieldFailed && s.producing && s.lost == []
    requires s.pending == [a] && s.committed == [] && s.accepted == [a] && b.kind == System
    requires Chan(s, System) == []
    ensures r == Step(c, Step(c, Step(c, s, RetentionEnd(w)), Send(System, b.v)), Recv(System, w))
    ensures r.lost == [] && r.committed == [b] && r.pending == [a] && r.accepted == [a, b]
  {
    var s1 := s.(pc := Selecting);
    assert Step(c, s, RetentionEnd(w)) == s1;
    var s2 := Step(c, s1, Send(System, b.v));
    assert s2.accepted == [a, b] && Chan(s2, System) == [b.v] && s2.pending == [a];
    r := Step(c, s2, Recv(System, w));
  }

  lemma SystemOrderExact(c: Config)
    ensures KeepsSystemOrder(c) <==> !CanHoldBack(c)
  {
    if CanHoldBack(c) {
      var acts := Overtaken(c);
      StraightIsInOrder(Run(c, acts));
    } else {
      forall acts ensures Straight(Run(c, acts)) { RunInOrder(c, acts); }
    }
  }
}
