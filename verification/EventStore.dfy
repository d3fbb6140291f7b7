/** The single-writer event store of internal/store/store.go: producers send on bounded channels, one
    writer receives, batches, commits, drains between retention batches and shuts down in two phases.

    The writer's program is cut at every point where a producer may run, so a run is a sequence of
    actions chosen freely by producers, timers, the database and the writer. */
module EventStore {
  import opened Wrappers

  datatype Kind = Resource | Conn | SSH | FW | F2B | Cred | System

  datatype Item = Item(kind: Kind, v: nat)

  /** The order in which Channels.Drain visits the channels. */
  const KINDS: seq<Kind> := [Resource, Conn, SSH, FW, F2B, Cred, System]

  /** The buffer of a channel; every channel of the program has 4096 places. */
  type Places = n: nat | n > 0 witness 1

  datatype Config = Config(capacity: Places, batchSize: nat, retention: bool)

  datatype Then = BackToCleaning | ShutDown

  /** Where the writer stands between two of its atomic steps. */
  datatype Pc =
    | Selecting
    | Cleaning                                      // inside a retention round, between two deletes
    | Draining(at: nat, got: bool, next: Then)      // inside Channels.Drain, about to poll KINDS[at]
    | Waiting                                       // ctx cancelled, waiting for the producers
    | Returned
    | Failed

  /** How the database answers one commit, and whether tightening the file modes works. */
  datatype Write = Write(ok: bool, chmodOk: bool, note: nat)

  datatype State = State(
    chans: map<Kind, seq<nat>>,
    pending: seq<Item>,
    committed: seq<Item>,
    lost: seq<Item>,           // a System event taken from its channel whose immediate commit failed
    accepted: seq<Item>,       // every event a channel has accepted, in order
    pc: Pc,
    yieldFailed: bool,
    chmodDone: bool,
    producing: bool,
    cancelled: bool)

  function Init(): State {
    State(map k | k in KINDS :: [], [], [], [], [], Selecting, false, false, true, false)
  }

  function Chan(s: State, k: Kind): seq<nat> { if k in s.chans then s.chans[k] else [] }

  // ---------------------------------------------------------------- steps

  function Accept(s: State, k: Kind, v: nat): State {
    s.(chans := s.chans[k := Chan(s, k) + [v]], accepted := s.accepted + [Item(k, v)])
  }

  /** event.ReportSys: a send that gives up when the channel is full. */
  function Report(c: Config, s: State, v: nat): State {
    if |Chan(s, System)| < c.capacity then Accept(s, System, v) else s
  }

  /** Moves the head of a channel to the batch. */
  function Take(s: State, k: Kind): State
    requires Chan(s, k) != []
  {
    s.(chans := s.chans[k := Chan(s, k)[1..]], pending := s.pending + [Item(k, Chan(s, k)[0])])
  }

  function CommitPending(s: State): State {
    s.(committed := s.committed + s.pending, pending := [], chmodDone := true)
  }

  /** flush: all pending events are committed, or none; the first commit also tightens file modes. */
  function Flush(c: Config, s: State, w: Write): (r: (State, bool)) {
    if s.pending == [] then (s, true)
    else if !w.ok then (s, false)
    else
      var s1 := CommitPending(s);
      (if !s.chmodDone && !w.chmodOk then Report(c, s1, w.note) else s1, true)
  }

  /** The end of a turn of the select loop. */
  function EndTurn(c: Config, s: State, w: Write): State {
    if |s.pending| >= c.batchSize then
      var (s1, ok) := Flush(c, s, w);
      if ok then s1 else s1.(pc := Failed)
    else s
  }

  /** A receive in the select loop: System events are committed at once, the others are batched. */
  function Receive(c: Config, s: State, k: Kind, w: Write): State
    requires Chan(s, k) != []
  {
    if k == System then
      var item := Item(System, Chan(s, System)[0]);
      var s1 := s.(chans := s.chans[System := Chan(s, System)[1..]]);
      if w.ok then EndTurn(c, s1.(committed := s1.committed + [item]), w)
      else s1.(lost := s1.lost + [item], pc := Failed)
    else EndTurn(c, Take(s, k), w)
  }

  /** One poll of Drain, or the end of one of its passes. */
  function DrainStep(c: Config, s: State, w: Write): State
    requires s.pc.Draining? && s.pc.at <= |KINDS|
  {
    var Draining(at, got, next) := s.pc;
    if at != |KINDS| then
      if Chan(s, KINDS[at]) != [] then Take(s, KINDS[at]).(pc := Draining(at + 1, true, next))
      else s.(pc := Draining(at + 1, got, next))
    else if got then s.(pc := Draining(0, false, next))
    else EndDrain(c, s, next, w)
  }

  /** After Drain: a yield flushes a full batch and remembers a failure; shutdown flushes and returns. */
  function EndDrain(c: Config, s: State, next: Then, w: Write): State {
    match next
    case BackToCleaning =>
      if |s.pending| >= c.batchSize then
        var (s1, ok) := Flush(c, s, w);
        s1.(yieldFailed := s1.yieldFailed || !ok, pc := Cleaning)
      else s.(pc := Cleaning)
    case ShutDown =>
      var (s1, ok) := Flush(c, s, w);
      s1.(pc := if ok then Returned else Failed)
  }

  /** The batch timer. */
  function Ticked(c: Config, s: State, w: Write): State {
    var (s1, ok) := Flush(c, s, w);
    if ok then EndTurn(c, s1, w) else s1.(pc := Failed)
  }

  /** The end of a retention round: a commit that failed inside it ends the run now. */
  function Resumed(c: Config, s: State, w: Write): State {
    if s.yieldFailed then s.(pc := Failed) else EndTurn(c, s.(pc := Selecting), w)
  }

  // ---------------------------------------------------------------- runs

  datatype Action =
    | Send(k: Kind, v: nat)          // a producer
    | ProducersExit
    | Cancel
    | Tick(w: Write)                 // the batch timer
    | Recv(k: Kind, w: Write)
    | SysReport(v: nat)              // event.ReportSys by the writer, or by a service nobody waits for
    | RetentionStart
    | DeletedBatch                   // one DELETE removed rows: yield
    | RetentionEnd(w: Write)
    | Drain(w: Write)
    | CtxDone
    | ProducersGone

  predicate Enabled(c: Config, s: State, a: Action) {
    match a
    case Send(k, _) => s.producing && |Chan(s, k)| < c.capacity
    case ProducersExit => true
    case Cancel => true
    case Tick(_) => s.pc == Selecting
    case Recv(k, _) => s.pc == Selecting && Chan(s, k) != []
    case SysReport(_) => true
    case RetentionStart => s.pc == Selecting && c.retention
    case DeletedBatch => s.pc == Cleaning
    case RetentionEnd(_) => s.pc == Cleaning
    case Drain(_) => s.pc.Draining? && s.pc.at <= |KINDS|
    case CtxDone => s.pc == Selecting && s.cancelled
    case ProducersGone => s.pc == Waiting && !s.producing
  }

  function Step(c: Config, s: State, a: Action): State {
    if !Enabled(c, s, a) then s else
    match a
    case Send(k, v) => Accept(s, k, v)
    case ProducersExit => s.(producing := false)
    case Cancel => s.(cancelled := true)
    case Tick(w) => Ticked(c, s, w)
    case Recv(k, w) => Receive(c, s, k, w)
    case SysReport(v) => Report(c, s, v)
    case RetentionStart => s.(pc := Cleaning)
    case DeletedBatch => s.(pc := Draining(0, false, BackToCleaning))
    case RetentionEnd(w) => Resumed(c, s, w)
    case Drain(w) => DrainStep(c, s, w)
    case CtxDone => s.(pc := Waiting)
    case ProducersGone => s.(pc := Draining(0, false, ShutDown))
  }

  function RunFrom(c: Config, s: State, acts: seq<Action>): State {
    if acts == [] then s else Step(c, RunFrom(c, s, acts[..|acts| - 1]), acts[|acts| - 1])
  }

  function Run(c: Config, acts: seq<Action>): State { RunFrom(c, Init(), acts) }

  // ---------------------------------------------------------------- conservation

  /** The events of one kind, in order. */
  function Of(items: seq<Item>, k: Kind): seq<nat> {
    if items == [] then []
    else Of(items[..|items| - 1], k) + if items[|items| - 1].kind == k then [items[|items| - 1].v] else []
  }

  /** Where the accepted events of one kind are: in commit order, then pending, then in the channel. */
  function Whereabouts(s: State, k: Kind): seq<nat> {
    Of(s.committed, k) + Of(s.pending, k) + Chan(s, k)
  }

  ghost predicate InOrder(s: State, k: Kind) {
    Of(s.accepted, k) == Whereabouts(s, k)
  }

  ghost predicate Safe(s: State, k: Kind) {
    k != System ==> InOrder(s, k) && Of(s.lost, k) == []
  }

  /** Nothing accepted disappears: in order for six kinds, as a multiset for System. */
  ghost predicate Conserved(s: State) {
    && (forall k :: Safe(s, k))
    && multiset(Of(s.accepted, System)) == multiset(Whereabouts(s, System) + Of(s.lost, System))
    && |s.lost| <= 1 && (s.lost != [] ==> s.pc == Failed)
  }

  lemma {:induction false} OfAppend(a: seq<Item>, b: seq<Item>, k: Kind)
    ensures Of(a + b, k) == Of(a, k) + Of(b, k)
  {
    if b == [] {
      assert a + b == a;
    } else {
      var b' := b[..|b| - 1];
      assert (a + b)[..|a + b| - 1] == a + b';
      OfAppend(a, b', k);
    }
  }

  lemma OfSnoc(a: seq<Item>, item: Item, k: Kind)
    ensures item.kind == k ==> Of(a + [item], k) == Of(a, k) + [item.v]
    ensures item.kind != k ==> Of(a + [item], k) == Of(a, k)
  {
  }

  /** Events of kind q moved between places, none came or went. */
  ghost predicate Moved(s: State, r: State, q: Kind) {
    Of(r.accepted, q) == Of(s.accepted, q) && Whereabouts(r, q) == Whereabouts(s, q)
  }

  lemma MovedConserved(s: State, r: State)
    requires Conserved(s) && r.lost == s.lost && (s.lost != [] ==> r.pc == s.pc)
    requires forall q :: Moved(s, r, q)
    ensures Conserved(r) && (InOrder(s, System) ==> InOrder(r, System))
  {
    forall q ensures Safe(r, q) { assert Safe(s, q) && Moved(s, r, q); }
    assert Moved(s, r, System);
  }

  lemma AcceptConserved(s: State, k: Kind, v: nat)
    requires Conserved(s)
    ensures Conserved(Accept(s, k, v))
    ensures InOrder(s, System) ==> InOrder(Accept(s, k, v), System)
  {
    hide Of;
    var r := Accept(s, k, v);
    AcceptMoves(s, k, v);
    forall q | q != k ensures Moved(s, r, q) { OfSnoc(s.accepted, Item(k, v), q); }
    forall q ensures Safe(r, q) { assert Safe(s, q); assert q != k ==> Moved(s, r, q); }
    if k == System {
      Insert(Whereabouts(s, System), v, Of(s.lost, System));
    } else {
      assert Moved(s, r, System);
    }
  }

  lemma AcceptMoves(s: State, k: Kind, v: nat)
    ensures var r := Accept(s, k, v);
      Of(r.accepted, k) == Of(s.accepted, k) + [v] && Whereabouts(r, k) == Whereabouts(s, k) + [v]
  {
  }

  lemma Insert(a: seq<nat>, v: nat, b: seq<nat>)
    ensures multiset((a + [v]) + b) == multiset(a + b) + multiset{v}
  {
  }

  lemma TakeOther(s: State, k: Kind, q: Kind)
    requires Chan(s, k) != [] && q != k
    ensures Moved(s, Take(s, k), q)
  {
  }

  lemma TakeSame(s: State, k: Kind)
    requires Chan(s, k) != []
    ensures Moved(s, Take(s, k), k)
  {
    hide Of;
    var ch := Chan(s, k);
    var r := Take(s, k);
    OfSnoc(s.pending, Item(k, ch[0]), k);
    assert Of(r.pending, k) == Of(s.pending, k) + [ch[0]];
    assert Chan(r, k) == ch[1..];
    Rotate(Of(s.committed, k), Of(s.pending, k), ch);
  }

  lemma TakeMoves(s: State, k: Kind, q: Kind)
    requires Chan(s, k) != []
    ensures Moved(s, Take(s, k), q)
  {
    if q == k { TakeSame(s, k); } else { TakeOther(s, k, q); }
  }

  lemma Rotate(a: seq<nat>, b: seq<nat>, c: seq<nat>)
    requires c != []
    ensures a + (b + [c[0]]) + c[1..] == a + b + c
  {
  }

  lemma TakeConserved(s: State, k: Kind)
    requires Conserved(s) && Chan(s, k) != []
    ensures Conserved(Take(s, k)) && (InOrder(s, System) ==> InOrder(Take(s, k), System))
  {
    forall q ensures Moved(s, Take(s, k), q) { TakeMoves(s, k, q); }
    MovedConserved(s, Take(s, k));
  }

  lemma CommitMoves(s: State, q: Kind)
    ensures Moved(s, CommitPending(s), q)
  {
    OfAppend(s.committed, s.pending, q);
    assert Of([], q) == [];
    var a, b, ch := Of(s.committed, q), Of(s.pending, q), Chan(s, q);
    assert (a + b) + [] + ch == a + b + ch;
  }

  lemma FlushConserved(c: Config, s: State, w: Write)
    requires Conserved(s)
    ensures Conserved(Flush(c, s, w).0)
    ensures InOrder(s, System) ==> InOrder(Flush(c, s, w).0, System)
  {
    hide Conserved, InOrder, Accept;
    CommitConserved(s);
    AcceptConserved(CommitPending(s), System, w.note);
  }

  lemma CommitConserved(s: State)
    requires Conserved(s)
    ensures Conserved(CommitPending(s)) && (InOrder(s, System) ==> InOrder(CommitPending(s), System))
  {
    forall q ensures Moved(s, CommitPending(s), q) { CommitMoves(s, q); }
    MovedConserved(s, CommitPending(s));
  }

  lemma FlushStays(c: Config, s: State, w: Write)
    ensures var r := Flush(c, s, w).0; r.lost == s.lost && r.pc == s.pc
  {
  }

  /** Only the writer's place and flags changed. */
  lemma FlagsConserved(s: State, r: State)
    requires Conserved(s)
    requires r.chans == s.chans && r.pending == s.pending && r.committed == s.committed && r.accepted == s.accepted
    requires r.lost == s.lost && (s.lost != [] ==> r.pc == s.pc)
    ensures Conserved(r) && (InOrder(s, System) ==> InOrder(r, System))
  {
    forall q ensures Moved(s, r, q) { }
    MovedConserved(s, r);
  }

  lemma EndTurnConserved(c: Config, s: State, w: Write)
    requires Conserved(s) && s.lost == []
    ensures Conserved(EndTurn(c, s, w))
    ensures InOrder(s, System) ==> InOrder(EndTurn(c, s, w), System)
  {
    hide Conserved, InOrder, Flush;
    FlushConserved(c, s, w);
    FlushStays(c, s, w);
    EndConserved(Flush(c, s, w).0);
  }

  /** The error exit. */
  lemma EndConserved(s: State)
    requires Conserved(s) && s.lost == []
    ensures var r := s.(pc := Failed); Conserved(r) && (InOrder(s, System) ==> InOrder(r, System))
  {
    FlagsConserved(s, s.(pc := Failed));
  }

  lemma EndDrainConserved(c: Config, s: State, next: Then, w: Write)
    requires Conserved(s) && s.lost == []
    ensures Conserved(EndDrain(c, s, next, w))
    ensures InOrder(s, System) ==> InOrder(EndDrain(c, s, next, w), System)
  {
    hide Conserved, InOrder;
    var r := EndDrain(c, s, next, w);
    if next == ShutDown || |s.pending| >= c.batchSize {
      FlushConserved(c, s, w);
      FlagsConserved(Flush(c, s, w).0, r);
    } else {
      FlagsConserved(s, r);
    }
  }

  function Received(s: State, k: Kind): State
    requires Chan(s, k) != []
  {
    s.(chans := s.chans[k := Chan(s, k)[1..]])
  }

  /** The immediate commit of a System event moves it past the System events still pending. */
  lemma CommitNowConserved(s: State)
    requires Conserved(s) && Chan(s, System) != []
    ensures var item := Item(System, Chan(s, System)[0]);
      var r := Received(s, System).(committed := s.committed + [item]);
      Conserved(r) && (InOrder(s, System) && Of(s.pending, System) == [] ==> InOrder(r, System))
  {
    hide Of;
    var ch := Chan(s, System);
    var item := Item(System, ch[0]);
    var r := Received(s, System).(committed := s.committed + [item]);
    forall q ensures Safe(r, q) {
      assert Safe(s, q);
      OfSnoc(s.committed, item, q);
      if q != System { assert Of(s.committed, q) + [] == Of(s.committed, q); }
    }
    OfSnoc(s.committed, item, System);
    Overtake(Of(s.committed, System), Of(s.pending, System), ch, Of(s.lost, System));
  }

  lemma Overtake(a: seq<nat>, b: seq<nat>, c: seq<nat>, d: seq<nat>)
    requires c != []
    ensures multiset((a + [c[0]]) + b + c[1..] + d) == multiset(a + b + c + d)
    ensures b == [] ==> (a + [c[0]]) + b + c[1..] == a + b + c
  {
    assert c == [c[0]] + c[1..];
  }

  lemma LoseConserved(s: State)
    requires Conserved(s) && Chan(s, System) != [] && s.lost == []
    ensures var item := Item(System, Chan(s, System)[0]);
      Conserved(Received(s, System).(lost := s.lost + [item], pc := Failed))
  {
    var ch := Chan(s, System);
    var item := Item(System, ch[0]);
    var r := Received(s, System).(lost := s.lost + [item], pc := Failed);
    forall q ensures Safe(r, q) {
      assert Safe(s, q);
      OfSnoc(s.lost, item, q);
    }
    OfSnoc(s.lost, item, System);
    var a, b := Of(s.committed, System), Of(s.pending, System);
    assert ch == [ch[0]] + ch[1..];
    assert multiset(a + b + ch) == multiset(a + b + ch[1..] + [ch[0]]);
    assert a + b + ch + [] == a + b + ch;
  }

  lemma ReceiveConserved(c: Config, s: State, k: Kind, w: Write)
    requires Conserved(s) && s.pc == Selecting && Chan(s, k) != []
    ensures Conserved(Receive(c, s, k, w))
    ensures InOrder(s, System) && (k == System ==> w.ok && Of(s.pending, System) == []) ==>
      InOrder(Receive(c, s, k, w), System)
  {
    if k == System {
      var item := Item(System, Chan(s, System)[0]);
      if w.ok {
        CommitNowConserved(s);
        EndTurnConserved(c, Received(s, System).(committed := s.committed + [item]), w);
      } else {
        LoseConserved(s);
      }
    } else {
      TakeConserved(s, k);
      EndTurnConserved(c, Take(s, k), w);
    }
  }

  lemma DrainStepConserved(c: Config, s: State, w: Write)
    requires Conserved(s) && s.pc.Draining? && s.pc.at <= |KINDS|
    ensures Conserved(DrainStep(c, s, w)) && (InOrder(s, System) ==> InOrder(DrainStep(c, s, w), System))
  {
    var Draining(at, got, next) := s.pc;
    if at == |KINDS| && !got {
      EndDrainConserved(c, s, next, w);
    } else if at < |KINDS| && Chan(s, KINDS[at]) != [] {
      TakeConserved(s, KINDS[at]);
      FlagsConserved(Take(s, KINDS[at]), DrainStep(c, s, w));
    } else {
      FlagsConserved(s, DrainStep(c, s, w));
    }
  }

  lemma TickConserved(c: Config, s: State, w: Write)
    requires Conserved(s) && s.pc == Selecting
    ensures var r := Ticked(c, s, w); Conserved(r) && (InOrder(s, System) ==> InOrder(r, System))
  {
    assert s.lost == [];
    hide Conserved, InOrder, Flush, EndTurn;
    var (s1, ok) := Flush(c, s, w);
    FlushConserved(c, s, w);
    FlushStays(c, s, w);
    if ok { EndTurnConserved(c, s1, w); } else { FlagsConserved(s1, s1.(pc := Failed)); }
  }

  lemma RetentionEndConserved(c: Config, s: State, w: Write)
    requires Conserved(s) && s.pc == Cleaning
    ensures var r := Resumed(c, s, w); Conserved(r) && (InOrder(s, System) ==> InOrder(r, System))
  {
    assert s.lost == [];
    hide Conserved, InOrder;
    if s.yieldFailed {
      FlagsConserved(s, s.(pc := Failed));
    } else {
      FlagsConserved(s, s.(pc := Selecting));
      EndTurnConserved(c, s.(pc := Selecting), w);
    }
  }

  lemma ReportConserved(c: Config, s: State, v: nat)
    requires Conserved(s)
    ensures Conserved(Report(c, s, v)) && (InOrder(s, System) ==> InOrder(Report(c, s, v), System))
  {
    hide Conserved, InOrder;
    AcceptConserved(s, System, v);
  }

  lemma StepConserved(c: Config, s: State, a: Action)
    requires Conserved(s)
    ensures Conserved(Step(c, s, a))
    ensures InOrder(s, System) && (a.Recv? && a.k == System ==> a.w.ok && Of(s.pending, System) == []) ==>
      InOrder(Step(c, s, a), System)
  {
    if Enabled(c, s, a) {
      assert s.pc != Failed ==> s.lost == [];
      hide Conserved, InOrder, Accept, Report, Receive, Ticked, Resumed, DrainStep;
      match a
      case Send(k, v) => AcceptConserved(s, k, v);
      case Tick(w) => TickConserved(c, s, w);
      case Recv(k, w) => ReceiveConserved(c, s, k, w);
      case SysReport(v) => ReportConserved(c, s, v);
      case RetentionEnd(w) => RetentionEndConserved(c, s, w);
      case Drain(w) => DrainStepConserved(c, s, w);
      case _ => QuietConserved(c, s, a);
    }
  }

  /** The actions that move no event. */
  lemma QuietConserved(c: Config, s: State, a: Action)
    requires Conserved(s) && (s.pc != Failed ==> s.lost == []) && Enabled(c, s, a)
    requires !a.Send? && !a.Tick? && !a.Recv? && !a.SysReport? && !a.RetentionEnd? && !a.Drain?
    ensures Conserved(Step(c, s, a)) && (InOrder(s, System) ==> InOrder(Step(c, s, a), System))
  {
    hide Conserved, InOrder;
    FlagsConserved(s, Step(c, s, a));
  }

  /** Conservation over every interleaving of producers, timers, commits, retention and shutdown. */
  lemma {:induction false} RunConserved(c: Config, acts: seq<Action>)
    ensures Conserved(Run(c, acts))
  {
    if acts == [] {
      assert forall k :: Of([], k) == [];
    } else {
      RunConserved(c, acts[..|acts| - 1]);
      StepConserved(c, Run(c, acts[..|acts| - 1]), acts[|acts| - 1]);
    }
  }

  /** Spelled out: six kinds are committed in the order accepted; no System event disappears, except
      the one in hand when an immediate commit fails, which ends the run. */
  lemma NothingLost(c: Config, acts: seq<Action>, k: Kind)
    ensures var s := Run(c, acts);
      && (k != System ==> Of(s.accepted, k) == Of(s.committed, k) + Of(s.pending, k) + Chan(s, k))
      && multiset(Of(s.accepted, System))
           == multiset(Of(s.committed, System)) + multiset(Of(s.pending, System)) + multiset(Chan(s, System))
              + multiset(Of(s.lost, System))
      && (s.lost != [] ==> s.pc == Failed && |s.lost| == 1)
  {
    RunConserved(c, acts);
    assert Safe(Run(c, acts), k);
  }
}
