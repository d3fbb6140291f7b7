/** The writer goroutine as the source writes it, over an explicit database transaction. */
module StoreWriter {
  import opened Wrappers
  import opened EventStore
  import opened StoreShutdown
  import opened StoreReturn

  /** BEGIN is statement 0, the inserts follow, COMMIT is the last: none of them fails. */
  ghost predicate AllRun(fails: nat -> bool, n: nat) {
    forall j :: 0 <= j <= n + 1 ==> !fails(j)
  }

  /** What others do while the writer is between two of its steps. */
  predicate Outside(acts: seq<Action>) {
    forall i :: 0 <= i < |acts| ==> acts[i].Send? || acts[i].SysReport?
  }

  predicate AllOutside(arrivals: seq<seq<Action>>) {
    forall i :: 0 <= i < |arrivals| ==> Outside(arrivals[i])
  }

  function Flat(arrivals: seq<seq<Action>>): seq<Action> {
    if arrivals == [] then [] else arrivals[0] + Flat(arrivals[1..])
  }

  /** A stretch of a run without the writer's polls. */
  function Others(acts: seq<Action>): seq<Action> {
    if acts == [] then []
    else Others(acts[..|acts| - 1]) + if acts[|acts| - 1].Drain? then [] else [acts[|acts| - 1]]
  }

  /** The write a poll makes no use of. */
  const NO_WRITE := Write(true, true, 0)

  class Writer {
    const config: Config
    var chans: map<Kind, seq<nat>>
    var pending: seq<Item>
    var nInBatch: nat
    var committed: seq<Item>
    var transaction: Option<seq<Item>>
    var chmodDone: bool
    var producing: bool
    ghost var accepted: seq<Item>
    ghost var others: State            // the machine's state beside the writer's data: its place and flags
    ghost var history: seq<Action>     // everything that happened so far, as a run of the machine

    ghost function View(): State
      reads this
    {
      others.(chans := chans, pending := pending, committed := committed, chmodDone := chmodDone,
              producing := producing, accepted := accepted)
    }

    ghost predicate Valid()
      reads this
    {
      nInBatch == |pending| && transaction.None? && forall k :: k in chans
    }

    /** The object stands where the run of its history does, so that what holds of every run holds of it. */
    ghost predicate Traced()
      reads this
    {
      Valid() && View() == Run(config, history)
    }

    constructor (config: Config)
      ensures Traced() && this.config == config && history == []
    {
      this.config := config;
      chans := map k | k in KINDS :: [];
      pending, nInBatch, committed, transaction, chmodDone, accepted := [], 0, [], None, false, [];
      producing, others, history := true, Init(), [];
      new;
      forall k ensures k in chans { EveryKind(k); }
    }

    /** enqueue of store_batch.go. */
    method Enqueue(kind: Kind, v: nat)
      requires Valid()
      modifies this`pending, this`nInBatch
      ensures Valid() && pending == old(pending) + [Item(kind, v)]
    {
      pending := pending + [Item(kind, v)];
      nInBatch := nInBatch + 1;
    }

    /** writeBatch: one transaction, all rows or none, whichever statement fails. */
    method WriteBatch(items: seq<Item>, fails: nat -> bool) returns (ok: bool)
      requires transaction.None?
      modifies this`committed, this`transaction
      ensures transaction.None?
      ensures ok <==> items == [] || AllRun(fails, |items|)
      ensures committed == if ok then old(committed) + items else old(committed)
    {
      if |items| == 0 { return true; }
      if fails(0) { return false; }
      transaction := Some([]);
      var i := 0;
      while i < |items|
        invariant i <= |items| && transaction == Some(items[..i]) && committed == old(committed)
        invariant forall j :: 0 <= j <= i ==> !fails(j)
      {
        if fails(i + 1) {
          transaction := None;
          return false;
        }
        transaction := Some(transaction.value + [items[i]]);
        assert items[..i] + [items[i]] == items[..i + 1];
        i := i + 1;
      }
      if fails(i + 1) {
        transaction := None;
        return false;
      }
      assert items[..i] == items;
      committed := committed + transaction.value;
      transaction := None;
      return true;
    }

    /** A non-blocking report on the System channel: dropped when it is full. */
    method ReportSys(v: nat)
      requires System in chans
      modifies this`chans, this`accepted
      ensures View() == Report(config, old(View()), v)
    {
      if |chans[System]| < config.capacity {
        chans := chans[System := chans[System] + [v]];
        accepted := accepted + [Item(System, v)];
      }
    }

    method Flush(fails: nat -> bool, chmodOk: bool, note: nat) returns (ok: bool)
      requires Valid()
      modifies this
      ensures Valid() && others == old(others) && history == old(history) && producing == old(producing)
      ensures (View(), ok) == EventStore.Flush(config, old(View()), Write(AllRun(fails, old(|pending|)), chmodOk, note))
      ensures ok <==> old(pending) == [] || AllRun(fails, old(|pending|))
      ensures ok ==> pending == [] && committed == old(committed) + old(pending)
      ensures !ok ==> pending == old(pending) && committed == old(committed)
    {
      if nInBatch == 0 { return true; }
      ok := WriteBatch(pending[..nInBatch], fails);
      assert pending[..nInBatch] == pending;
      if !ok { return; }
      var first := !chmodDone;
      chmodDone := true;
      pending, nInBatch := [], 0;
      if first && !chmodOk { ReportSys(note); }
    }

    /** One more step of the machine has been taken. */
    ghost method Happened(s: State, a: Action)
      requires Valid() && s == Run(config, history) && View() == Step(config, s, a)
      modifies this`history
      ensures Traced() && history == old(history) + [a] && View() == old(View())
    {
      RunOne(config, Init(), history, a);
      history := history + [a];
    }

    method ArriveOne(a: Action)
      requires Traced() && (a.Send? || a.SysReport?)
      modifies this`chans, this`accepted, this`history
      ensures Traced() && history == old(history) + [a] && View().pc == old(View()).pc
    {
      hide Run;
      ghost var was := View();
      if a.Send? {
        if producing && |chans[a.k]| < config.capacity {
          chans := chans[a.k := chans[a.k] + [a.v]];
          accepted := accepted + [Item(a.k, a.v)];
        }
      } else {
        ReportSys(a.v);
      }
      Happened(was, a);
    }

    /** Sends and reports of others: a send that finds its channel full simply waits. */
    method Arrive(acts: seq<Action>)
      requires Traced() && Outside(acts)
      modifies this`chans, this`accepted, this`history
      ensures Traced() && history == old(history) + acts
      ensures View().pc == old(View()).pc && (acts == [] ==> View() == old(View()))
    {
      hide Run;
      var i := 0;
      assert history == old(history) + acts[..0];
      while i < |acts|
        invariant i <= |acts| && Traced() && history == old(history) + acts[..i]
        invariant i == 0 ==> View() == old(View())
        decreases |acts| - i
      {
        ArriveOne(acts[i]);
        assert acts[..i] + [acts[i]] == acts[..i + 1];
        i := i + 1;
      }
      assert acts[..i] == acts;
    }

    /** The end of a turn of the select loop: a full batch is committed. */
    method EndTurn(fails: nat -> bool, chmodOk: bool, note: nat) returns (ok: bool)
      requires Valid()
      modifies this
      ensures Valid() && history == old(history)
      ensures View() == EventStore.EndTurn(config, old(View()), Write(AllRun(fails, old(|pending|)), chmodOk, note))
      ensures !ok ==> View().pc == Failed
      ensures ok ==> others == old(others)
      ensures ok <==> old(|pending|) < config.batchSize || old(pending) == [] || AllRun(fails, old(|pending|))
      ensures var full := old(|pending|) >= config.batchSize;
        && pending == (if full && ok then [] else old(pending))
        && committed == old(committed) + (if full && ok then old(pending) else [])
    {
      ok := true;
      if nInBatch >= config.batchSize {
        ok := Flush(fails, chmodOk, note);
        if !ok { others := others.(pc := EventStore.Pc.Failed); }
      }
    }

    /** A receive in the select loop; System events are committed in a transaction of their own. */
    method Receive(k: Kind, fails: nat -> bool, chmodOk: bool, note: nat) returns (ok: bool)
      requires Traced() && View().pc == Selecting && chans[k] != []
      modifies this
      ensures Traced()
      ensures history == old(history)
        + [Recv(k, Write(AllRun(fails, if k == System then 1 else old(|pending|) + 1), chmodOk, note))]
      ensures View().pc == (if ok then Selecting else Failed)
      ensures k == System ==>
        && (ok <==> AllRun(fails, 1)) && pending == old(pending)
        && committed == old(committed) + (if ok then [Item(k, old(chans[k][0]))] else [])
      ensures k != System ==>
        var batch := old(pending) + [Item(k, old(chans[k][0]))];
        && (ok <==> |batch| < config.batchSize || AllRun(fails, |batch|))
        && pending == (if ok && |batch| >= config.batchSize then [] else batch)
        && committed == old(committed) + (if ok && |batch| >= config.batchSize then batch else [])
    {
      RunBetween(config, history);
      ghost var s := View();
      ghost var w := Write(AllRun(fails, if k == System then 1 else |pending| + 1), chmodOk, note);
      ok := Serve(k, fails, chmodOk, note);
      Happened(s, Recv(k, w));
    }

    /** The branches of the select statement. */
    method Serve(k: Kind, fails: nat -> bool, chmodOk: bool, note: nat) returns (ok: bool)
      requires Valid() && chans[k] != []
      requires View().pc == Selecting && BetweenTurns(config, View())
      modifies this
      ensures Valid() && history == old(history)
      ensures View() == EventStore.Receive(config, old(View()), k,
        Write(AllRun(fails, if k == System then 1 else old(|pending|) + 1), chmodOk, note))
      ensures View().pc == (if ok then Selecting else Failed)
      ensures k == System ==>
        && (ok <==> AllRun(fails, 1)) && pending == old(pending)
        && committed == old(committed) + (if ok then [Item(k, old(chans[k][0]))] else [])
      ensures k != System ==>
        var batch := old(pending) + [Item(k, old(chans[k][0]))];
        && (ok <==> |batch| < config.batchSize || AllRun(fails, |batch|))
        && pending == (if ok && |batch| >= config.batchSize then [] else batch)
        && committed == old(committed) + (if ok && |batch| >= config.batchSize then batch else [])
    {
      hide EventStore.Flush, EventStore.EndTurn;
      ghost var s := View();
      var v := chans[k][0];
      chans := chans[k := chans[k][1..]];
      if k == System {
        ok := WriteBatch([Item(System, v)], fails);
        if !ok {
          others := others.(lost := others.lost + [Item(System, v)], pc := EventStore.Pc.Failed);
          return;
        }
        NothingToFlush(config, View(), AllRun(fails, |pending|), chmodOk, note);
      } else {
        Enqueue(k, v);
        assert View() == Take(s, k);
      }
      ok := EndTurn(fails, chmodOk, note);
    }

    /** The batch timer. */
    method Tick(fails: nat -> bool, chmodOk: bool, note: nat) returns (ok: bool)
      requires Traced() && View().pc == Selecting
      modifies this
      ensures Traced()
      ensures history == old(history) + [EventStore.Action.Tick(Write(AllRun(fails, old(|pending|)), chmodOk, note))]
      ensures View().pc == (if ok then Selecting else Failed)
      ensures ok <==> old(pending) == [] || AllRun(fails, old(|pending|))
      ensures ok ==> pending == [] && committed == old(committed) + old(pending)
      ensures !ok ==> pending == old(pending) && committed == old(committed)
    {
      ghost var s := View();
      ghost var w := Write(AllRun(fails, |pending|), chmodOk, note);
      ok := Flush(fails, chmodOk, note);
      if !ok {
        others := others.(pc := EventStore.Pc.Failed);
      } else {
        ok := EndTurn(fails, chmodOk, note);
      }
      Happened(s, EventStore.Action.Tick(w));
    }

    /** One poll of the drain: the channel is looked at once. */
    method Poll(at: nat, got: bool, ghost next: Then) returns (more: bool)
      requires Traced() && at < |KINDS| && View().pc == Draining(at, got, next)
      modifies this`chans, this`pending, this`nInBatch, this`others, this`history
      ensures Traced() && View().pc == Draining(at + 1, more, next) && history == old(history) + [Drain(NO_WRITE)]
      ensures Total(View()) + (if more then 1 else 0) <= Total(old(View())) + (if got then 1 else 0)
      ensures Total(View()) <= Total(old(View()))
    {
      ghost var s := View();
      more := TryReceive(KINDS[at], got);
      others := others.(pc := Draining(at + 1, more, next));
      StepAt(config, s, at, got, next, NO_WRITE);
      assert s == At(s, at, got, next) && View() == At(TakeIfAny(s, KINDS[at]), at + 1, more, next);
      SameTotal(View(), TakeIfAny(s, KINDS[at]));
      Happened(s, Drain(NO_WRITE));
    }

    /** A select with a default branch. */
    method TryReceive(k: Kind, got: bool) returns (more: bool)
      requires Valid()
      modifies this`chans, this`pending, this`nInBatch
      ensures Valid() && View() == TakeIfAny(old(View()), k)
      ensures more == (got || Chan(old(View()), k) != [])
    {
      more := got;
      if chans[k] != [] {
        var v := chans[k][0];
        chans := chans[k := chans[k][1..]];
        Enqueue(k, v);
        more := true;
      }
    }

    /** One pass over the seven channels, with the arrivals of others before each poll. */
    method DrainPass(arrivals: seq<seq<Action>>, ghost next: Then)
      returns (got: bool, rest: seq<seq<Action>>, ghost trace: seq<Action>)
      requires Traced() && AllOutside(arrivals) && View().pc == Draining(0, false, next)
      modifies this`chans, this`accepted, this`pending, this`nInBatch, this`others, this`history
      ensures Traced() && AllOutside(rest) && View().pc == Draining(|KINDS|, got, next)
      ensures history == old(history) + trace && Others(trace) + Flat(rest) == Flat(arrivals)
      ensures arrivals != [] ==> |rest| < |arrivals|
      ensures arrivals == [] ==> rest == [] && Total(View()) + (if got then 1 else 0) <= Total(old(View()))
    {
      hide Total, Others, Flat, Run;
      got, rest, trace := false, arrivals, [];
      var at := 0;
      NoOthers(Flat(rest));
      while at < |KINDS|
        invariant at <= |KINDS| && Traced() && AllOutside(rest) && View().pc == Draining(at, got, next)
        invariant history == old(history) + trace && Others(trace) + Flat(rest) == Flat(arrivals)
        invariant |rest| <= |arrivals| && (at > 0 && arrivals != [] ==> |rest| < |arrivals|)
        invariant arrivals == [] ==> Total(View()) + (if got then 1 else 0) <= Total(old(View()))
      {
        var now: seq<Action> := if rest == [] then [] else rest[0];
        ghost var was := rest;
        rest := if rest == [] then [] else rest[1..];
        ghost var before := View();
        Arrive(now);
        assert now == [] ==> View() == before;
        got := Poll(at, got, next);
        OthersMore(trace, now, was, rest);
        trace := trace + now + [Drain(NO_WRITE)];
        at := at + 1;
      }
    }

    /** After a pass that found something comes another. */
    ghost method NextPass(next: Then)
      requires Traced() && View().pc == Draining(|KINDS|, true, next)
      modifies this`others, this`history
      ensures Traced() && View() == old(View()).(pc := Draining(0, false, next))
      ensures Total(View()) == Total(old(View())) && history == old(history) + [Drain(NO_WRITE)]
    {
      ghost var s := View();
      others := others.(pc := Draining(0, false, next));
      SameTotal(s, View());
      Happened(s, Drain(NO_WRITE));
    }

    /** Channels.Drain: pass after pass until one finds nothing, while others go on sending. */
    method DrainAll(arrivals: seq<seq<Action>>, ghost next: Then)
      returns (rest: seq<seq<Action>>, ghost trace: seq<Action>)
      requires Traced() && AllOutside(arrivals) && View().pc == Draining(0, false, next)
      modifies this`chans, this`accepted, this`pending, this`nInBatch, this`others, this`history
      ensures Traced() && AllOutside(rest) && View().pc == Draining(|KINDS|, false, next)
      ensures history == old(history) + trace && Others(trace) + Flat(rest) == Flat(arrivals)
    {
      hide Total, Others, Flat, Run;
      rest, trace := arrivals, [];
      var got := true;
      NoOthers(Flat(rest));
      assert Others(trace) + Flat(rest) == Flat(arrivals);
      while got
        invariant Traced() && AllOutside(rest)
        invariant View().pc == if got then Draining(0, false, next) else Draining(|KINDS|, false, next)
        invariant history == old(history) + trace && Others(trace) + Flat(rest) == Flat(arrivals)
        decreases |rest|, Total(View()), got
      {
        ghost var t;
        ghost var was := rest;
        got, rest, t := DrainPass(rest, next);
        OthersThen(trace, t, Flat(was), Flat(rest), Flat(arrivals));
        trace := trace + t;
        if got {
          NextPass(next);
          OthersPoll(trace);
          trace := trace + [Drain(NO_WRITE)];
        }
      }
    }

    /** The callback retention makes between two deletes: one drain, and a commit of a full batch. */
    method Yield(arrivals: seq<seq<Action>>, fails: nat -> bool, chmodOk: bool, note: nat)
      returns (rest: seq<seq<Action>>, ghost trace: seq<Action>, ghost w: Write)
      requires Traced() && AllOutside(arrivals) && View().pc == Cleaning
      modifies this
      ensures Traced() && View().pc == Cleaning
      ensures history == old(history) + [DeletedBatch] + trace + [Drain(w)]
      ensures Others(trace) + Flat(rest) == Flat(arrivals)
    {
      hide Run, Others, Flat;
      Begin(DeletedBatch, BackToCleaning);
      rest, trace := DrainAll(arrivals, BackToCleaning);
      ghost var s := View();
      w := Write(AllRun(fails, |pending|), chmodOk, note);
      CommitIfFull(fails, chmodOk, note);
      assert View() == EndDrain(config, s, BackToCleaning, w);
      Happened(s, Drain(w));
    }

    /** A full batch is committed; a failure is remembered. */
    method CommitIfFull(fails: nat -> bool, chmodOk: bool, note: nat)
      requires Valid()
      modifies this
      ensures Valid() && history == old(history)
      ensures View() ==
        EndDrain(config, old(View()), BackToCleaning, Write(AllRun(fails, old(|pending|)), chmodOk, note))
      ensures var full := old(|pending|) >= config.batchSize && old(pending) != [];
        var ok := AllRun(fails, old(|pending|));
        && pending == (if full && ok then [] else old(pending))
        && committed == old(committed) + (if full && ok then old(pending) else [])
        && View().yieldFailed == (old(View()).yieldFailed || (full && !ok))
    {
      if nInBatch >= config.batchSize {
        var ok := Flush(fails, chmodOk, note);
        others := others.(yieldFailed := others.yieldFailed || !ok);
      }
      others := others.(pc := Cleaning);
    }

    /** A drain begins. */
    ghost method Begin(a: Action, next: Then)
      requires Traced()
      requires (a == DeletedBatch && next == BackToCleaning && View().pc == Cleaning)
        || (a == ProducersGone && next == ShutDown && View().pc == Waiting && !producing)
      modifies this`others, this`history
      ensures Traced() && View() == old(View()).(pc := Draining(0, false, next)) && history == old(history) + [a]
    {
      ghost var s := View();
      others := others.(pc := Draining(0, false, next));
      Happened(s, a);
    }

    /** Both phases of shutdown once the producers exited: drain, then commit what is pending. Services
        may go on reporting; whatever they do, success means that six kinds are committed whole. */
    method Shutdown(arrivals: seq<seq<Action>>, fails: nat -> bool, chmodOk: bool, note: nat)
      returns (ok: bool, rest: seq<seq<Action>>, ghost trace: seq<Action>, ghost w: Write)
      requires Traced() && AllOutside(arrivals) && View().pc == Waiting && !producing
      modifies this
      ensures Traced() && (ok <==> View().pc == Returned)
      ensures history == old(history) + [ProducersGone] + trace + [Drain(w)]
      ensures Others(trace) + Flat(rest) == Flat(arrivals)
      ensures ok ==> pending == [] && forall k :: k != System ==> chans[k] == [] && Of(committed, k) == Of(accepted, k)
    {
      hide Run, Others, Flat;
      Begin(ProducersGone, ShutDown);
      rest, trace := DrainAll(arrivals, ShutDown);
      ghost var s := View();
      w := Write(AllRun(fails, |pending|), chmodOk, note);
      ok := Flush(fails, chmodOk, note);
      others := others.(pc := if ok then Returned else EventStore.Pc.Failed);
      Happened(s, Drain(w));
      if ok {
        forall k | k != System ensures chans[k] == [] && Of(committed, k) == Of(accepted, k) {
          CleanReturn(config, history, k);
        }
        CleanReturn(config, history, Resource);
      }
    }
  }

  lemma {:induction false} OthersConcat(a: seq<Action>, b: seq<Action>)
    ensures Others(a + b) == Others(a) + Others(b)
  {
    if b == [] {
      assert a + b == a;
    } else {
      var n := |b| - 1;
      assert (a + b)[..|a + b| - 1] == a + b[..n];
      OthersConcat(a, b[..n]);
    }
  }

  lemma NoOthers(b: seq<Action>)
    ensures Others([]) + b == b
  {
  }

  lemma OthersThen(a: seq<Action>, t: seq<Action>, was: seq<Action>, rest: seq<Action>, all: seq<Action>)
    requires Others(a) + was == all && Others(t) + rest == was
    ensures Others(a + t) + rest == all
  {
    OthersConcat(a, t);
    assert (Others(a) + Others(t)) + rest == Others(a) + (Others(t) + rest);
  }

  lemma OthersPoll(a: seq<Action>)
    ensures Others(a + [Drain(NO_WRITE)]) == Others(a)
  {
    assert (a + [Drain(NO_WRITE)])[..|a|] == a;
  }

  lemma {:induction false} OthersOutside(a: seq<Action>)
    requires Outside(a)
    ensures Others(a) == a
  {
    if a != [] {
      OthersOutside(a[..|a| - 1]);
    }
  }

  lemma OthersMore(trace: seq<Action>, now: seq<Action>, was: seq<seq<Action>>, rest: seq<seq<Action>>)
    requires Outside(now)
    requires if was == [] then now == [] && rest == [] else now == was[0] && rest == was[1..]
    ensures Others(trace + now + [Drain(NO_WRITE)]) + Flat(rest) == Others(trace) + Flat(was)
  {
    assert Flat(was) == now + Flat(rest);
    hide Others, Flat;
    OthersPoll(trace + now);
    OthersConcat(trace, now);
    OthersOutside(now);
    assert Others(trace) + now + Flat(rest) == Others(trace) + (now + Flat(rest));
  }

  lemma NothingToFlush(c: Config, s: State, ok: bool, chmodOk: bool, note: nat)
    requires |s.pending| < c.batchSize || s.pending == []
    ensures EventStore.EndTurn(c, s, Write(ok, chmodOk, note)) == s
    ensures EventStore.EndTurn(c, s, Write(true, chmodOk, note)) == s
  {
  }
}
