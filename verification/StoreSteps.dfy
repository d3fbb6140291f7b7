/** What each step of the writer does to what is pending and committed, in every run. */
module StoreSteps {
  import opened EventStore
  import opened StoreShutdown

  /** Nothing is lost, and no channel but System is touched. */
  predicate OnlyNotes(s: State, r: State) {
    r.lost == s.lost && forall k :: k != System ==> Chan(r, k) == Chan(s, k)
  }

  /** The first commit of the batch tightens the file modes, once and for all; if it cannot, it says so on
      System, when there is room. */
  predicate Tightens(c: Config, s: State, r: State, commits: bool, w: Write) {
    var noted := commits && !s.chmodDone && !w.chmodOk && |Chan(s, System)| < c.capacity;
    && r.chmodDone == (s.chmodDone || commits)
    && r.accepted == s.accepted + (if noted then [Item(System, w.note)] else [])
    && Chan(r, System) == Chan(s, System) + if noted then [w.note] else []
  }

  lemma FlushFacts(c: Config, s: State, w: Write)
    ensures var (r, ok) := Flush(c, s, w);
      && (ok <==> s.pending == [] || w.ok) && OnlyNotes(s, r) && r.pc == s.pc && r.yieldFailed == s.yieldFailed
      && r.pending == (if ok then [] else s.pending)
      && r.committed == s.committed + (if ok then s.pending else [])
      && Tightens(c, s, r, ok && s.pending != [], w)
  {
  }

  lemma EndTurnFacts(c: Config, s: State, w: Write)
    requires s.pc == Selecting
    ensures var r := EndTurn(c, s, w);
      var full := |s.pending| >= c.batchSize && s.pending != [];
      && OnlyNotes(s, r) && r.pc == (if full && !w.ok then Failed else Selecting)
      && r.pending == (if full && w.ok then [] else s.pending)
      && r.committed == s.committed + (if full && w.ok then s.pending else [])
      && Tightens(c, s, r, full && w.ok, w)
  {
    FlushFacts(c, s, w);
    hide Flush;
  }

  /** The batch timer commits all that is pending, however little; when it cannot, nothing is committed and
      the run ends with the error. */
  lemma TickCommits(c: Config, acts: seq<Action>, w: Write)
    requires Run(c, acts).pc == Selecting
    ensures var s, r := Run(c, acts), Run(c, acts + [Tick(w)]);
      var ok := s.pending == [] || w.ok;
      && OnlyNotes(s, r) && r.pc == (if ok then Selecting else Failed)
      && r.pending == (if ok then [] else s.pending)
      && r.committed == s.committed + (if ok then s.pending else [])
      && Tightens(c, s, r, ok && s.pending != [], w)
  {
    RunOne(c, Init(), acts, Tick(w));
    var s := Run(c, acts);
    hide RunFrom, Flush, EndTurn;
    FlushFacts(c, s, w);
    var (s1, ok) := Flush(c, s, w);
    if ok { EndTurnFacts(c, s1, w); }
  }

  /** A System event is committed at once, alone; when it cannot be, it is lost and the run ends. */
  lemma SystemCommitsAtOnce(c: Config, acts: seq<Action>, w: Write)
    requires Run(c, acts).pc == Selecting && Chan(Run(c, acts), System) != []
    ensures var s, r := Run(c, acts), Run(c, acts + [Recv(System, w)]);
      var item := Item(System, Chan(s, System)[0]);
      && r.pending == s.pending && Chan(r, System) == Chan(s, System)[1..]
      && r.pc == (if w.ok then Selecting else Failed)
      && r.committed == s.committed + (if w.ok then [item] else [])
      && r.lost == s.lost + (if w.ok then [] else [item])
      && forall k :: k != System ==> Chan(r, k) == Chan(s, k)
  {
    RunOne(c, Init(), acts, Recv(System, w));
    RunBetween(c, acts);
    hide RunFrom;
  }

  /** An event of another kind joins the batch; the batch is committed once it is full. */
  lemma OthersAreBatched(c: Config, acts: seq<Action>, k: Kind, w: Write)
    requires k != System && Run(c, acts).pc == Selecting && Chan(Run(c, acts), k) != []
    ensures var s, r := Run(c, acts), Run(c, acts + [Recv(k, w)]);
      var batch := s.pending + [Item(k, Chan(s, k)[0])];
      var full := |batch| >= c.batchSize;
      && Chan(r, k) == Chan(s, k)[1..] && r.lost == s.lost && r.pc == (if full && !w.ok then Failed else Selecting)
      && r.pending == (if full && w.ok then [] else batch)
      && r.committed == s.committed + (if full && w.ok then batch else [])
      && (forall q :: q != k && q != System ==> Chan(r, q) == Chan(s, q))
      && Tightens(c, s, r, full && w.ok, w)
  {
    RunOne(c, Init(), acts, Recv(k, w));
    hide RunFrom, EndTurn, Tightens;
    var s := Run(c, acts);
    TakeFacts(s, k);
    EndTurnFacts(c, Take(s, k), w);
    TightensAlike(c, s, Take(s, k), Run(c, acts + [Recv(k, w)]),
                  |s.pending| + 1 >= c.batchSize && w.ok, w);
  }

  lemma TakeFacts(s: State, k: Kind)
    requires Chan(s, k) != []
    ensures var t := Take(s, k);
      && t == s.(chans := t.chans, pending := s.pending + [Item(k, Chan(s, k)[0])])
      && Chan(t, k) == Chan(s, k)[1..] && forall q :: q != k ==> Chan(t, q) == Chan(s, q)
  {
  }

  /** Only the flags, the accepted events and the System channel matter. */
  lemma TightensAlike(c: Config, s: State, t: State, r: State, commits: bool, w: Write)
    requires Tightens(c, t, r, commits, w)
    requires t.chmodDone == s.chmodDone && t.accepted == s.accepted && Chan(t, System) == Chan(s, System)
    ensures Tightens(c, s, r, commits, w)
  {
  }

  /** Between two deletes of a retention round a full batch is committed; a failure is remembered. */
  lemma YieldCommits(c: Config, acts: seq<Action>, w: Write)
    requires Run(c, acts).pc == Draining(|KINDS|, false, BackToCleaning)
    ensures var s, r := Run(c, acts), Run(c, acts + [Drain(w)]);
      var full := |s.pending| >= c.batchSize && s.pending != [];
      && OnlyNotes(s, r) && r.pc == Cleaning && r.yieldFailed == (s.yieldFailed || (full && !w.ok))
      && r.pending == (if full && w.ok then [] else s.pending)
      && r.committed == s.committed + (if full && w.ok then s.pending else [])
      && Tightens(c, s, r, full && w.ok, w)
  {
    RunOne(c, Init(), acts, Drain(w));
    hide RunFrom, Flush;
    FlushFacts(c, Run(c, acts), w);
  }

  // ---------------------------------------------------------------- a failure inside retention is fatal

  /** A commit of the round has failed, or the run has ended for it. */
  predicate Doomed(s: State) {
    (s.yieldFailed && (s.pc == Cleaning || (s.pc.Draining? && s.pc.next == BackToCleaning))) || s.pc == Failed
  }

  lemma DoomedStays(c: Config, s: State, a: Action)
    requires Doomed(s)
    ensures Doomed(Step(c, s, a))
  {
    if a.Drain? && s.pc.Draining? {
      FlushFacts(c, s, a.w);
    }
    hide Flush, EndTurn;
  }

  lemma {:induction false} DoomedRuns(c: Config, acts: seq<Action>, more: seq<Action>)
    requires Doomed(Run(c, acts))
    ensures Doomed(Run(c, acts + more))
  {
    if more == [] {
      assert acts + more == acts;
    } else {
      var n := |more| - 1;
      DoomedRuns(c, acts, more[..n]);
      assert acts + more == acts + more[..n] + [more[n]];
      RunOne(c, Init(), acts + more[..n], more[n]);
      hide RunFrom, Doomed;
      DoomedStays(c, Run(c, acts + more[..n]), more[n]);
    }
  }

  /** Once a commit inside a round failed, the loop never selects again, and the end of the round is the
      end of the run. */
  lemma FailedYieldEndsRun(c: Config, acts: seq<Action>, w: Write, more: seq<Action>, v: Write)
    requires Run(c, acts).pc == Draining(|KINDS|, false, BackToCleaning) && !w.ok
    requires |Run(c, acts).pending| >= c.batchSize && Run(c, acts).pending != []
    ensures var r := Run(c, acts + [Drain(w)] + more);
      && r.pc != Selecting && r.pc != Returned
      && (r.pc == Cleaning ==> Run(c, acts + [Drain(w)] + more + [RetentionEnd(v)]).pc == Failed)
  {
    YieldCommits(c, acts, w);
    DoomedRuns(c, acts + [Drain(w)], more);
    RunOne(c, Init(), acts + [Drain(w)] + more, RetentionEnd(v));
    hide RunFrom;
  }

  /** A round whose commits all worked goes back to the select loop, with a full batch committed. */
  lemma RoundResumes(c: Config, acts: seq<Action>, w: Write)
    requires Run(c, acts).pc == Cleaning && !Run(c, acts).yieldFailed
    ensures var s, r := Run(c, acts), Run(c, acts + [RetentionEnd(w)]);
      var full := |s.pending| >= c.batchSize && s.pending != [];
      && OnlyNotes(s, r) && r.pc == (if full && !w.ok then Failed else Selecting)
      && r.pending == (if full && w.ok then [] else s.pending)
      && r.committed == s.committed + (if full && w.ok then s.pending else [])
      && Tightens(c, s, r, full && w.ok, w)
  {
    RunOne(c, Init(), acts, RetentionEnd(w));
    hide RunFrom, EndTurn;
    EndTurnFacts(c, Run(c, acts).(pc := Selecting), w);
  }
}
