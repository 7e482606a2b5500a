/** What every run of the batching pipeline keeps: order, conservation, counters, and, for
    clean runs that close the channel, one final store whatever the interleaving. */
module PipelineRuns {
  import opened LedgerTypes
  import opened Sequences
  import opened OrderedScan
  import opened Appends
  import opened BatchPipeline

  // ----- Order -----

  /** The events that worker `w` received, in channel order. */
  function TakenBy(sent: seq<EventEnvelope>, receivers: seq<nat>, w: nat): seq<EventEnvelope>
    requires |receivers| <= |sent|
  {
    if receivers == [] then []
    else
      var n := |receivers| - 1;
      TakenBy(sent, receivers[..n], w) + if receivers[n] == w then [sent[n]] else []
  }

  /** The events of worker `w`'s append attempts, in append order. */
  function FlushedBy(flushes: seq<Flush>, w: nat): seq<EventEnvelope> {
    if flushes == [] then []
    else
      var last := flushes[|flushes| - 1];
      FlushedBy(flushes[..|flushes| - 1], w) + if last.worker == w then last.events else []
  }

  ghost predicate InOrder(s: State) {
    && |s.receivers| <= |s.sent|
    && s.channel == s.sent[|s.receivers|..]
    && (forall i :: 0 <= i < |s.receivers| ==> s.receivers[i] < |s.workers|)
    && (forall w :: 0 <= w < |s.workers| ==>
          TakenBy(s.sent, s.receivers, w) == FlushedBy(s.flushes, w) + Pending(s.workers[w]))
  }

  lemma {:induction false} TakenIgnoresLater(sent: seq<EventEnvelope>, more: seq<EventEnvelope>, receivers: seq<nat>, w: nat)
    requires |receivers| <= |sent|
    ensures TakenBy(sent + more, receivers, w) == TakenBy(sent, receivers, w)
  {
    if receivers != [] {
      TakenIgnoresLater(sent, more, receivers[..|receivers| - 1], w);
    }
  }

  lemma TakenExtend(sent: seq<EventEnvelope>, receivers: seq<nat>, r: nat, w: nat)
    requires |receivers| < |sent|
    ensures TakenBy(sent, receivers + [r], w) ==
            TakenBy(sent, receivers, w) + if r == w then [sent[|receivers|]] else []
  {
    assert (receivers + [r])[..|receivers|] == receivers;
  }

  lemma FlushedExtend(flushes: seq<Flush>, f: Flush, w: nat)
    ensures FlushedBy(flushes + [f], w) == FlushedBy(flushes, w) + if f.worker == w then f.events else []
  {
    assert (flushes + [f])[..|flushes|] == flushes;
  }

  lemma InOrderSend(c: Config, s: State, e: EventEnvelope)
    requires InOrder(s) && Enabled(c, s, Send(e))
    ensures InOrder(Do(c, s, Send(e)))
  {
    forall w | 0 <= w < |s.workers|
      ensures TakenBy(s.sent + [e], s.receivers, w) == TakenBy(s.sent, s.receivers, w)
    {
      TakenIgnoresLater(s.sent, [e], s.receivers, w);
    }
  }

  /** Receiving extends what the receiver took and what it holds by the same event. */
  lemma ReceiveMoves(c: Config, s: State, r: nat, w: nat)
    requires InOrder(s) && Enabled(c, s, Receive(r)) && w < |s.workers|
    ensures |s.receivers| < |s.sent|
    ensures TakenBy(s.sent, s.receivers + [r], w) ==
            FlushedBy(s.flushes, w) + Pending(s.workers[r := Took(c, s.workers[r], s.channel[0])][w])
  {
    TakenExtend(s.sent, s.receivers, r, w);
    assert s.channel[0] == s.sent[|s.receivers|];
    assert TakenBy(s.sent, s.receivers, w) == FlushedBy(s.flushes, w) + Pending(s.workers[w]);
  }

  lemma InOrderReceive(c: Config, s: State, r: nat)
    requires InOrder(s) && Enabled(c, s, Receive(r))
    ensures InOrder(Do(c, s, Receive(r)))
  {
    var t := Do(c, s, Receive(r));
    ReceiveMoves(c, s, r, r);
    forall w | 0 <= w < |t.workers|
      ensures TakenBy(t.sent, t.receivers, w) == FlushedBy(t.flushes, w) + Pending(t.workers[w])
    {
      ReceiveMoves(c, s, r, w);
    }
    assert t.channel == t.sent[|t.receivers|..];
  }

  /** An append attempt moves a worker's pending events, in order, to its flushed ones. */
  lemma FlushMoves(s: State, r: nat, recording: Worker, error: Option<StoreError>, w: nat)
    requires r < |s.workers| && w < |s.workers|
    requires s.workers[r].phase.Flushing? && recording.phase.Recording?
    ensures FlushedBy(s.flushes + [Flush(r, s.workers[r].batch, error)], w) + Pending(s.workers[r := recording][w]) ==
            FlushedBy(s.flushes, w) + Pending(s.workers[w])
  {
    FlushedExtend(s.flushes, Flush(r, s.workers[r].batch, error), w);
  }

  lemma InOrderAppend(c: Config, s: State, r: nat, faults: Faults)
    requires InOrder(s) && Enabled(c, s, Append(r, faults))
    ensures InOrder(Do(c, s, Append(r, faults)))
  {
    var t := Do(c, s, Append(r, faults));
    forall w | 0 <= w < |t.workers|
      ensures FlushedBy(t.flushes, w) + Pending(t.workers[w]) == FlushedBy(s.flushes, w) + Pending(s.workers[w])
    {
      FlushMoves(s, r, t.workers[r], t.flushes[|s.flushes|].error, w);
    }
  }

  lemma InOrderMove(s: State, t: State, r: nat)
    requires InOrder(s) && r < |s.workers| && r < |t.workers|
    requires Pending(t.workers[r]) == Pending(s.workers[r]) && t.workers == s.workers[r := t.workers[r]]
    requires t.channel == s.channel && t.sent == s.sent && t.receivers == s.receivers && t.flushes == s.flushes
    ensures InOrder(t)
  {
    forall w | 0 <= w < |t.workers| ensures Pending(t.workers[w]) == Pending(s.workers[w]) {
    }
  }

  lemma InOrderStep(c: Config, s: State, step: Step)
    requires InOrder(s) && Enabled(c, s, step)
    ensures InOrder(Do(c, s, step))
  {
    match step {
      case Send(e) => InOrderSend(c, s, e);
      case Receive(r) => InOrderReceive(c, s, r);
      case Append(r, faults) => InOrderAppend(c, s, r, faults);
      case Close =>
      case Shutdown =>
      case _ => InOrderMove(s, Do(c, s, step), step.w);
    }
  }

  // ----- Backpressure -----

  ghost predicate CanRun(c: Config, s: State, steps: seq<Step>) {
    exists t :: Runs(c, s, steps, t)
  }

  predicate AllSends(steps: seq<Step>) {
    forall i :: 0 <= i < |steps| ==> steps[i].Send?
  }

  lemma {:induction false} SendsFit(c: Config, s: State, steps: seq<Step>) returns (t: State)
    requires AllSends(steps) && ReceiverAlive(s) && !s.closed && |s.channel| + |steps| <= c.bufferSize
    ensures Runs(c, s, steps, t)
    decreases |steps|
  {
    if steps == [] {
      t := s;
    } else {
      var mid := Do(c, s, steps[0]);
      assert mid.workers == s.workers;
      t := SendsFit(c, mid, steps[1..]);
    }
  }

  lemma {:induction false} SendsAddUp(c: Config, s: State, steps: seq<Step>, t: State)
    requires AllSends(steps) && Runs(c, s, steps, t) && |s.channel| <= c.bufferSize
    ensures |s.channel| + |steps| <= c.bufferSize
    decreases |steps|
  {
    if steps != [] {
      SendsAddUp(c, Do(c, s, steps[0]), steps[1..], t);
    }
  }

  /** While nothing is received, exactly up to `buffer_size` events can be sent. */
  lemma Backpressure(c: Config, db: Db, steps: seq<Step>)
    requires c.numProcessors > 0 && AllSends(steps)
    ensures CanRun(c, Start(c, db), steps) <==> |steps| <= c.bufferSize
  {
    var s := Start(c, db);
    assert !s.workers[0].phase.Stopped?;
    if |steps| <= c.bufferSize {
      var t := SendsFit(c, s, steps);
      assert CanRun(c, s, steps);
    }
    if CanRun(c, s, steps) {
      var t :| Runs(c, s, steps, t);
      SendsAddUp(c, s, steps, t);
    }
  }

  // ----- Every reachable state -----

  ghost predicate Inv(c: Config, s: State) {
    Bounded(c, s) && Conserved(s) && Counted(s) && InOrder(s)
  }

  lemma StartInv(c: Config, db: Db)
    ensures Inv(c, Start(c, db))
  {
    var s := Start(c, db);
    GatherEmpty(PendingBag(), s.workers);
    SumZero(Uncounted(EventsOf), s.workers);
    SumZero(Uncounted(BatchesOf), s.workers);
    SumZero(Uncounted(ErrorsOf), s.workers);
    SumZero(Uncounted(ViolationsOf), s.workers);
  }

  lemma {:induction false} StepInv(c: Config, s: State, step: Step)
    requires Inv(c, s) && Enabled(c, s, step)
    ensures Inv(c, Do(c, s, step))
    ensures Extends(s.db, Do(c, s, step).db)
    ensures |Do(c, s, step).workers| == |s.workers|
  {
    hide Bounded, Conserved, Counted, InOrder;
    BoundedStep(c, s, step);
    ConservedStep(c, s, step);
    CountedStep(c, s, step);
    InOrderStep(c, s, step);
    if step.Append? {
      AppendExtends(s.db, s.workers[step.w].batch, step.faults, c.optimizedAppend);
    }
  }

  lemma {:induction false} RunInv(c: Config, s: State, steps: seq<Step>, t: State)
    requires Inv(c, s) && Runs(c, s, steps, t)
    ensures Inv(c, t) && Extends(s.db, t.db) && |t.workers| == |s.workers|
    decreases |steps|
  {
    hide Inv;
    if steps != [] {
      StepInv(c, s, steps[0]);
      RunInv(c, Do(c, s, steps[0]), steps[1..], t);
    }
  }

  /** Conservation, bounds, counters and order hold in every reachable state, with duplicates,
      failing flushes and shutdown allowed, and the store only grows. */
  lemma {:induction false} Reachable(c: Config, db: Db, steps: seq<Step>, t: State)
    requires Runs(c, Start(c, db), steps, t)
    ensures Inv(c, t) && Extends(db, t.db) && |t.workers| == c.numProcessors
  {
    StartInv(c, db);
    RunInv(c, Start(c, db), steps, t);
  }

  lemma {:induction false} CommittedCount(flushes: seq<Flush>)
    ensures SumBy(EventsOf, flushes) == |Outcome(flushes, true)|
  {
    if flushes != [] {
      var n := |flushes| - 1;
      CommittedCount(flushes[..n]);
      assert flushes == flushes[..n] + [flushes[n]];
      SumAppend(EventsOf, flushes[..n], [flushes[n]]);
      assert [flushes[n]][1..] == [];
    }
  }

  /** Between flushes the counters are exactly the history's. */
  lemma SettledCounters(c: Config, s: State)
    requires Inv(c, s)
    requires forall w :: 0 <= w < |s.workers| ==> !s.workers[w].phase.Recording?
    ensures s.metrics.events == |Outcome(s.flushes, true)|
    ensures s.metrics.batches == SumBy(BatchesOf, s.flushes)
    ensures s.metrics.errors == SumBy(ErrorsOf, s.flushes)
    ensures s.metrics.violations == SumBy(ViolationsOf, s.flushes)
  {
    CommittedCount(s.flushes);
    SumZero(Uncounted(EventsOf), s.workers);
    SumZero(Uncounted(BatchesOf), s.workers);
    SumZero(Uncounted(ErrorsOf), s.workers);
    SumZero(Uncounted(ViolationsOf), s.workers);
  }

  /** `idx` picks `sub` out of `full` from left to right. */
  ghost predicate PicksOut<T>(idx: seq<nat>, sub: seq<T>, full: seq<T>) {
    && |idx| == |sub|
    && (forall i :: 0 <= i < |idx| ==> idx[i] < |full| && full[idx[i]] == sub[i])
    && (forall i, j :: 0 <= i < j < |idx| ==> idx[i] < idx[j])
  }

  lemma PicksOutLonger<T>(idx: seq<nat>, sub: seq<T>, full: seq<T>, more: seq<T>)
    requires PicksOut(idx, sub, full)
    ensures PicksOut(idx, sub, full + more)
  {
  }

  lemma PicksOutExtend<T>(idx: seq<nat>, sub: seq<T>, full: seq<T>, x: T)
    requires PicksOut(idx, sub, full)
    ensures PicksOut(idx + [|full|], sub + [x], full + [x])
  {
  }

  lemma {:induction false} TakenIsSubsequence(sent: seq<EventEnvelope>, receivers: seq<nat>, w: nat) returns (idx: seq<nat>)
    requires |receivers| <= |sent|
    ensures PicksOut(idx, TakenBy(sent, receivers, w), sent[..|receivers|])
  {
    if receivers == [] {
      idx := [];
    } else {
      var n := |receivers| - 1;
      var sub := TakenBy(sent, receivers[..n], w);
      idx := TakenIsSubsequence(sent, receivers[..n], w);
      assert sent[..n + 1] == sent[..n] + [sent[n]];
      if receivers[n] == w {
        PicksOutExtend(idx, sub, sent[..n], sent[n]);
        idx := idx + [n];
      } else {
        PicksOutLonger(idx, sub, sent[..n], [sent[n]]);
        assert sub + [] == sub;
      }
    }
  }

  /** Each worker's append attempts followed by its current batch are a subsequence of the send order. */
  lemma WorkerOrder(c: Config, db: Db, steps: seq<Step>, t: State, w: nat) returns (idx: seq<nat>)
    requires Runs(c, Start(c, db), steps, t) && w < |t.workers|
    ensures PicksOut(idx, FlushedBy(t.flushes, w) + Pending(t.workers[w]), t.sent)
  {
    Reachable(c, db, steps, t);
    idx := TakenIsSubsequence(t.sent, t.receivers, w);
    var n := |t.receivers|;
    PicksOutLonger(idx, TakenBy(t.sent, t.receivers, w), t.sent[..n], t.sent[n..]);
    assert t.sent == t.sent[..n] + t.sent[n..];
  }

  lemma {:induction false} TakenBySole(sent: seq<EventEnvelope>, receivers: seq<nat>)
    requires |receivers| <= |sent| && forall i :: 0 <= i < |receivers| ==> receivers[i] == 0
    ensures TakenBy(sent, receivers, 0) == sent[..|receivers|]
  {
    if receivers != [] {
      var n := |receivers| - 1;
      TakenBySole(sent, receivers[..n]);
      assert sent[..n + 1] == sent[..n] + [sent[n]];
    }
  }

  /** With one worker nothing is reordered: attempts, batch and channel spell the sent sequence. */
  lemma SingleWorkerOrder(c: Config, db: Db, steps: seq<Step>, t: State)
    requires c.numProcessors == 1 && Runs(c, Start(c, db), steps, t)
    ensures |t.workers| == 1
    ensures FlushedBy(t.flushes, 0) + Pending(t.workers[0]) + t.channel == t.sent
  {
    Reachable(c, db, steps, t);
    TakenBySole(t.sent, t.receivers);
  }
}
