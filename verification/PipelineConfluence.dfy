/** Clean runs of the pipeline: one final store for every interleaving, and an end for every run. */
module PipelineConfluence {
  import opened LedgerTypes
  import opened EventKeys
  import opened Sequences
  import opened OrderedScan
  import opened Appends
  import opened BatchPipeline
  import opened PipelineRuns

  // ----- Distinct keys and multisets -----

  lemma TwiceCounted<T>(s: seq<T>, i: nat, j: nat)
    requires i < j < |s| && s[i] == s[j]
    ensures multiset(s)[s[i]] >= 2
  {
    assert s == s[..j] + s[j..];
    assert s[..j][i] == s[i] && s[j..][0] == s[i];
    assert s[i] in multiset(s[..j]) && s[i] in multiset(s[j..]);
    assert multiset(s) == multiset(s[..j]) + multiset(s[j..]);
  }

  lemma CountedTwice<T>(s: seq<T>, x: T) returns (i: nat, j: nat)
    requires multiset(s)[x] >= 2
    ensures i < j < |s| && s[i] == x && s[j] == x
  {
    assert x in s;
    i :| 0 <= i < |s| && s[i] == x;
    var front, back := s[..i], s[i + 1..];
    assert s == front + [x] + back;
    assert multiset(s) == multiset(front) + multiset{x} + multiset(back);
    if x in back {
      var k :| 0 <= k < |back| && back[k] == x;
      j := i + 1 + k;
    } else {
      assert x in front;
      j := i;
      i :| 0 <= i < |front| && front[i] == x;
    }
  }

  /** A part of a collection with distinct keys has distinct keys. */
  lemma PartDistinct(part: seq<EventEnvelope>, whole: seq<EventEnvelope>)
    requires KeysDistinct(whole) && multiset(part) <= multiset(whole)
    ensures KeysDistinct(part)
  {
    forall i, j | 0 <= i < j < |part| ensures EventKey(part[i]) != EventKey(part[j]) {
      if EventKey(part[i]) == EventKey(part[j]) {
        assert part[i] in multiset(part) && part[j] in multiset(part);
        var a :| 0 <= a < |whole| && whole[a] == part[i];
        var b :| 0 <= b < |whole| && whole[b] == part[j];
        assert a == b;
        TwiceCounted(part, i, j);
        var x, y := CountedTwice(whole, part[i]);
        assert false;
      }
    }
  }

  lemma {:induction false} PutsConcat(a: seq<EventEnvelope>, b: seq<EventEnvelope>)
    ensures Puts(a + b) == Puts(a) + Puts(b)
  {
    if b == [] {
      assert a + b == a;
    } else {
      var n := |b| - 1;
      PutsConcat(a, b[..n]);
      assert (a + b)[..|a + b| - 1] == a + b[..n] && (a + b)[|a + b| - 1] == b[n];
      assert Puts(a + b) == (Puts(a) + Puts(b[..n]))[EventKey(b[n]) := b[n]];
    }
  }

  lemma {:induction false} PutsWithin(a: seq<EventEnvelope>, b: seq<EventEnvelope>)
    requires KeysDistinct(a) && KeysDistinct(b) && multiset(a) == multiset(b)
    ensures forall k :: k in Puts(a) ==> k in Puts(b) && Puts(b)[k] == Puts(a)[k]
  {
    forall k | k in Puts(a) ensures k in Puts(b) && Puts(b)[k] == Puts(a)[k] {
      var e := Puts(a)[k];
      DistinctPuts(a, k, e);
      assert e in multiset(a);
      DistinctPuts(b, k, e);
    }
  }

  /** Under distinct keys the write batch forgets the order. */
  lemma {:induction false} PutsUnordered(a: seq<EventEnvelope>, b: seq<EventEnvelope>)
    requires KeysDistinct(a) && multiset(a) == multiset(b)
    ensures Puts(a) == Puts(b) && |a| == |b|
  {
    PartDistinct(b, a);
    PutsWithin(a, b);
    PutsWithin(b, a);
    assert |a| == |multiset(a)| && |b| == |multiset(b)|;
  }

  lemma DistinctConcat(a: seq<EventEnvelope>, b: seq<EventEnvelope>, i: nat)
    requires KeysDistinct(a + b) && i < |b|
    ensures EventKey(b[i]) !in Puts(a)
  {
    PutsKeys(a, EventKey(b[i]));
    forall j | 0 <= j < |a| ensures EventKey(a[j]) != EventKey(b[i]) {
      assert (a + b)[j] == a[j] && (a + b)[|a| + i] == b[i];
    }
  }

  // ----- Clean runs -----

  /** No shutdown and no foreign failure. */
  predicate CleanStep(step: Step) {
    match step
    case Shutdown => false
    case Append(_, faults) => faults == NO_FAULTS
    case _ => true
  }

  ghost predicate CleanRun(steps: seq<Step>) {
    forall i :: 0 <= i < |steps| ==> CleanStep(steps[i])
  }

  /** Everything sent is new to the store and differs in key. */
  ghost predicate FreshEvents(db: Db, sent: seq<EventEnvelope>) {
    KeysDistinct(sent) && forall i :: 0 <= i < |sent| ==> EventKey(sent[i]) !in db
  }

  predicate Departing(worker: Worker) {
    match worker.phase
    case Flushing(stop) => stop
    case Recording(_, stop) => stop
    case Stopped => true
    case Idle => false
  }

  /** Without shutdown a worker leaves only once the channel is closed and drained, and without
      workers nothing is ever sent. */
  ghost predicate Draining(s: State) {
    && !s.shutdown
    && (forall w :: 0 <= w < |s.workers| && Departing(s.workers[w]) ==> s.closed && s.channel == [])
    && (s.workers == [] ==> s.sent == [])
  }

  /** If what was sent is fresh, every append so far committed and the store is the initial
      one plus exactly the appended events. */
  ghost predicate Loaded(db: Db, s: State) {
    FreshEvents(db, s.sent) ==>
      && Outcome(s.flushes, false) == []
      && SumBy(ErrorsOf, s.flushes) == 0
      && s.db == db + Puts(Outcome(s.flushes, true))
  }

  lemma DrainingStep(c: Config, s: State, step: Step)
    requires Draining(s) && Enabled(c, s, step) && CleanStep(step)
    ensures Draining(Do(c, s, step))
  {
    var t := Do(c, s, step);
    forall w | 0 <= w < |t.workers| && Departing(t.workers[w]) ensures t.closed && t.channel == [] {
      if Departing(s.workers[w]) {
      }
    }
  }

  lemma FreshPrefix(db: Db, sent: seq<EventEnvelope>, e: EventEnvelope)
    requires FreshEvents(db, sent + [e])
    ensures FreshEvents(db, sent)
  {
    var all := sent + [e];
    assert forall i :: 0 <= i < |sent| ==> all[i] == sent[i];
  }

  /** A batch that is about to be appended shares no key with the store. */
  lemma PendingCommits(c: Config, db: Db, s: State, w: nat)
    requires Inv(c, s) && Loaded(db, s) && FreshEvents(db, s.sent)
    requires w < |s.workers| && s.workers[w].phase.Flushing?
    ensures Commits(s.db, s.workers[w].batch, NO_FAULTS)
  {
    var batch, stored := s.workers[w].batch, Outcome(s.flushes, true);
    GatherContains(PendingBag(), s.workers, w);
    assert multiset(stored + batch) == multiset(stored) + multiset(batch) <= multiset(s.sent);
    PartDistinct(stored + batch, s.sent);
    forall i | 0 <= i < |batch| ensures Clean(s.db, batch, NO_FAULTS, i) {
      assert batch[i] in multiset(stored + batch);
      assert batch[i] in s.sent;
      DistinctConcat(stored, batch, i);
    }
  }

  /** A committed flush extends the committed events and the store together. */
  lemma FlushCommitted(c: Config, s: State, w: nat)
    requires Enabled(c, s, Append(w, NO_FAULTS)) && Commits(s.db, s.workers[w].batch, NO_FAULTS)
    ensures var t, batch := Do(c, s, Append(w, NO_FAULTS)), s.workers[w].batch;
      && t.flushes == s.flushes + [Flush(w, batch, None)]
      && t.db == s.db + Puts(batch)
  {
    BatchPathsAgree(s.db, s.workers[w].batch, NO_FAULTS, c.optimizedAppend);
  }

  lemma LoadedExtend(flushes: seq<Flush>, f: Flush)
    requires f.error.None? && Outcome(flushes, false) == [] && SumBy(ErrorsOf, flushes) == 0
    ensures Outcome(flushes + [f], false) == [] && SumBy(ErrorsOf, flushes + [f]) == 0
    ensures Outcome(flushes + [f], true) == Outcome(flushes, true) + f.events
  {
    OutcomeExtend(flushes, f, true);
    OutcomeExtend(flushes, f, false);
    SumAppend(ErrorsOf, flushes, [f]);
    assert [f][1..] == [];
  }

  lemma {:induction false} StoreGrows(db: Db, stored: seq<EventEnvelope>, batch: seq<EventEnvelope>)
    ensures (db + Puts(stored)) + Puts(batch) == db + Puts(stored + batch)
  {
    PutsConcat(stored, batch);
    assert (db + Puts(stored)) + Puts(batch) == db + (Puts(stored) + Puts(batch));
  }

  lemma LoadedAppend(c: Config, db: Db, s: State, w: nat)
    requires Loaded(db, s) && Enabled(c, s, Append(w, NO_FAULTS))
    requires FreshEvents(db, s.sent) ==> Commits(s.db, s.workers[w].batch, NO_FAULTS)
    ensures Loaded(db, Do(c, s, Append(w, NO_FAULTS)))
  {
    if FreshEvents(db, s.sent) {
      FlushCommitted(c, s, w);
      LoadedExtend(s.flushes, Flush(w, s.workers[w].batch, None));
      StoreGrows(db, Outcome(s.flushes, true), s.workers[w].batch);
    }
  }

  lemma LoadedStep(c: Config, db: Db, s: State, step: Step)
    requires Inv(c, s) && Loaded(db, s) && Enabled(c, s, step) && CleanStep(step)
    ensures Loaded(db, Do(c, s, step))
  {
    match step {
      case Send(e) =>
        if FreshEvents(db, s.sent + [e]) {
          FreshPrefix(db, s.sent, e);
        }
      case Append(w, _) =>
        if FreshEvents(db, s.sent) {
          PendingCommits(c, db, s, w);
        }
        LoadedAppend(c, db, s, w);
      case _ =>
    }
  }

  ghost predicate CleanInv(c: Config, db: Db, s: State) {
    Inv(c, s) && Draining(s) && Loaded(db, s)
  }

  lemma {:induction false} CleanInvStep(c: Config, db: Db, s: State, step: Step)
    requires CleanInv(c, db, s) && Enabled(c, s, step) && CleanStep(step)
    ensures CleanInv(c, db, Do(c, s, step))
  {
    hide Inv, Draining, Loaded;
    StepInv(c, s, step);
    DrainingStep(c, s, step);
    LoadedStep(c, db, s, step);
  }

  lemma {:induction false} CleanRunInv(c: Config, db: Db, s: State, steps: seq<Step>, t: State)
    requires CleanInv(c, db, s) && Runs(c, s, steps, t) && CleanRun(steps)
    ensures CleanInv(c, db, t)
    decreases |steps|
  {
    hide CleanInv;
    if steps != [] {
      CleanInvStep(c, db, s, steps[0]);
      CleanRunInv(c, db, Do(c, s, steps[0]), steps[1..], t);
    }
  }

  predicate AllStopped(s: State) {
    forall w :: 0 <= w < |s.workers| ==> s.workers[w].phase.Stopped?
  }

  /** When every worker has stopped, all that was sent has been through an append. */
  lemma {:induction false} StoppedIsDrained(c: Config, s: State)
    requires Inv(c, s) && Draining(s) && AllStopped(s)
    ensures multiset(s.sent) == multiset(Outcome(s.flushes, true)) + multiset(Outcome(s.flushes, false))
  {
    forall w | 0 <= w < |s.workers| ensures PendingBag()(s.workers[w]) == multiset{} {
      assert WorkerOk(c, s.workers[w]);
    }
    GatherEmpty(PendingBag(), s.workers);
    if s.workers != [] {
      assert Departing(s.workers[0]);
    }
  }

  /** Confluence: whatever the number of workers, the batch size, the append path and the
      interleaving, a clean run that ends leaves the initial store plus exactly the sent events,
      counts each of them once and reports no error. */
  lemma {:induction false} Confluence(c: Config, db: Db, steps: seq<Step>, t: State)
    requires Runs(c, Start(c, db), steps, t) && CleanRun(steps)
    requires AllStopped(t) && FreshEvents(db, t.sent)
    ensures t.db == db + Puts(t.sent)
    ensures t.metrics.events == |t.sent| && t.metrics.errors == 0 && t.metrics.violations == 0
  {
    CleanReachable(c, db, steps, t);
    StoppedIsDrained(c, t);
    SettledCounters(c, t);
    PutsUnordered(t.sent, Outcome(t.flushes, true));
    ViolationsAreErrors(t.flushes);
  }

  lemma CleanReachable(c: Config, db: Db, steps: seq<Step>, t: State)
    requires Runs(c, Start(c, db), steps, t) && CleanRun(steps)
    ensures CleanInv(c, db, t)
  {
    StartInv(c, db);
    assert db + Puts([]) == db;
    CleanRunInv(c, db, Start(c, db), steps, t);
  }

  lemma {:induction false} ViolationsAreErrors(flushes: seq<Flush>)
    ensures 0 <= SumBy(ViolationsOf, flushes) <= SumBy(ErrorsOf, flushes)
  {
    if flushes != [] {
      ViolationsAreErrors(flushes[1..]);
    }
  }

  /** Two clean runs that were sent the same events, in any order, end in the same store. */
  lemma {:induction false} SameEventsSameStore(c: Config, d: Config, db: Db, steps: seq<Step>, t: State, steps': seq<Step>, t': State)
    requires Runs(c, Start(c, db), steps, t) && CleanRun(steps) && AllStopped(t)
    requires Runs(d, Start(d, db), steps', t') && CleanRun(steps') && AllStopped(t')
    requires FreshEvents(db, t.sent) && multiset(t.sent) == multiset(t'.sent)
    ensures t.db == t'.db && t.metrics.events == t'.metrics.events
  {
    assert FreshEvents(db, t'.sent) by {
      PartDistinct(t'.sent, t.sent);
      forall i | 0 <= i < |t'.sent| ensures EventKey(t'.sent[i]) !in db {
        assert t'.sent[i] in multiset(t'.sent);
        assert t'.sent[i] in t.sent;
      }
    }
    Confluence(c, db, steps, t);
    Confluence(d, db, steps', t');
    PutsUnordered(t.sent, t'.sent);
  }

  // ----- Progress -----

  /** Steps a worker still has before it. */
  function Weight(): Worker -> int {
    (worker: Worker) =>
      match worker.phase
      case Stopped => 0
      case Recording(_, _) => 2
      case Flushing(_) => 3
      case Idle => if worker.batch == [] then 1 else 4
  }

  function Remaining(s: State): int {
    4 * |s.channel| + SumBy(Weight(), s.workers)
  }

  lemma {:induction false} WeightsNonNegative(workers: seq<Worker>)
    ensures SumBy(Weight(), workers) >= 0
  {
    if workers != [] {
      WeightsNonNegative(workers[1..]);
    }
  }

  lemma ClosedStepDescends(c: Config, s: State, step: Step)
    requires s.closed && Enabled(c, s, step) && !step.Shutdown?
    ensures Do(c, s, step).closed && Remaining(Do(c, s, step)) < Remaining(s)
  {
    var t := Do(c, s, step);
    SumUpdate(Weight(), s.workers, step.w, t.workers[step.w]);
  }

  /** After the channel is closed a run can take only as many steps as remain, and while some
      worker runs a step is possible: every such run that goes on as long as it can ends with
      all workers stopped. */
  lemma {:induction false} ClosedRunsEnd(c: Config, s: State, steps: seq<Step>, t: State)
    requires s.closed && Runs(c, s, steps, t)
    requires forall i :: 0 <= i < |steps| ==> !steps[i].Shutdown?
    ensures |steps| <= Remaining(s) - Remaining(t) <= Remaining(s)
    ensures (forall step: Step :: !step.Shutdown? ==> !Enabled(c, t, step)) <==> AllStopped(t)
    decreases |steps|
  {
    if steps == [] {
      WeightsNonNegative(s.workers);
      if !AllStopped(s) {
        var w: nat :| w < |s.workers| && !s.workers[w].phase.Stopped?;
        var step :=
          if s.workers[w].phase.Flushing? then Append(w, NO_FAULTS)
          else if s.workers[w].phase.Recording? then Record(w)
          else if s.channel == [] then SeeClosed(w)
          else Receive(w);
        assert Enabled(c, s, step);
      }
    } else {
      ClosedStepDescends(c, s, steps[0]);
      ClosedRunsEnd(c, Do(c, s, steps[0]), steps[1..], t);
    }
  }
}
