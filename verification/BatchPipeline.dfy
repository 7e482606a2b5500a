/** The batching pipeline as a transition system: one bounded channel, any number of
    workers with private batches, and a store they share. A flush is two atomic steps,
    the append under the store's write lock and the later metrics update. */
module BatchPipeline {
  import opened LedgerTypes
  import opened Sequences
  import opened OrderedScan
  import opened Appends

  datatype Config = Config(maxBatchSize: nat, bufferSize: nat, numProcessors: nat, optimizedAppend: bool)

  datatype Phase =
    | Idle
    | Flushing(stop: bool)
    | Recording(error: Option<StoreError>, stop: bool)
    | Stopped

  datatype Worker = Worker(batch: seq<EventEnvelope>, phase: Phase)

  datatype Metrics = Metrics(events: nat, batches: nat, errors: nat, violations: nat)

  /** One append attempt: by whom, of what, with which error. */
  datatype Flush = Flush(worker: nat, events: seq<EventEnvelope>, error: Option<StoreError>)

  /** The last three fields record the run: what was sent, which worker received each event
      (in channel order), and the append attempts in order. */
  datatype State = State(
    channel: seq<EventEnvelope>,
    closed: bool,
    shutdown: bool,
    workers: seq<Worker>,
    db: Db,
    metrics: Metrics,
    sent: seq<EventEnvelope>,
    receivers: seq<nat>,
    flushes: seq<Flush>)

  datatype Step =
    | Send(event: EventEnvelope)
    | Close
    | Shutdown
    | Receive(w: nat)
    | SeeClosed(w: nat)
    | Tick(w: nat)
    | SeeShutdown(w: nat)
    | Append(w: nat, faults: Faults)
    | Record(w: nat)

  function Start(c: Config, db: Db): State {
    State([], false, false, seq(c.numProcessors, _ => Worker([], Idle)), db, Metrics(0, 0, 0, 0), [], [], [])
  }

  predicate IsIdle(s: State, w: nat) {
    w < |s.workers| && s.workers[w].phase.Idle?
  }

  /** The receiving half of the channel lives while some worker does. */
  predicate ReceiverAlive(s: State) {
    exists w :: 0 <= w < |s.workers| && !s.workers[w].phase.Stopped?
  }

  predicate Enabled(c: Config, s: State, step: Step) {
    match step
    case Send(_) => !s.closed && |s.channel| < c.bufferSize && ReceiverAlive(s)
    case Close => !s.closed
    case Shutdown => true
    case Receive(w) => IsIdle(s, w) && s.channel != []
    case SeeClosed(w) => IsIdle(s, w) && s.closed && s.channel == []
    case Tick(w) => IsIdle(s, w) && s.workers[w].batch != []
    case SeeShutdown(w) => IsIdle(s, w) && s.shutdown
    case Append(w, _) => w < |s.workers| && s.workers[w].phase.Flushing?
    case Record(w) => w < |s.workers| && s.workers[w].phase.Recording?
  }

  predicate IsFull(batch: seq<EventEnvelope>, maxSize: nat) {
    |batch| >= maxSize
  }

  /** A worker that takes one event, and flushes if that fills its batch. */
  function Took(c: Config, worker: Worker, e: EventEnvelope): Worker {
    var batch := worker.batch + [e];
    Worker(batch, if IsFull(batch, c.maxBatchSize) then Flushing(false) else Idle)
  }

  /** A worker that leaves its loop, flushing what it still holds. */
  function Leaving(worker: Worker): Worker {
    worker.(phase := if worker.batch == [] then Stopped else Flushing(true))
  }

  function RecordFlush(m: Metrics, batchSize: nat, error: Option<StoreError>): Metrics {
    match error
    case None => m.(events := m.events + batchSize, batches := m.batches + 1)
    case Some(e) =>
      m.(errors := m.errors + 1, violations := m.violations + if e.ConcurrencyError? then 1 else 0)
  }

  function SetWorker(s: State, w: nat, worker: Worker): State
    requires w < |s.workers|
  {
    s.(workers := s.workers[w := worker])
  }

  function Do(c: Config, s: State, step: Step): State
    requires Enabled(c, s, step)
  {
    match step
    case Send(e) => s.(channel := s.channel + [e], sent := s.sent + [e])
    case Close => s.(closed := true)
    case Shutdown => s.(shutdown := true)
    case Receive(w) =>
      SetWorker(s, w, Took(c, s.workers[w], s.channel[0])).(
        channel := s.channel[1..], receivers := s.receivers + [w])
    case SeeClosed(w) => SetWorker(s, w, Leaving(s.workers[w]))
    case Tick(w) => SetWorker(s, w, s.workers[w].(phase := Flushing(false)))
    case SeeShutdown(w) => SetWorker(s, w, Leaving(s.workers[w]))
    case Append(w, faults) =>
      var worker := s.workers[w];
      var error := AppendError(s.db, worker.batch, faults, c.optimizedAppend);
      SetWorker(s, w, worker.(phase := Recording(error, worker.phase.stop))).(
        db := AfterAppend(s.db, worker.batch, faults, c.optimizedAppend),
        flushes := s.flushes + [Flush(w, worker.batch, error)])
    case Record(w) =>
      var worker := s.workers[w];
      SetWorker(s, w, Worker([], if worker.phase.stop then Stopped else Idle)).(
        metrics := RecordFlush(s.metrics, |worker.batch|, worker.phase.error))
  }

  /** `t` is the state after running all of `steps` from `s`, each enabled in turn. */
  ghost predicate Runs(c: Config, s: State, steps: seq<Step>, t: State)
    decreases |steps|
  {
    if steps == [] then s == t
    else Enabled(c, s, steps[0]) && Runs(c, Do(c, s, steps[0]), steps[1..], t)
  }

  // ----- Batches stay below the limit -----

  function BatchCap(c: Config): nat {
    if c.maxBatchSize == 0 then 1 else c.maxBatchSize
  }

  predicate WorkerOk(c: Config, worker: Worker) {
    match worker.phase
    case Idle => |worker.batch| < BatchCap(c)
    case Stopped => worker.batch == []
    case _ => 0 < |worker.batch| <= BatchCap(c)
  }

  predicate Bounded(c: Config, s: State) {
    |s.channel| <= c.bufferSize && forall w :: 0 <= w < |s.workers| ==> WorkerOk(c, s.workers[w])
  }

  lemma BoundedStep(c: Config, s: State, step: Step)
    requires Bounded(c, s) && Enabled(c, s, step)
    ensures Bounded(c, Do(c, s, step))
  {
    var t := Do(c, s, step);
    forall w | 0 <= w < |t.workers| ensures WorkerOk(c, t.workers[w]) {
      assert WorkerOk(c, s.workers[w]);
    }
  }

  // ----- Conservation -----

  /** What a worker holds that has not been through an append yet. */
  function Pending(worker: Worker): seq<EventEnvelope> {
    if worker.phase.Recording? then [] else worker.batch
  }

  function PendingBag(): Worker -> multiset<EventEnvelope> {
    (worker: Worker) => multiset(Pending(worker))
  }

  /** The events of append attempts that committed (or failed), in append order. */
  function Outcome(flushes: seq<Flush>, committed: bool): seq<EventEnvelope> {
    if flushes == [] then []
    else
      var last := flushes[|flushes| - 1];
      Outcome(flushes[..|flushes| - 1], committed) + if last.error.None? == committed then last.events else []
  }

  ghost predicate Conserved(s: State) {
    multiset(s.sent) ==
      multiset(s.channel) + GatherBy(PendingBag(), s.workers)
      + multiset(Outcome(s.flushes, true)) + multiset(Outcome(s.flushes, false))
  }

  lemma OutcomeExtend(flushes: seq<Flush>, f: Flush, committed: bool)
    ensures Outcome(flushes + [f], committed) ==
            Outcome(flushes, committed) + if f.error.None? == committed then f.events else []
  {
    assert (flushes + [f])[..|flushes|] == flushes;
  }

  lemma Cancel(a: multiset<EventEnvelope>, b: multiset<EventEnvelope>, held: multiset<EventEnvelope>)
    requires a + held == b + held
    ensures a == b
  {
    assert a == (a + held) - held && b == (b + held) - held;
  }

  lemma ReceivedWorkers(c: Config, s: State, w: nat)
    requires Enabled(c, s, Receive(w))
    ensures GatherBy(PendingBag(), Do(c, s, Receive(w)).workers) ==
            GatherBy(PendingBag(), s.workers) + multiset{s.channel[0]}
  {
    var worker, e := s.workers[w], s.channel[0];
    var took := Took(c, worker, e);
    GatherUpdate(PendingBag(), s.workers, w, took);
    var a, b, held := GatherBy(PendingBag(), s.workers[w := took]), GatherBy(PendingBag(), s.workers), multiset(worker.batch);
    assert PendingBag()(worker) == held;
    assert PendingBag()(took) == held + multiset{e};
    assert a + held == (b + multiset{e}) + held;
    Cancel(a, b + multiset{e}, held);
  }

  lemma ConservedReceive(c: Config, s: State, w: nat)
    requires Conserved(s) && Enabled(c, s, Receive(w))
    ensures Conserved(Do(c, s, Receive(w)))
  {
    ReceivedWorkers(c, s, w);
    assert s.channel == [s.channel[0]] + s.channel[1..];
    var rest, ok, bad := multiset(s.channel[1..]), multiset(Outcome(s.flushes, true)), multiset(Outcome(s.flushes, false));
    MoveFromChannel(multiset(s.sent), rest, multiset{s.channel[0]}, GatherBy(PendingBag(), s.workers), ok, bad);
  }

  lemma MoveFromChannel(sent: Bag, rest: Bag, e: Bag, held: Bag, ok: Bag, bad: Bag)
    requires sent == (e + rest) + held + ok + bad
    ensures sent == rest + (held + e) + ok + bad
  {
  }

  lemma AppendedWorkers(s: State, w: nat, worker: Worker)
    requires w < |s.workers| && s.workers[w].phase.Flushing? && worker.phase.Recording?
    ensures GatherBy(PendingBag(), s.workers[w := worker]) + multiset(s.workers[w].batch) ==
            GatherBy(PendingBag(), s.workers)
  {
    GatherUpdate(PendingBag(), s.workers, w, worker);
    assert PendingBag()(worker) == multiset{};
  }

  type Bag = multiset<EventEnvelope>

  lemma MoveToOutcome(sent: Bag, channel: Bag, held: Bag, held': Bag, batch: Bag, ok: Bag, ok': Bag, bad: Bag, bad': Bag)
    requires sent == channel + held + ok + bad && held' + batch == held
    requires (ok' == ok + batch && bad' == bad) || (ok' == ok && bad' == bad + batch)
    ensures sent == channel + held' + ok' + bad'
  {
  }

  lemma {:induction false} ConservedAppend(c: Config, s: State, w: nat, faults: Faults)
    requires Conserved(s) && Enabled(c, s, Append(w, faults))
    ensures Conserved(Do(c, s, Append(w, faults)))
  {
    var t := Do(c, s, Append(w, faults));
    var f := t.flushes[|s.flushes|];
    AppendedWorkers(s, w, t.workers[w]);
    OutcomeExtend(s.flushes, f, true);
    OutcomeExtend(s.flushes, f, false);
    var ok, bad := Outcome(s.flushes, true), Outcome(s.flushes, false);
    assert multiset(ok + f.events) == multiset(ok) + multiset(f.events);
    assert multiset(bad + f.events) == multiset(bad) + multiset(f.events);
    MoveToOutcome(
      multiset(s.sent), multiset(s.channel), GatherBy(PendingBag(), s.workers), GatherBy(PendingBag(), t.workers),
      multiset(f.events), multiset(ok), multiset(Outcome(t.flushes, true)), multiset(bad), multiset(Outcome(t.flushes, false)));
  }

  /** Steps that only move a worker between phases leave its pending events alone. */
  lemma {:induction false} ConservedMove(s: State, t: State, w: nat)
    requires Conserved(s) && w < |s.workers| && w < |t.workers|
    requires Pending(t.workers[w]) == Pending(s.workers[w]) && t.workers == s.workers[w := t.workers[w]]
    requires t.channel == s.channel && t.sent == s.sent && t.flushes == s.flushes
    ensures Conserved(t)
  {
    GatherKeep(PendingBag(), s.workers, w, t.workers[w]);
  }

  lemma ConservedStep(c: Config, s: State, step: Step)
    requires Conserved(s) && Enabled(c, s, step)
    ensures Conserved(Do(c, s, step))
  {
    match step {
      case Send(e) => assert multiset(s.sent + [e]) == multiset(s.sent) + multiset{e};
      case Close =>
      case Shutdown =>
      case Receive(w) => ConservedReceive(c, s, w);
      case Append(w, faults) => ConservedAppend(c, s, w, faults);
      case _ => ConservedMove(s, Do(c, s, step), step.w);
    }
  }

  // ----- Counters -----

  function EventsOf(f: Flush): int { if f.error.None? then |f.events| else 0 }
  function BatchesOf(f: Flush): int { if f.error.None? then 1 else 0 }
  function ErrorsOf(f: Flush): int { if f.error.None? then 0 else 1 }
  function ViolationsOf(f: Flush): int { if f.error == Some(ConcurrencyError) then 1 else 0 }

  /** The flush a worker has made and not yet counted, measured by `f`. */
  function Uncounted(f: Flush -> int): Worker -> int {
    (worker: Worker) =>
      if worker.phase.Recording? then f(Flush(0, worker.batch, worker.phase.error)) else 0
  }

  /** `n` plus what is still to be recorded is the sum over all append attempts. */
  ghost predicate Tallied(f: Flush -> int, n: int, s: State) {
    n + SumBy(Uncounted(f), s.workers) == SumBy(f, s.flushes)
  }

  ghost predicate Counted(s: State) {
    && Tallied(EventsOf, s.metrics.events, s)
    && Tallied(BatchesOf, s.metrics.batches, s)
    && Tallied(ErrorsOf, s.metrics.errors, s)
    && Tallied(ViolationsOf, s.metrics.violations, s)
  }

  /** The measure does not look at who flushed. */
  ghost predicate Anonymous(f: Flush -> int) {
    forall w, es, err :: f(Flush(w, es, err)) == f(Flush(0, es, err))
  }

  lemma TalliedStep(c: Config, s: State, step: Step, f: Flush -> int, n: int, n': int)
    requires Enabled(c, s, step) && Anonymous(f) && Tallied(f, n, s)
    requires n' == n + if step.Record? then f(Flush(0, s.workers[step.w].batch, s.workers[step.w].phase.error)) else 0
    ensures Tallied(f, n', Do(c, s, step))
  {
    var t := Do(c, s, step);
    if step.Receive? || step.SeeClosed? || step.Tick? || step.SeeShutdown? || step.Append? || step.Record? {
      SumUpdate(Uncounted(f), s.workers, step.w, t.workers[step.w]);
    }
    if step.Append? {
      var g := t.flushes[|s.flushes|];
      SumAppend(f, s.flushes, [g]);
      assert SumBy(f, [g]) == f(g) by {
        assert [g][1..] == [];
      }
      assert f(g) == f(Flush(0, g.events, g.error));
    }
  }

  lemma CountedStep(c: Config, s: State, step: Step)
    requires Counted(s) && Enabled(c, s, step)
    ensures Counted(Do(c, s, step))
  {
    var t := Do(c, s, step);
    TalliedStep(c, s, step, EventsOf, s.metrics.events, t.metrics.events);
    TalliedStep(c, s, step, BatchesOf, s.metrics.batches, t.metrics.batches);
    TalliedStep(c, s, step, ErrorsOf, s.metrics.errors, t.metrics.errors);
    TalliedStep(c, s, step, ViolationsOf, s.metrics.violations, t.metrics.violations);
  }
}
