/** The objects of the batching layer: the worker loop, every schedule of which is a run of the
    pipeline's transition system, and the synchronous writer. */
module BatchWorkers {
  import opened LedgerTypes
  import opened Sequences
  import opened OrderedScan
  import opened Appends
  import opened EventStores
  import opened BatchPipeline
  import opened PipelineRuns

  /** The branch that one turn of the worker's select loop takes. */
  datatype Turn = Received(event: EventEnvelope) | ChannelClosed | TimerTick(expired: bool) | ShutdownSignal

  /** The turns after which the loop is left. */
  predicate Leaves(turn: Turn) {
    turn.ChannelClosed? || turn.ShutdownSignal?
  }

  /** What one worker sees: its batch, whether it runs, the shared store and metrics, and the
      append attempts made so far. */
  datatype Loop = Loop(batch: seq<EventEnvelope>, running: bool, db: Db, metrics: Metrics, flushes: seq<Flush>)

  /** A flush appends, counts, and empties the batch whether or not the append succeeded. */
  function Flushed(c: Config, l: Loop, w: nat, faults: Faults): Loop {
    if l.batch == [] then l
    else
      var error := AppendError(l.db, l.batch, faults, c.optimizedAppend);
      Loop(
        [], l.running,
        AfterAppend(l.db, l.batch, faults, c.optimizedAppend),
        RecordFlush(l.metrics, |l.batch|, error),
        l.flushes + [Flush(w, l.batch, error)])
  }

  function AfterTurn(c: Config, l: Loop, w: nat, turn: Turn, faults: Faults): Loop {
    match turn
    case Received(e) =>
      var took := l.(batch := l.batch + [e]);
      if IsFull(took.batch, c.maxBatchSize) then Flushed(c, took, w, faults) else took
    case TimerTick(expired) => if expired then Flushed(c, l, w, faults) else l
    case _ => Flushed(c, l, w, faults).(running := false)
  }

  /** The i-th turn's flush, if it makes one, fails as `faults(i)` says. */
  function AfterTurns(c: Config, l: Loop, w: nat, turns: seq<Turn>, faults: nat -> Faults): Loop {
    if turns == [] then l
    else
      var n := |turns| - 1;
      AfterTurn(c, AfterTurns(c, l, w, turns[..n], faults), w, turns[n], faults(n))
  }

  /** The events of the receiving turns. */
  function Deliveries(turns: seq<Turn>): seq<EventEnvelope> {
    if turns == [] then []
    else
      var n := |turns| - 1;
      Deliveries(turns[..n]) + if turns[n].Received? then [turns[n].event] else []
  }

  /** Only the last turn may leave the loop. */
  predicate LeavesLast(turns: seq<Turn>) {
    forall i :: 0 <= i < |turns| - 1 ==> !Leaves(turns[i])
  }

  // ----- Nothing received is dropped or reordered -----

  lemma FlushKeepsEvents(c: Config, l: Loop, w: nat, faults: Faults)
    ensures var r := Flushed(c, l, w, faults);
      r.batch == [] && FlushedBy(r.flushes, w) == FlushedBy(l.flushes, w) + l.batch
  {
    if l.batch != [] {
      FlushedExtend(l.flushes, Flush(w, l.batch, AppendError(l.db, l.batch, faults, c.optimizedAppend)), w);
    } else {
      assert FlushedBy(l.flushes, w) + [] == FlushedBy(l.flushes, w);
    }
  }

  lemma TurnKeepsEvents(c: Config, l: Loop, w: nat, turn: Turn, faults: Faults)
    ensures var r := AfterTurn(c, l, w, turn, faults);
      FlushedBy(r.flushes, w) + r.batch ==
      FlushedBy(l.flushes, w) + l.batch + if turn.Received? then [turn.event] else []
  {
    hide FlushedBy, Flushed;
    var taken := if turn.Received? then [turn.event] else [];
    var took := l.(batch := l.batch + taken);
    assert turn.Received? || took == l;
    FlushKeepsEvents(c, took, w, faults);
    var done := FlushedBy(l.flushes, w);
    assert done + took.batch + [] == done + took.batch;
    assert done + (l.batch + taken) == done + l.batch + taken;
  }

  /** A worker's append attempts followed by its batch are exactly what it was given, in order. */
  lemma {:induction false} TurnsKeepEvents(c: Config, l: Loop, w: nat, turns: seq<Turn>, faults: nat -> Faults)
    ensures var r := AfterTurns(c, l, w, turns, faults);
      FlushedBy(r.flushes, w) + r.batch == FlushedBy(l.flushes, w) + l.batch + Deliveries(turns)
  {
    if turns == [] {
      assert FlushedBy(l.flushes, w) + l.batch + [] == FlushedBy(l.flushes, w) + l.batch;
    } else {
      var n := |turns| - 1;
      TurnsKeepEvents(c, l, w, turns[..n], faults);
      TurnKeepsEvents(c, AfterTurns(c, l, w, turns[..n], faults), w, turns[n], faults(n));
    }
  }

  // ----- When a batch is flushed -----

  /** A received event joins the batch, and only the one that reaches the limit flushes it, whole. */
  lemma ReceiveFlushesAtLimit(c: Config, l: Loop, w: nat, e: EventEnvelope, faults: Faults)
    ensures var r, batch := AfterTurn(c, l, w, Received(e), faults), l.batch + [e];
      if |batch| < c.maxBatchSize then r == l.(batch := batch)
      else
        && r.batch == []
        && r.flushes == l.flushes + [Flush(w, batch, AppendError(l.db, batch, faults, c.optimizedAppend))]
        && r.metrics.batches + r.metrics.errors == l.metrics.batches + l.metrics.errors + 1
  {
  }

  /** Nothing but received events and ticks before the delay is over. */
  predicate Undisturbed(turns: seq<Turn>) {
    forall i :: 0 <= i < |turns| ==> turns[i].Received? || turns[i] == TimerTick(false)
  }

  /** From `before` to `after` only whole batches of `size` were flushed, as many as `total` events
      fill, each counted once, and the rest is left in the batch. */
  ghost predicate Batched(before: Loop, after: Loop, w: nat, size: nat, total: nat)
    requires size > 0
  {
    var n := |before.flushes|;
    && |after.flushes| == n + total / size
    && after.flushes[..n] == before.flushes
    && (forall i :: n <= i < |after.flushes| ==> after.flushes[i].worker == w && |after.flushes[i].events| == size)
    && |after.batch| == total % size
    && after.metrics.batches + after.metrics.errors == before.metrics.batches + before.metrics.errors + total / size
  }

  lemma BatchedStart(l: Loop, w: nat, size: nat)
    requires |l.batch| < size
    ensures Batched(l, l, w, size, |l.batch|)
  {
    DivisionUnique(|l.batch|, size, 0, |l.batch|);
  }

  /** One more event: into the batch, or out with it when that makes it whole. */
  lemma BatchedMore(before: Loop, mid: Loop, after: Loop, w: nat, size: nat, total: nat)
    requires size > 0 && Batched(before, mid, w, size, total)
    requires if |mid.batch| + 1 < size then |after.batch| == |mid.batch| + 1 && after.flushes == mid.flushes && after.metrics == mid.metrics
      else
        && after.batch == [] && |after.flushes| == |mid.flushes| + 1 && after.flushes[..|mid.flushes|] == mid.flushes
        && after.flushes[|mid.flushes|].worker == w && |after.flushes[|mid.flushes|].events| == |mid.batch| + 1
        && after.metrics.batches + after.metrics.errors == mid.metrics.batches + mid.metrics.errors + 1
    ensures Batched(before, after, w, size, total + 1)
  {
    NextQuotient(total, size);
    var n := |before.flushes|;
    assert after.flushes[..n] == mid.flushes[..n];
    forall i | n <= i < |after.flushes| ensures after.flushes[i].worker == w && |after.flushes[i].events| == size {
      assert i < |mid.flushes| ==> after.flushes[i] == mid.flushes[i];
    }
  }

  /** Batching: undisturbed, events are flushed in batches of exactly `max(1, max_batch_size)`, and
      only as many as are full. */
  lemma {:induction false} BatchingLaw(c: Config, l: Loop, w: nat, turns: seq<Turn>, faults: nat -> Faults)
    requires Undisturbed(turns) && |l.batch| < Max(1, c.maxBatchSize)
    ensures Batched(l, AfterTurns(c, l, w, turns, faults), w, Max(1, c.maxBatchSize), |l.batch| + |Deliveries(turns)|)
  {
    var size := Max(1, c.maxBatchSize);
    if turns == [] {
      BatchedStart(l, w, size);
    } else {
      var n := |turns| - 1;
      BatchingLaw(c, l, w, turns[..n], faults);
      var mid := AfterTurns(c, l, w, turns[..n], faults);
      if turns[n].Received? {
        hide AfterTurn, Batched;
        ReceiveFlushesAtLimit(c, mid, w, turns[n].event, faults(n));
        BatchedMore(l, mid, AfterTurn(c, mid, w, turns[n], faults(n)), w, size, |l.batch| + |Deliveries(turns[..n])|);
      }
    }
  }

  /** Receiving turns deliver one event each. */
  lemma {:induction false} DeliveryCount(turns: seq<Turn>)
    requires forall i :: 0 <= i < |turns| ==> turns[i].Received?
    ensures |Deliveries(turns)| == |turns|
  {
    if turns != [] {
      DeliveryCount(turns[..|turns| - 1]);
    }
  }

  // ----- A turn inside the pipeline -----

  /** Worker `w`'s view of the pipeline. */
  function LoopOf(s: State, w: nat): Loop
    requires w < |s.workers|
  {
    Loop(s.workers[w].batch, !s.workers[w].phase.Stopped?, s.db, s.metrics, s.flushes)
  }

  /** When the select of worker `w` can take this branch. */
  predicate TurnEnabled(s: State, w: nat, turn: Turn) {
    && IsIdle(s, w)
    && match turn
       case Received(e) => s.channel != [] && s.channel[0] == e
       case ChannelClosed => s.closed && s.channel == []
       case TimerTick(_) => true
       case ShutdownSignal => s.shutdown
  }

  /** The pipeline after the turn: the worker and all it shares move as its loop says, the
      channel loses what it received, and the other workers stay as they are. */
  function TurnState(c: Config, s: State, w: nat, turn: Turn, faults: Faults): State
    requires TurnEnabled(s, w, turn)
  {
    var l := AfterTurn(c, LoopOf(s, w), w, turn, faults);
    var t := s.(
      workers := s.workers[w := Worker(l.batch, if l.running then Idle else Stopped)],
      db := l.db, metrics := l.metrics, flushes := l.flushes);
    if turn.Received? then t.(channel := s.channel[1..], receivers := s.receivers + [w]) else t
  }

  predicate TurnFlushes(c: Config, batch: seq<EventEnvelope>, turn: Turn) {
    match turn
    case Received(e) => IsFull(batch + [e], c.maxBatchSize)
    case TimerTick(expired) => expired && batch != []
    case _ => batch != []
  }

  /** The pipeline steps that the turn amounts to. */
  function TurnSteps(c: Config, batch: seq<EventEnvelope>, w: nat, turn: Turn, faults: Faults): seq<Step> {
    var flushes := TurnFlushes(c, batch, turn);
    var first := match turn
      case Received(_) => [Receive(w)]
      case ChannelClosed => [SeeClosed(w)]
      case TimerTick(_) => if flushes then [Tick(w)] else []
      case ShutdownSignal => [SeeShutdown(w)];
    first + if flushes then [Append(w, faults), Record(w)] else []
  }

  lemma {:induction false} RunsConcat(c: Config, s: State, a: seq<Step>, t: State, b: seq<Step>, u: State)
    requires Runs(c, s, a, t) && Runs(c, t, b, u)
    ensures Runs(c, s, a + b, u)
    decreases |a|
  {
    if a == [] {
      assert a + b == b;
    } else {
      RunsConcat(c, Do(c, s, a[0]), a[1..], t, b, u);
      assert (a + b)[1..] == a[1..] + b;
    }
  }

  lemma RunsOne(c: Config, s: State, step: Step)
    requires Enabled(c, s, step)
    ensures Runs(c, s, [step], Do(c, s, step))
  {
    assert [step][1..] == [];
  }

  /** An append attempt and its recording, made at once by a worker about to flush. */
  function FlushState(c: Config, s: State, w: nat, faults: Faults): State
    requires w < |s.workers| && s.workers[w].phase.Flushing?
  {
    var worker := s.workers[w];
    var l := Flushed(c, Loop(worker.batch, true, s.db, s.metrics, s.flushes), w, faults);
    s.(workers := s.workers[w := Worker([], if worker.phase.stop then Stopped else Idle)],
       db := l.db, metrics := l.metrics, flushes := l.flushes)
  }

  lemma FlushRuns(c: Config, s: State, w: nat, faults: Faults)
    requires w < |s.workers| && s.workers[w].phase.Flushing? && s.workers[w].batch != []
    ensures Runs(c, s, [Append(w, faults), Record(w)], FlushState(c, s, w, faults))
  {
    var mid := Do(c, s, Append(w, faults));
    assert Do(c, mid, Record(w)) == FlushState(c, s, w, faults);
    RunsOne(c, mid, Record(w));
    assert [Append(w, faults), Record(w)][1..] == [Record(w)];
  }

  /** A turn's first step followed by its flush, if it has to flush. */
  lemma StepThenFlush(c: Config, s: State, step: Step, w: nat, faults: Faults, flushes: bool)
    requires Enabled(c, s, step)
    requires flushes ==> var t := Do(c, s, step); w < |t.workers| && t.workers[w].phase.Flushing? && t.workers[w].batch != []
    ensures var t := Do(c, s, step);
      Runs(c, s, [step] + if flushes then [Append(w, faults), Record(w)] else [], if flushes then FlushState(c, t, w, faults) else t)
  {
    var t := Do(c, s, step);
    RunsOne(c, s, step);
    if flushes {
      FlushRuns(c, t, w, faults);
      RunsConcat(c, s, [step], t, [Append(w, faults), Record(w)], FlushState(c, t, w, faults));
    } else {
      assert [step] + [] == [step];
    }
  }

  /** In any state of any number of workers, whatever the others are doing, one turn of a
      worker's loop is a run of the pipeline. */
  lemma TurnRuns(c: Config, s: State, w: nat, turn: Turn, faults: Faults)
    requires TurnEnabled(s, w, turn)
    ensures Runs(c, s, TurnSteps(c, s.workers[w].batch, w, turn, faults), TurnState(c, s, w, turn, faults))
  {
    var batch := s.workers[w].batch;
    var flushes := TurnFlushes(c, batch, turn);
    var t := TurnState(c, s, w, turn, faults);
    if turn.TimerTick? && !flushes {
      assert TurnSteps(c, batch, w, turn, faults) == [];
      assert t == s;
    } else {
      var step := match turn
        case Received(_) => Receive(w)
        case ChannelClosed => SeeClosed(w)
        case TimerTick(_) => Tick(w)
        case ShutdownSignal => SeeShutdown(w);
      StepThenFlush(c, s, step, w, faults, flushes);
      var mid := Do(c, s, step);
      assert t.workers == (if flushes then FlushState(c, mid, w, faults) else mid).workers;
      assert TurnSteps(c, batch, w, turn, faults) == [step] + if flushes then [Append(w, faults), Record(w)] else [];
    }
  }

  /** What can happen to the pipeline: any single step, or a whole turn of some worker's loop. */
  datatype Act = Single(step: Step) | Whole(w: nat, turn: Turn, faults: Faults)

  /** Any interleaving of turns of all the workers' loops with single steps. */
  ghost predicate Schedule(c: Config, s: State, acts: seq<Act>, t: State)
    decreases |acts|
  {
    if acts == [] then s == t
    else match acts[0]
      case Single(step) => Enabled(c, s, step) && Schedule(c, Do(c, s, step), acts[1..], t)
      case Whole(w, turn, faults) =>
        TurnEnabled(s, w, turn) && Schedule(c, TurnState(c, s, w, turn, faults), acts[1..], t)
  }

  /** Workers that run their loops side by side do nothing the pipeline does not, so all that
      holds of its runs holds of them. */
  lemma {:induction false} ScheduleIsRun(c: Config, s: State, acts: seq<Act>, t: State) returns (steps: seq<Step>)
    requires Schedule(c, s, acts, t)
    ensures Runs(c, s, steps, t)
    decreases |acts|
  {
    if acts == [] {
      return [];
    }
    var first, mid;
    match acts[0] {
      case Single(step) =>
        first, mid := [step], Do(c, s, step);
        RunsOne(c, s, step);
      case Whole(w, turn, faults) =>
        first, mid := TurnSteps(c, s.workers[w].batch, w, turn, faults), TurnState(c, s, w, turn, faults);
        TurnRuns(c, s, w, turn, faults);
    }
    var rest := ScheduleIsRun(c, mid, acts[1..], t);
    RunsConcat(c, s, first, mid, rest, t);
    steps := first + rest;
  }

  // ----- One loop from the start of the pipeline -----

  const FRESH_METRICS := Metrics(0, 0, 0, 0)

  /** The outside world brings about what the next turn of an idle worker sees. */
  lemma Prompt(c: Config, s: State, w: nat, turn: Turn) returns (steps: seq<Step>, t: State)
    requires IsIdle(s, w) && s.channel == [] && !s.closed && c.bufferSize > 0
    ensures Runs(c, s, steps, t) && TurnEnabled(t, w, turn)
    ensures t.workers == s.workers && LoopOf(t, w) == LoopOf(s, w)
    ensures t.sent == s.sent + (if turn.Received? then [turn.event] else [])
    ensures t.channel == if turn.Received? then [turn.event] else []
    ensures t.closed ==> turn.ChannelClosed?
  {
    assert s.sent + [] == s.sent;
    if turn.TimerTick? {
      steps, t := [], s;
    } else {
      assert !s.workers[w].phase.Stopped?;
      var step := match turn
        case Received(e) => Send(e)
        case ChannelClosed => Close
        case _ => Shutdown;
      RunsOne(c, s, step);
      steps, t := [step], Do(c, s, step);
    }
  }

  /** Every execution of a worker's loop from its start, with as many further workers as there
      may be, is a run of the pipeline in which exactly the loop's deliveries were sent. */
  lemma {:induction false} LoopIsRun(c: Config, db: Db, w: nat, turns: seq<Turn>, faults: nat -> Faults)
    returns (steps: seq<Step>, t: State)
    requires w < c.numProcessors && c.bufferSize > 0 && LeavesLast(turns)
    ensures Runs(c, Start(c, db), steps, t) && |t.workers| == c.numProcessors
    ensures LoopOf(t, w) == AfterTurns(c, Loop([], true, db, FRESH_METRICS, []), w, turns, faults)
    ensures t.sent == Deliveries(turns) && t.channel == []
    ensures if turns == [] || !Leaves(turns[|turns| - 1]) then IsIdle(t, w) && !t.closed else t.workers[w].phase.Stopped?
    decreases |turns|
  {
    if turns == [] {
      steps, t := [], Start(c, db);
    } else {
      hide TurnSteps, AfterTurn, Runs, Enabled;
      var n := |turns| - 1;
      var before, s := LoopIsRun(c, db, w, turns[..n], faults);
      var prompt, mid := Prompt(c, s, w, turns[n]);
      TurnRuns(c, mid, w, turns[n], faults(n));
      t := TurnState(c, mid, w, turns[n], faults(n));
      var turn := TurnSteps(c, mid.workers[w].batch, w, turns[n], faults(n));
      RunsConcat(c, Start(c, db), before, s, prompt, mid);
      RunsConcat(c, Start(c, db), before + prompt, mid, turn, t);
      steps := before + prompt + turn;
    }
  }

  /** The loop's batch never outgrows the limit, and its store only grows. */
  lemma LoopBounds(c: Config, db: Db, w: nat, turns: seq<Turn>, faults: nat -> Faults)
    requires w < c.numProcessors && c.bufferSize > 0 && LeavesLast(turns)
    ensures var r := AfterTurns(c, Loop([], true, db, FRESH_METRICS, []), w, turns, faults);
      |r.batch| < BatchCap(c) && Extends(db, r.db)
  {
    var steps, t := LoopIsRun(c, db, w, turns, faults);
    Reachable(c, db, steps, t);
    assert WorkerOk(c, t.workers[w]);
  }

  // ----- The objects -----

  /** The counters all workers share, with the history of all append attempts. */
  class SharedMetrics {
    var counts: Metrics
    ghost var flushes: seq<Flush>

    constructor ()
      ensures counts == FRESH_METRICS && flushes == []
    {
      counts, flushes := FRESH_METRICS, [];
    }
  }

  class BatchWorker {
    const id: nat
    const config: Config
    const store: EventStore
    const metrics: SharedMetrics
    var batch: seq<EventEnvelope>
    var running: bool

    ghost function ToLoop(): Loop
      reads this, store, metrics
    {
      Loop(batch, running, store.db, metrics.counts, metrics.flushes)
    }

    constructor (id: nat, config: Config, store: EventStore, metrics: SharedMetrics)
      ensures this.id == id && this.config == config && this.store == store && this.metrics == metrics
      ensures batch == [] && running
    {
      this.id, this.config, this.store, this.metrics := id, config, store, metrics;
      batch, running := [], true;
    }

    /** One flush: the append, the metrics, and the reset that discards a failed batch too. */
    method FlushBatch(faults: Faults)
      requires store.Valid()
      modifies this, store, metrics
      ensures store.Valid() && Extends(old(store.db), store.db)
      ensures ToLoop() == Flushed(config, old(ToLoop()), id, faults)
    {
      hide AppendError, AfterAppend;
      if batch == [] {
        return;
      }
      var error: Option<StoreError>;
      if config.optimizedAppend {
        var r := store.AppendEventsOptimized(batch, faults);
        error := match r case Ok(_) => None case Err(e) => Some(e);
      } else {
        var r := store.AppendEvents(batch, faults);
        error := match r case Ok(_) => None case Err(e) => Some(e);
      }
      var m := metrics.counts;
      if error.None? {
        m := m.(events := m.events + |batch|, batches := m.batches + 1);
      } else {
        m := m.(errors := m.errors + 1);
        if error.value.ConcurrencyError? {
          m := m.(violations := m.violations + 1);
        }
      }
      metrics.counts := m;
      metrics.flushes := metrics.flushes + [Flush(id, batch, error)];
      batch := [];
    }

    /** One turn of the select loop, whatever other workers did to the store and the metrics before. */
    method TakeTurn(turn: Turn, faults: Faults)
      requires store.Valid() && running
      modifies this, store, metrics
      ensures store.Valid() && Extends(old(store.db), store.db)
      ensures ToLoop() == AfterTurn(config, old(ToLoop()), id, turn, faults)
      ensures running <==> !Leaves(turn)
      ensures match turn
        case Received(e) =>
          if |old(batch)| + 1 < config.maxBatchSize
          then batch == old(batch) + [e] && metrics.flushes == old(metrics.flushes) && store.db == old(store.db)
          else batch == [] && |metrics.flushes| == |old(metrics.flushes)| + 1
        case TimerTick(expired) => if expired then batch == [] else ToLoop() == old(ToLoop())
        case _ => batch == []
      ensures FlushedBy(metrics.flushes, id) + batch ==
              FlushedBy(old(metrics.flushes), id) + old(batch) + if turn.Received? then [turn.event] else []
    {
      TurnKeepsEvents(config, ToLoop(), id, turn, faults);
      match turn
      case Received(e) =>
        batch := batch + [e];
        if IsFull(batch, config.maxBatchSize) {
          FlushBatch(faults);
        }
      case TimerTick(expired) =>
        if batch != [] && expired {
          FlushBatch(faults);
        }
      case ChannelClosed =>
        if batch != [] {
          FlushBatch(faults);
        }
        running := false;
      case ShutdownSignal =>
        if batch != [] {
          FlushBatch(faults);
        }
        running := false;
    }

    /** The select loop over a schedule of turns, the i-th turn's flush failing as `faults(i)`
        says, up to and including the first turn that leaves it. */
    method RunBatchProcessor(turns: seq<Turn>, faults: nat -> Faults) returns (taken: nat)
      requires store.Valid() && running
      modifies this, store, metrics
      ensures store.Valid() && Extends(old(store.db), store.db)
      ensures taken <= |turns| && LeavesLast(turns[..taken])
      ensures running <==> forall i :: 0 <= i < |turns| ==> !Leaves(turns[i])
      ensures running ==> taken == |turns|
      ensures !running ==> taken > 0 && Leaves(turns[taken - 1])
      ensures ToLoop() == AfterTurns(config, old(ToLoop()), id, turns[..taken], faults)
      ensures FlushedBy(metrics.flushes, id) + batch ==
              FlushedBy(old(metrics.flushes), id) + old(batch) + Deliveries(turns[..taken])
      ensures Undisturbed(turns) && |old(batch)| < Max(1, config.maxBatchSize) ==>
        Batched(old(ToLoop()), ToLoop(), id, Max(1, config.maxBatchSize), |old(batch)| + |Deliveries(turns)|)
    {
      hide AfterTurn, FlushedBy, Deliveries, Batched;
      taken := 0;
      ghost var start := ToLoop();
      while taken < |turns| && running
        invariant taken <= |turns|
        invariant store.Valid() && Extends(old(store.db), store.db)
        invariant running ==> forall i :: 0 <= i < taken ==> !Leaves(turns[i])
        invariant !running ==> taken > 0 && Leaves(turns[taken - 1]) && forall i :: 0 <= i < taken - 1 ==> !Leaves(turns[i])
        invariant ToLoop() == AfterTurns(config, start, id, turns[..taken], faults)
      {
        TakeTurn(turns[taken], faults(taken));
        assert turns[..taken + 1][..taken] == turns[..taken];
        taken := taken + 1;
      }
      TurnsKeepEvents(config, start, id, turns[..taken], faults);
      if Undisturbed(turns) && |start.batch| < Max(1, config.maxBatchSize) {
        assert turns[..taken] == turns;
        BatchingLaw(config, start, id, turns, faults);
      }
    }
  }

  /** The synchronous writer. Its ghost fields record everything added and every append attempt. */
  class SyncBatchWriter {
    const store: EventStore
    const maxBatchSize: nat
    var pending: seq<EventEnvelope>
    ghost var added: seq<EventEnvelope>
    ghost var attempts: seq<Flush>

    /** Attempts followed by pending events spell out what was added, in order. */
    ghost predicate Valid()
      reads this, store
    {
      store.Valid() && FlushedBy(attempts, 0) + pending == added
    }

    constructor (store: EventStore, maxBatchSize: nat)
      requires store.Valid()
      ensures Valid() && this.store == store && this.maxBatchSize == maxBatchSize
      ensures pending == [] && added == [] && attempts == []
    {
      this.store := store;
      this.maxBatchSize := maxBatchSize;
      pending, added, attempts := [], [], [];
    }

    method AddEvent(e: EventEnvelope)
      requires Valid()
      modifies this
      ensures Valid() && pending == old(pending) + [e] && added == old(added) + [e] && attempts == old(attempts)
    {
      pending := pending + [e];
      added := added + [e];
    }

    /** Drains before appending: a failed append loses the drained events. */
    method Flush(faults: Faults) returns (r: Result<(), StoreError>)
      requires Valid()
      modifies this, store
      ensures Valid() && pending == [] && added == old(added)
      ensures store.db == AfterAppend(old(store.db), old(pending), faults, false)
      ensures match AppendError(old(store.db), old(pending), faults, false)
        case None => r == Ok(())
        case Some(error) => r == Err(error)
      ensures old(pending) != [] ==>
        attempts == old(attempts) + [BatchPipeline.Flush(0, old(pending), AppendError(old(store.db), old(pending), faults, false))]
      ensures old(pending) == [] ==> attempts == old(attempts)
    {
      if pending == [] {
        assert store.db + Puts([]) == store.db;
        return Ok(());
      }
      var events := pending;
      pending := [];
      ghost var f := BatchPipeline.Flush(0, events, AppendError(store.db, events, faults, false));
      FlushedExtend(attempts, f, 0);
      attempts := attempts + [f];
      r := store.AppendEvents(events, faults);
    }

    /** Reports whether a flush was made; an error of the flush is passed on. */
    method FlushIfFull(faults: Faults) returns (r: Result<bool, StoreError>)
      requires Valid()
      modifies this, store
      ensures Valid() && added == old(added)
      ensures |old(pending)| < maxBatchSize ==>
        r == Ok(false) && pending == old(pending) && store.db == old(store.db) && attempts == old(attempts)
      ensures |old(pending)| >= maxBatchSize ==>
        && pending == []
        && store.db == AfterAppend(old(store.db), old(pending), faults, false)
        && (old(pending) == [] ==> attempts == old(attempts))
        && (old(pending) != [] ==>
              attempts == old(attempts) + [BatchPipeline.Flush(0, old(pending), AppendError(old(store.db), old(pending), faults, false))])
        && match AppendError(old(store.db), old(pending), faults, false)
           case None => r == Ok(true)
           case Some(error) => r == Err(error)
    {
      if |pending| >= maxBatchSize {
        var flushed := Flush(faults);
        r := match flushed case Ok(_) => Ok(true) case Err(error) => Err(error);
      } else {
        r := Ok(false);
      }
    }
  }
}
