/** The three append paths as functions of the database, and what every run of them keeps. */
module Appends {
  import opened LedgerTypes
  import opened EventKeys
  import opened OrderedScan

  datatype StoreError = DatabaseError | SerializationError | ConcurrencyError

  /** Which foreign calls fail: the lookups and serializations by position in the batch, and the final write. */
  datatype Faults = Faults(lookup: set<nat>, serialize: set<nat>, write: bool)

  const NO_FAULTS := Faults({}, {}, false)

  /** A write batch: later puts win. */
  function Puts(batch: seq<EventEnvelope>): Db {
    if batch == [] then map[]
    else var last := batch[|batch| - 1]; Puts(batch[..|batch| - 1])[EventKey(last) := last]
  }

  function LookupError(db: Db, batch: seq<EventEnvelope>, faults: Faults, i: nat): Option<StoreError>
    requires i < |batch|
  {
    if i in faults.lookup then Some(DatabaseError)
    else if EventKey(batch[i]) in db then Some(ConcurrencyError)
    else None
  }

  /** `append_events`: each position is looked up and serialized before the next. */
  function InterleavedError(db: Db, batch: seq<EventEnvelope>, faults: Faults, i: nat): Option<StoreError>
    requires i <= |batch|
    decreases |batch| - i
  {
    if i == |batch| then (if faults.write then Some(DatabaseError) else None)
    else if LookupError(db, batch, faults, i).Some? then LookupError(db, batch, faults, i)
    else if i in faults.serialize then Some(SerializationError)
    else InterleavedError(db, batch, faults, i + 1)
  }

  /** `append_events_optimized`: first every lookup, then every serialization. */
  function LookupsError(db: Db, batch: seq<EventEnvelope>, faults: Faults, i: nat): Option<StoreError>
    requires i <= |batch|
    decreases |batch| - i
  {
    if i == |batch| then SerializationsError(batch, faults, 0)
    else if LookupError(db, batch, faults, i).Some? then LookupError(db, batch, faults, i)
    else LookupsError(db, batch, faults, i + 1)
  }

  function SerializationsError(batch: seq<EventEnvelope>, faults: Faults, i: nat): Option<StoreError>
    requires i <= |batch|
    decreases |batch| - i
  {
    if i == |batch| then (if faults.write then Some(DatabaseError) else None)
    else if i in faults.serialize then Some(SerializationError)
    else SerializationsError(batch, faults, i + 1)
  }

  /** The error of a batch append, or none when it commits. */
  function AppendError(db: Db, batch: seq<EventEnvelope>, faults: Faults, optimized: bool): Option<StoreError> {
    if batch == [] then None
    else if optimized then LookupsError(db, batch, faults, 0)
    else InterleavedError(db, batch, faults, 0)
  }

  /** All or nothing: the database after a batch append. */
  function AfterAppend(db: Db, batch: seq<EventEnvelope>, faults: Faults, optimized: bool): Db {
    if AppendError(db, batch, faults, optimized).None? then db + Puts(batch) else db
  }

  // ----- When a batch commits -----

  predicate Clean(db: Db, batch: seq<EventEnvelope>, faults: Faults, i: nat)
    requires i < |batch|
  {
    i !in faults.lookup && i !in faults.serialize && EventKey(batch[i]) !in db
  }

  predicate Commits(db: Db, batch: seq<EventEnvelope>, faults: Faults) {
    batch == [] || (!faults.write && forall i :: 0 <= i < |batch| ==> Clean(db, batch, faults, i))
  }

  lemma {:induction false} InterleavedCommits(db: Db, batch: seq<EventEnvelope>, faults: Faults, i: nat)
    requires i <= |batch|
    ensures InterleavedError(db, batch, faults, i).None? <==>
            !faults.write && forall j :: i <= j < |batch| ==> Clean(db, batch, faults, j)
    decreases |batch| - i
  {
    if i < |batch| {
      InterleavedCommits(db, batch, faults, i + 1);
      assert Clean(db, batch, faults, i) <==> LookupError(db, batch, faults, i).None? && i !in faults.serialize;
    }
  }

  lemma {:induction false} SerializationsCommit(batch: seq<EventEnvelope>, faults: Faults, i: nat)
    requires i <= |batch|
    ensures SerializationsError(batch, faults, i).None? <==>
            !faults.write && forall j :: i <= j < |batch| ==> j !in faults.serialize
    decreases |batch| - i
  {
    if i < |batch| {
      SerializationsCommit(batch, faults, i + 1);
    }
  }

  lemma {:induction false} LookupsCommit(db: Db, batch: seq<EventEnvelope>, faults: Faults, i: nat)
    requires i <= |batch|
    ensures LookupsError(db, batch, faults, i).None? <==>
            && !faults.write
            && (forall j :: 0 <= j < |batch| ==> j !in faults.serialize)
            && (forall j :: i <= j < |batch| ==> LookupError(db, batch, faults, j).None?)
    decreases |batch| - i
  {
    if i < |batch| {
      LookupsCommit(db, batch, faults, i + 1);
    } else {
      SerializationsCommit(batch, faults, 0);
    }
  }

  /** Both batch paths commit on the same inputs, whatever fails around them, and then
      leave the same database; they may differ only in which error they report. */
  lemma BatchPathsAgree(db: Db, batch: seq<EventEnvelope>, faults: Faults, optimized: bool)
    ensures AppendError(db, batch, faults, optimized).None? <==> Commits(db, batch, faults)
    ensures AfterAppend(db, batch, faults, true) == AfterAppend(db, batch, faults, false)
  {
    InterleavedCommits(db, batch, faults, 0);
    LookupsCommit(db, batch, faults, 0);
    assert forall j :: 0 <= j < |batch| ==>
      (Clean(db, batch, faults, j) <==> LookupError(db, batch, faults, j).None? && j !in faults.serialize);
  }

  /** Without foreign failures the two paths also report the same error. */
  lemma {:induction false} FaultlessErrors(db: Db, batch: seq<EventEnvelope>, i: nat)
    requires i <= |batch|
    ensures LookupsError(db, batch, NO_FAULTS, i) == InterleavedError(db, batch, NO_FAULTS, i)
    ensures InterleavedError(db, batch, NO_FAULTS, i) in {None, Some(ConcurrencyError)}
    decreases |batch| - i
  {
    if i < |batch| {
      FaultlessErrors(db, batch, i + 1);
    } else {
      SerializationsCommit(batch, NO_FAULTS, 0);
    }
  }

  /** The error of the interleaved path is that of the first position where anything fails, the
      lookup before the append-only check before the serialization. */
  lemma {:induction false} FirstFailure(db: Db, batch: seq<EventEnvelope>, faults: Faults, from: nat, i: nat)
    requires from <= i < |batch| && !Clean(db, batch, faults, i)
    requires forall j :: from <= j < i ==> Clean(db, batch, faults, j)
    ensures InterleavedError(db, batch, faults, from) == Some(
      if i in faults.lookup then DatabaseError
      else if EventKey(batch[i]) in db then ConcurrencyError
      else SerializationError)
    decreases i - from
  {
    if from < i {
      assert Clean(db, batch, faults, from);
      FirstFailure(db, batch, faults, from + 1, i);
    }
  }

  /** The two-pass path reports the first failed lookup or present key of the whole batch, ... */
  lemma {:induction false} FirstLookupFailure(db: Db, batch: seq<EventEnvelope>, faults: Faults, from: nat, i: nat)
    requires from <= i < |batch| && (i in faults.lookup || EventKey(batch[i]) in db)
    requires forall j :: from <= j < i ==> j !in faults.lookup && EventKey(batch[j]) !in db
    ensures LookupsError(db, batch, faults, from) == Some(if i in faults.lookup then DatabaseError else ConcurrencyError)
    decreases i - from
  {
    if from < i {
      FirstLookupFailure(db, batch, faults, from + 1, i);
    }
  }

  /** ... and only without one a failed serialization. */
  lemma {:induction false} LateSerializationFailure(db: Db, batch: seq<EventEnvelope>, faults: Faults, from: nat, i: nat)
    requires from <= |batch| && i < |batch| && i in faults.serialize
    requires forall j :: from <= j < |batch| ==> j !in faults.lookup && EventKey(batch[j]) !in db
    ensures LookupsError(db, batch, faults, from) == Some(SerializationError)
    decreases |batch| - from
  {
    if from < |batch| {
      LateSerializationFailure(db, batch, faults, from + 1, i);
    } else {
      SerializationFails(batch, faults, 0, i);
    }
  }

  lemma {:induction false} SerializationFails(batch: seq<EventEnvelope>, faults: Faults, from: nat, i: nat)
    requires from <= i < |batch| && i in faults.serialize
    ensures SerializationsError(batch, faults, from) == Some(SerializationError)
    decreases i - from
  {
    if from < i {
      SerializationFails(batch, faults, from + 1, i);
    }
  }

  /** When only the write itself fails, both paths say so. */
  lemma {:induction false} WriteFailure(db: Db, batch: seq<EventEnvelope>, faults: Faults, from: nat)
    requires from <= |batch| && faults.write
    requires forall j :: 0 <= j < |batch| ==> Clean(db, batch, faults, j)
    ensures InterleavedError(db, batch, faults, from) == Some(DatabaseError)
    ensures LookupsError(db, batch, faults, from) == Some(DatabaseError)
    decreases |batch| - from
  {
    if from < |batch| {
      assert Clean(db, batch, faults, from);
      WriteFailure(db, batch, faults, from + 1);
    } else {
      forall j | 0 <= j < |batch| ensures j !in faults.serialize {
        assert Clean(db, batch, faults, j);
      }
      WriteSerializations(batch, faults, 0);
    }
  }

  lemma {:induction false} WriteSerializations(batch: seq<EventEnvelope>, faults: Faults, from: nat)
    requires from <= |batch| && faults.write
    requires forall j :: from <= j < |batch| ==> j !in faults.serialize
    ensures SerializationsError(batch, faults, from) == Some(DatabaseError)
    decreases |batch| - from
  {
    if from < |batch| {
      WriteSerializations(batch, faults, from + 1);
    }
  }

  // ----- Contents of a write batch -----

  ghost predicate KeysDistinct(batch: seq<EventEnvelope>) {
    forall i, j :: 0 <= i < j < |batch| ==> EventKey(batch[i]) != EventKey(batch[j])
  }

  lemma {:induction false} PutsKeys(batch: seq<EventEnvelope>, k: Key)
    ensures k in Puts(batch) <==> exists i :: 0 <= i < |batch| && EventKey(batch[i]) == k
  {
    if batch != [] {
      var n := |batch| - 1;
      PutsKeys(batch[..n], k);
      if k in Puts(batch[..n]) {
        var i :| 0 <= i < |batch[..n]| && EventKey(batch[..n][i]) == k;
        assert EventKey(batch[i]) == k;
      }
      if i :| 0 <= i < |batch| && EventKey(batch[i]) == k && i < n {
        assert EventKey(batch[..n][i]) == k;
      }
    }
  }

  /** The last put under a key is the one that stays. */
  lemma {:induction false} PutsLastWins(batch: seq<EventEnvelope>, i: nat)
    requires i < |batch|
    requires forall j :: i < j < |batch| ==> EventKey(batch[j]) != EventKey(batch[i])
    ensures EventKey(batch[i]) in Puts(batch) && Puts(batch)[EventKey(batch[i])] == batch[i]
  {
    var n := |batch| - 1;
    if i < n {
      PutsLastWins(batch[..n], i);
    }
  }

  lemma {:induction false} PutsWellKeyed(batch: seq<EventEnvelope>)
    ensures WellKeyed(Puts(batch))
  {
    if batch != [] {
      PutsWellKeyed(batch[..|batch| - 1]);
    }
  }

  /** With distinct keys the write batch holds exactly the listed events. */
  lemma DistinctPuts(batch: seq<EventEnvelope>, k: Key, e: EventEnvelope)
    requires KeysDistinct(batch)
    ensures (k in Puts(batch) && Puts(batch)[k] == e) <==> (e in batch && EventKey(e) == k)
  {
    PutsKeys(batch, k);
    if k in Puts(batch) {
      var i :| 0 <= i < |batch| && EventKey(batch[i]) == k;
      PutsLastWins(batch, i);
    }
    if e in batch && EventKey(e) == k {
      var i :| 0 <= i < |batch| && batch[i] == e;
      PutsLastWins(batch, i);
    }
  }

  lemma SplitDistinct(batch: seq<EventEnvelope>)
    requires batch != []
    ensures var n := |batch| - 1;
      KeysDistinct(batch) <==> KeysDistinct(batch[..n]) && EventKey(batch[n]) !in Puts(batch[..n])
  {
    var n := |batch| - 1;
    var prefix := batch[..n];
    PutsKeys(prefix, EventKey(batch[n]));
    assert forall i :: 0 <= i < n ==> prefix[i] == batch[i];
  }

  lemma {:induction false} PutsSize(batch: seq<EventEnvelope>)
    ensures |Puts(batch)| <= |batch|
    ensures |Puts(batch)| == |batch| <==> KeysDistinct(batch)
  {
    if batch != [] {
      var n := |batch| - 1;
      var before, k := Puts(batch[..n]), EventKey(batch[n]);
      PutsSize(batch[..n]);
      SplitDistinct(batch);
      UpdateSize(before, k, batch[n]);
    }
  }

  lemma UpdateSize(m: Db, k: Key, e: EventEnvelope)
    ensures |m[k := e]| == |m| + if k in m then 0 else 1
  {
    assert m[k := e].Keys == m.Keys + {k};
    assert |m[k := e]| == |m[k := e].Keys| && |m| == |m.Keys|;
  }

  lemma PutsFresh(db: Db, batch: seq<EventEnvelope>, faults: Faults)
    requires Commits(db, batch, faults)
    ensures db.Keys !! Puts(batch).Keys
  {
    forall k | k in Puts(batch) ensures k !in db {
      PutsKeys(batch, k);
      var i :| 0 <= i < |batch| && EventKey(batch[i]) == k;
      assert Clean(db, batch, faults, i);
    }
  }

  /** A committed batch grows the store by the reported `events_written` exactly when its keys differ. */
  lemma GrowthIsExact(db: Db, batch: seq<EventEnvelope>, faults: Faults, optimized: bool)
    requires AppendError(db, batch, faults, optimized).None?
    ensures |AfterAppend(db, batch, faults, optimized)| == |db| + |batch| <==> KeysDistinct(batch)
  {
    BatchPathsAgree(db, batch, faults, optimized);
    PutsFresh(db, batch, faults);
    PutsSize(batch);
    var merged := db + Puts(batch);
    assert merged.Keys == db.Keys + Puts(batch).Keys;
    assert |merged.Keys| == |db.Keys| + |Puts(batch).Keys|;
    assert |merged| == |merged.Keys| && |db| == |db.Keys| && |Puts(batch)| == |Puts(batch).Keys|;
  }

  /** Two different events under one key: the batch commits, reports two and stores one. */
  lemma CollidingBatch(d: EventEnvelope, e: EventEnvelope, optimized: bool)
    requires EventKey(d) == EventKey(e)
    ensures AppendError(map[], [d, e], NO_FAULTS, optimized).None?
    ensures AfterAppend(map[], [d, e], NO_FAULTS, optimized) == map[EventKey(e) := e]
  {
    var batch := [d, e];
    BatchPathsAgree(map[], batch, NO_FAULTS, optimized);
    assert forall i :: 0 <= i < |batch| ==> Clean(map[], batch, NO_FAULTS, i);
    assert batch[..1] == [d] && [d][..0] == [];
    assert Puts([d]) == map[EventKey(d) := d];
    assert map[] + Puts(batch) == Puts(batch);
  }

  // ----- Batches against single appends -----

  /** `append_event` once, without foreign failures. */
  function AppendOne(db: Db, e: EventEnvelope): Option<Db> {
    if EventKey(e) in db then None else Some(db[EventKey(e) := e])
  }

  /** One `append_event` per element, stopping at the first refusal. */
  function AppendEach(db: Db, batch: seq<EventEnvelope>): Option<Db> {
    if batch == [] then Some(db)
    else
      var n := |batch| - 1;
      match AppendEach(db, batch[..n])
      case None => None
      case Some(mid) => AppendOne(mid, batch[n])
  }

  /** Single appends all succeed exactly when the batch commits and its keys are distinct,
      and then both leave the same store. */
  lemma {:induction false} BatchEqualsSingles(db: Db, batch: seq<EventEnvelope>)
    ensures AppendEach(db, batch).Some? <==> Commits(db, batch, NO_FAULTS) && KeysDistinct(batch)
    ensures AppendEach(db, batch).Some? ==> AppendEach(db, batch).value == db + Puts(batch)
  {
    if batch == [] {
      assert db + Puts(batch) == db;
    } else {
      var n := |batch| - 1;
      var prefix, last := batch[..n], batch[n];
      BatchEqualsSingles(db, prefix);
      SplitDistinct(batch);
      SplitCommits(db, batch);
      assert db + Puts(batch) == (db + Puts(prefix))[EventKey(last) := last];
    }
  }

  lemma SplitCommits(db: Db, batch: seq<EventEnvelope>)
    requires batch != []
    ensures var n := |batch| - 1;
      Commits(db, batch, NO_FAULTS) <==> Commits(db, batch[..n], NO_FAULTS) && EventKey(batch[n]) !in db
  {
    var n := |batch| - 1;
    assert forall i :: 0 <= i < n ==> Clean(db, batch, NO_FAULTS, i) == Clean(db, batch[..n], NO_FAULTS, i);
    assert Clean(db, batch, NO_FAULTS, n) <==> EventKey(batch[n]) !in db;
  }

  // ----- Whole runs -----

  datatype AppendOp =
    | Single(event: EventEnvelope, faults: Faults)
    | Batch(events: seq<EventEnvelope>, faults: Faults, optimized: bool)

  /** `append_event` under failures is the interleaved path on a one-element batch. */
  function Apply(db: Db, op: AppendOp): Db {
    match op
    case Single(e, faults) => AfterAppend(db, [e], faults, false)
    case Batch(es, faults, optimized) => AfterAppend(db, es, faults, optimized)
  }

  function ApplyAll(db: Db, ops: seq<AppendOp>): Db
    decreases |ops|
  {
    if ops == [] then db else ApplyAll(Apply(db, ops[0]), ops[1..])
  }

  /** `later` still holds everything `earlier` held. */
  ghost predicate Extends(earlier: Db, later: Db) {
    forall k :: k in earlier ==> k in later && later[k] == earlier[k]
  }

  lemma AppendExtends(db: Db, batch: seq<EventEnvelope>, faults: Faults, optimized: bool)
    ensures Extends(db, AfterAppend(db, batch, faults, optimized))
    ensures WellKeyed(db) ==> WellKeyed(AfterAppend(db, batch, faults, optimized))
  {
    BatchPathsAgree(db, batch, faults, optimized);
    PutsWellKeyed(batch);
    if Commits(db, batch, faults) {
      PutsFresh(db, batch, faults);
    }
  }

  /** Append-only over whole runs: nothing stored is ever lost or overwritten. */
  lemma {:induction false} AppendOnlyRun(db: Db, ops: seq<AppendOp>)
    ensures Extends(db, ApplyAll(db, ops))
    ensures WellKeyed(db) ==> WellKeyed(ApplyAll(db, ops))
    decreases |ops|
  {
    if ops != [] {
      match ops[0] {
        case Single(e, faults) => AppendExtends(db, [e], faults, false);
        case Batch(es, faults, optimized) => AppendExtends(db, es, faults, optimized);
      }
      AppendOnlyRun(Apply(db, ops[0]), ops[1..]);
    }
  }
}
