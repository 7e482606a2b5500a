/** The parts together: what the pipeline writes is what queries and recovery read. */
module EndToEnd {
  import opened LedgerTypes
  import opened EventKeys
  import opened OrderedScan
  import opened EventQueries
  import opened Appends
  import opened BatchPipeline
  import opened PipelineConfluence
  import opened BalanceReplay

  lemma StoredExactly(batch: seq<EventEnvelope>, e: EventEnvelope)
    requires KeysDistinct(batch)
    ensures e in Puts(batch).Values <==> e in batch
  {
    if e in Puts(batch).Values {
      var k :| k in Puts(batch) && Puts(batch)[k] == e;
      DistinctPuts(batch, k, e);
    }
    if e in batch {
      DistinctPuts(batch, EventKey(e), e);
    }
  }

  ghost predicate FromEpochOn(es: seq<EventEnvelope>) {
    forall i :: 0 <= i < |es| ==> 0 <= es[i].timestamp <= I64_MAX
  }

  lemma StoredFromEpochOn(batch: seq<EventEnvelope>)
    requires KeysDistinct(batch) && FromEpochOn(batch)
    ensures EpochStore(Puts(batch))
  {
    PutsWellKeyed(batch);
    forall k | k in Puts(batch) ensures 0 <= Puts(batch)[k].timestamp <= I64_MAX {
      DistinctPuts(batch, k, Puts(batch)[k]);
    }
  }

  /** The scan of a store holding `batch` is the chronological arrangement of `batch`. */
  lemma ScanOfStored(batch: seq<EventEnvelope>, es: seq<EventEnvelope>)
    requires KeysDistinct(batch) && FromEpochOn(batch)
    requires Chronological(es) && forall e :: e in es <==> e in batch
    ensures Scan(Puts(batch)) == es
  {
    StoredFromEpochOn(batch);
    EpochScanChronological(Puts(batch));
    forall e ensures e in Scan(Puts(batch)) <==> e in es {
      ScanMember(Puts(batch), e);
      StoredExactly(batch, e);
    }
    ChronologicalUnique(Scan(Puts(batch)), es);
  }

  /** Whatever order the events were sent in and however the workers interleaved, a clean run into an
      empty store makes queries return the sent events in time order, and makes a replay of the store
      the replay of that order. */
  lemma {:induction false} SentIsReadInTimeOrder(c: Config, steps: seq<Step>, t: State, es: seq<EventEnvelope>, limit: nat, offset: nat)
    requires Runs(c, Start(c, map[]), steps, t) && CleanRun(steps) && AllStopped(t)
    requires KeysDistinct(t.sent) && FromEpochOn(t.sent)
    requires Chronological(es) && forall e :: e in es <==> e in t.sent
    ensures QueryResult(t.db, Paged(UNFILTERED, limit, offset)) == PageResult(es, offset, limit)
    ensures Replay(EMPTY, Scan(t.db)) == Replay(EMPTY, es)
  {
    Confluence(c, map[], steps, t);
    assert t.db == Puts(t.sent);
    ScanOfStored(t.sent, es);
    PagedResult(t.db, UNFILTERED, limit, offset);
    AcceptedUnfiltered(Scan(t.db), UNFILTERED);
  }
}
