/** The event store object: appends change the database in place, queries walk it in loops. */
module EventStores {
  import opened LedgerTypes
  import opened EventKeys
  import opened Sequences
  import opened OrderedScan
  import opened EventQueries
  import opened Appends

  datatype Statistics = Statistics(totalEvents: nat, oldest: Option<int>, newest: Option<int>)

  /** `t` is the least (or greatest) timestamp in `es`, absent exactly for no events. */
  ghost predicate IsOldest(t: Option<int>, es: seq<EventEnvelope>) {
    match t
    case None => es == []
    case Some(v) =>
      && (exists i :: 0 <= i < |es| && es[i].timestamp == v)
      && (forall i :: 0 <= i < |es| ==> v <= es[i].timestamp)
  }

  ghost predicate IsNewest(t: Option<int>, es: seq<EventEnvelope>) {
    match t
    case None => es == []
    case Some(v) =>
      && (exists i :: 0 <= i < |es| && es[i].timestamp == v)
      && (forall i :: 0 <= i < |es| ==> es[i].timestamp <= v)
  }

  /** The least and greatest timestamps seen so far, folded as the loop folds them. */
  function OldestOf(es: seq<EventEnvelope>): Option<int> {
    if es == [] then None
    else
      var before, t := OldestOf(es[..|es| - 1]), es[|es| - 1].timestamp;
      if before.None? || t < before.value then Some(t) else before
  }

  function NewestOf(es: seq<EventEnvelope>): Option<int> {
    if es == [] then None
    else
      var before, t := NewestOf(es[..|es| - 1]), es[|es| - 1].timestamp;
      if before.None? || t > before.value then Some(t) else before
  }

  lemma {:induction false} OldestIsLeast(es: seq<EventEnvelope>)
    ensures IsOldest(OldestOf(es), es)
  {
    if es != [] {
      var n := |es| - 1;
      var prefix := es[..n];
      OldestIsLeast(prefix);
      assert forall i :: 0 <= i < n ==> prefix[i] == es[i];
      if OldestOf(prefix).Some? {
        var i :| 0 <= i < n && prefix[i].timestamp == OldestOf(prefix).value;
        assert es[i].timestamp == OldestOf(prefix).value;
      }
    }
  }

  lemma {:induction false} NewestIsGreatest(es: seq<EventEnvelope>)
    ensures IsNewest(NewestOf(es), es)
  {
    if es != [] {
      var n := |es| - 1;
      var prefix := es[..n];
      NewestIsGreatest(prefix);
      assert forall i :: 0 <= i < n ==> prefix[i] == es[i];
      if NewestOf(prefix).Some? {
        var i :| 0 <= i < n && prefix[i].timestamp == NewestOf(prefix).value;
        assert es[i].timestamp == NewestOf(prefix).value;
      }
    }
  }

  /** On a store at or after the epoch the extremes are the first and last events scanned. */
  lemma ExtremesOfEpochStore(db: Db, oldest: Option<int>, newest: Option<int>)
    requires EpochStore(db) && db != map[]
    requires IsOldest(oldest, Scan(db)) && IsNewest(newest, Scan(db))
    ensures oldest == Some(Scan(db)[0].timestamp) && newest == Some(Scan(db)[|db| - 1].timestamp)
  {
    var es := Scan(db);
    EpochScanChronological(db);
    assert forall i :: 0 < i < |es| ==> Before(es[0], es[i]);
    assert forall i :: 0 <= i < |es| - 1 ==> Before(es[i], es[|es| - 1]);
  }

  class EventStore {
    var db: Db

    ghost predicate Valid()
      reads this
    {
      WellKeyed(db)
    }

    constructor ()
      ensures Valid() && db == map[]
    {
      db := map[];
    }

    method AppendEvent(e: EventEnvelope, faults: Faults) returns (r: Result<(), StoreError>)
      requires Valid()
      modifies this
      ensures Valid() && Extends(old(db), db)
      ensures db == AfterAppend(old(db), [e], faults, false)
      ensures r ==
        if 0 in faults.lookup then Err(DatabaseError)
        else if EventKey(e) in old(db) then Err(ConcurrencyError)
        else if 0 in faults.serialize then Err(SerializationError)
        else if faults.write then Err(DatabaseError)
        else Ok(())
      ensures db == if r.Ok? then old(db)[EventKey(e) := e] else old(db)
    {
      AppendExtends(db, [e], faults, false);
      assert InterleavedError(db, [e], faults, 1) == if faults.write then Some(DatabaseError) else None;
      var key := GenerateEventKey(e);
      if 0 in faults.lookup {
        return Err(DatabaseError);
      }
      if key in db {
        return Err(ConcurrencyError);
      }
      if 0 in faults.serialize {
        return Err(SerializationError);
      }
      if faults.write {
        return Err(DatabaseError);
      }
      assert [e][..0] == [];
      assert db[key := e] == db + Puts([e]);
      db := db[key := e];
      return Ok(());
    }

    method AppendEvents(batch: seq<EventEnvelope>, faults: Faults) returns (r: Result<(), StoreError>)
      requires Valid()
      modifies this
      ensures Valid() && Extends(old(db), db)
      ensures db == AfterAppend(old(db), batch, faults, false)
      ensures match AppendError(old(db), batch, faults, false)
        case None => r == Ok(())
        case Some(error) => r == Err(error)
    {
      AppendExtends(db, batch, faults, false);
      if |batch| == 0 {
        assert db + Puts(batch) == db;
        return Ok(());
      }
      var puts: Db := map[];
      var i := 0;
      while i < |batch|
        invariant 0 <= i <= |batch|
        invariant db == old(db)
        invariant puts == Puts(batch[..i])
        invariant InterleavedError(db, batch, faults, 0) == InterleavedError(db, batch, faults, i)
      {
        var key := GenerateEventKey(batch[i]);
        if i in faults.lookup {
          return Err(DatabaseError);
        }
        if key in db {
          return Err(ConcurrencyError);
        }
        if i in faults.serialize {
          return Err(SerializationError);
        }
        assert batch[..i + 1][..i] == batch[..i];
        puts := puts[key := batch[i]];
        i := i + 1;
      }
      assert batch[..i] == batch;
      if faults.write {
        return Err(DatabaseError);
      }
      db := db + puts;
      return Ok(());
    }

    /** Returns the number of events written. */
    method AppendEventsOptimized(batch: seq<EventEnvelope>, faults: Faults) returns (r: Result<nat, StoreError>)
      requires Valid()
      modifies this
      ensures Valid() && Extends(old(db), db)
      ensures db == AfterAppend(old(db), batch, faults, true)
      ensures match AppendError(old(db), batch, faults, true)
        case None => r == Ok(|batch|)
        case Some(error) => r == Err(error)
    {
      AppendExtends(db, batch, faults, true);
      if |batch| == 0 {
        assert db + Puts(batch) == db;
        return Ok(0);
      }
      var i := 0;
      while i < |batch|
        invariant 0 <= i <= |batch|
        invariant db == old(db)
        invariant LookupsError(db, batch, faults, 0) == LookupsError(db, batch, faults, i)
      {
        var key := GenerateEventKey(batch[i]);
        if i in faults.lookup {
          return Err(DatabaseError);
        }
        if key in db {
          return Err(ConcurrencyError);
        }
        i := i + 1;
      }
      var puts: Db := map[];
      i := 0;
      while i < |batch|
        invariant 0 <= i <= |batch|
        invariant db == old(db)
        invariant puts == Puts(batch[..i])
        invariant LookupsError(db, batch, faults, 0) == SerializationsError(batch, faults, i)
      {
        var key := GenerateEventKey(batch[i]);
        if i in faults.serialize {
          return Err(SerializationError);
        }
        assert batch[..i + 1][..i] == batch[..i];
        puts := puts[key := batch[i]];
        i := i + 1;
      }
      assert batch[..i] == batch;
      if faults.write {
        return Err(DatabaseError);
      }
      db := db + puts;
      return Ok(|batch|);
    }

    method QueryEvents(q: EventQuery) returns (r: EventQueryResult)
      ensures r == QueryResult(db, q)
      ensures r.totalCount.None? && (r.hasMore <==> |r.events| == if q.limit.Some? then q.limit.value else 1000)
      ensures forall es ::
        EpochStore(db) && SeekableStart(q) && Chronological(es)
        && (forall e :: e in es <==>
              && e in db.Values
              && (q.startTime.Some? ==> q.startTime.value <= e.timestamp)
              && (q.endTime.Some? ==> e.timestamp <= q.endTime.value)
              && (q.accountId.Some? ==> Concerns(e, q.accountId.value))
              && (q.eventTypes.Some? ==> e.eventType in q.eventTypes.value))
        ==> r.events == Page(
              es, if q.offset.Some? then q.offset.value else 0, if q.limit.Some? then q.limit.value else 1000)
    {
      hide EpochStore, SeekableStart, Chronological, Concerns, Accepted, ScanFrom, Scan;
      forall es |
        EpochStore(db) && SeekableStart(q) && Chronological(es)
        && (forall e :: e in es <==>
              && e in db.Values
              && (q.startTime.Some? ==> q.startTime.value <= e.timestamp)
              && (q.endTime.Some? ==> e.timestamp <= q.endTime.value)
              && (q.accountId.Some? ==> Concerns(e, q.accountId.value))
              && (q.eventTypes.Some? ==> e.eventType in q.eventTypes.value))
        ensures QueryResult(db, q).events == Page(
          es, if q.offset.Some? then q.offset.value else 0, if q.limit.Some? then q.limit.value else 1000)
      {
        assert IsTimeline(es, db, q);
        QueryRefinesTimeline(db, q, es);
      }
      var limit := LimitOf(q);
      var offset := OffsetOf(q);
      var items := Items(db, q);
      var events: seq<EventEnvelope> := WalkItems(items, q, offset, limit);
      return EventQueryResult(events, None, |events| == limit);
    }

    method GetAccountEvents(account: Uuid) returns (events: seq<EventEnvelope>)
      ensures events == Page(AllMatches(db, UNFILTERED.(accountId := Some(account))), 0, 1000)
      ensures events == Page(Filter((e: EventEnvelope) => Concerns(e, account), Scan(db)), 0, 1000)
    {
      AcceptedConcerns(Scan(db), UNFILTERED.(accountId := Some(account)), account);
      var r := QueryEvents(UNFILTERED.(accountId := Some(account)));
      return r.events;
    }

    method GetEventsInRange(startTime: int, endTime: int) returns (events: seq<EventEnvelope>)
      ensures events == QueryResult(db, UNFILTERED.(startTime := Some(startTime), endTime := Some(endTime))).events
      ensures forall es ::
        EpochStore(db) && SeekFaithful(startTime) && Chronological(es)
        && (forall e :: e in es <==> e in db.Values && startTime <= e.timestamp <= endTime)
        ==> events == Page(es, 0, 1000)
    {
      var q := UNFILTERED.(startTime := Some(startTime), endTime := Some(endTime));
      forall es | EpochStore(db) && SeekFaithful(startTime) && Chronological(es)
          && (forall e :: e in es <==> e in db.Values && startTime <= e.timestamp <= endTime)
        ensures QueryResult(db, q).events == Page(es, 0, 1000)
      {
        assert IsTimeline(es, db, q);
        QueryRefinesTimeline(db, q, es);
      }
      var r := QueryEvents(UNFILTERED.(startTime := Some(startTime), endTime := Some(endTime)));
      return r.events;
    }

    /** The reverse scan, put back in forward order, is the last page of the forward scan. */
    method GetLatestEvents(limit: nat) returns (events: seq<EventEnvelope>)
      ensures events == QueryResult(db, LatestQuery(|db|, limit)).events
      ensures events == Scan(db)[|db| - Min(limit, |db|)..]
    {
      var backward := Reversed(Scan(db));
      events := [];
      var i := 0;
      while i < |backward| && i < limit
        invariant 0 <= i <= |backward| && i <= limit
        invariant events == backward[..i]
      {
        events := events + [backward[i]];
        i := i + 1;
      }
      events := Reversed(events);
      LatestPage(db, limit);
      ReversedPrefix(Scan(db), i);
    }

    method GetStatistics() returns (s: Statistics)
      ensures s.totalEvents == |db|
      ensures IsOldest(s.oldest, Scan(db)) && IsNewest(s.newest, Scan(db))
    {
      var items := Scan(db);
      var total := 0;
      var oldest: Option<int> := None;
      var newest: Option<int> := None;
      while total < |items|
        invariant 0 <= total <= |items|
        invariant oldest == OldestOf(items[..total]) && newest == NewestOf(items[..total])
      {
        var t := items[total].timestamp;
        assert items[..total + 1][..total] == items[..total];
        if oldest.None? || t < oldest.value {
          oldest := Some(t);
        }
        if newest.None? || t > newest.value {
          newest := Some(t);
        }
        total := total + 1;
      }
      assert items[..total] == items;
      OldestIsLeast(items);
      NewestIsGreatest(items);
      return Statistics(total, oldest, newest);
    }
  }

  /** The body of the query loop: skip, stop, skip, count, stop, push. */
  method WalkItems(items: seq<EventEnvelope>, q: EventQuery, offset: nat, limit: nat) returns (events: seq<EventEnvelope>)
    ensures events == Page(Accepted(items, q), offset, limit)
  {
    events := [];
    var count := 0;
    ghost var seen: seq<EventEnvelope> := [];
    var i := 0;
    while i < |items|
      invariant 0 <= i <= |items|
      invariant Accepted(items, q) == seen + Accepted(items[i..], q)
      invariant count == |seen| && events == Page(seen, offset, limit)
    {
      var e := items[i];
      assert items[i..][1..] == items[i + 1..];
      i := i + 1;
      if q.accountId.Some? && !MatchesAccount(e, q.accountId.value) {
        continue;
      }
      if q.endTime.Some? && e.timestamp > q.endTime.value {
        assert Accepted(items, q) == seen;
        return;
      }
      if q.eventTypes.Some? && e.eventType !in q.eventTypes.value {
        continue;
      }
      assert seen + ([e] + Accepted(items[i..], q)) == (seen + [e]) + Accepted(items[i..], q);
      if count < offset {
        seen := seen + [e];
        count := count + 1;
        continue;
      }
      if |events| >= limit {
        assert |seen| >= offset + limit;
        PageOfLonger(seen, [e] + Accepted(items[i..], q), offset, limit);
        return;
      }
      events := events + [e];
      seen := seen + [e];
      count := count + 1;
    }
    assert items[i..] == [] && seen + [] == seen;
  }

  lemma {:induction false} AcceptedConcerns(items: seq<EventEnvelope>, q: EventQuery, account: Uuid)
    requires q == UNFILTERED.(accountId := Some(account))
    ensures Accepted(items, q) == Filter((e: EventEnvelope) => Concerns(e, account), items)
  {
    if items != [] {
      AcceptedConcerns(items[1..], q, account);
    }
  }

  lemma PageOfLonger<T>(s: seq<T>, t: seq<T>, offset: nat, limit: nat)
    requires |s| >= offset + limit
    ensures Page(s + t, offset, limit) == Page(s, offset, limit)
  {
  }
}
