/** What a query over the ordered log returns: the loop's meaning, its agreement with a
    time-ordered filter, paging, the reverse scan and the statistics. */
module EventQueries {
  import opened LedgerTypes
  import opened EventKeys
  import opened Sequences
  import opened OrderedScan

  const DEFAULT_LIMIT: nat := 1000

  datatype EventQuery = EventQuery(
    accountId: Option<Uuid>,
    startTime: Option<int>,
    endTime: Option<int>,
    limit: Option<nat>,
    offset: Option<nat>,
    eventTypes: Option<seq<string>>)

  const UNFILTERED := EventQuery(None, None, None, None, None, None)

  datatype EventQueryResult = EventQueryResult(events: seq<EventEnvelope>, totalCount: Option<nat>, hasMore: bool)

  function LimitOf(q: EventQuery): nat {
    match q.limit case Some(n) => n case None => DEFAULT_LIMIT
  }

  function OffsetOf(q: EventQuery): nat {
    match q.offset case Some(n) => n case None => 0
  }

  predicate MatchesAccount(e: EventEnvelope, account: Uuid) {
    match e.data
    case AccountCreated(id, _) => id == account
    case AccountStatusChanged(id) => id == account
    case AccountMetadataUpdated(id) => id == account
    case TransactionProcessed(_, from, to, _) => from == Some(account) || to == Some(account)
    case BalanceUpdated(id, _, _) => id == account
    case _ => false
  }

  predicate AccountOk(q: EventQuery, e: EventEnvelope) {
    q.accountId.Some? ==> MatchesAccount(e, q.accountId.value)
  }

  predicate EndOk(q: EventQuery, e: EventEnvelope) {
    q.endTime.Some? ==> e.timestamp <= q.endTime.value
  }

  predicate TypeOk(q: EventQuery, e: EventEnvelope) {
    q.eventTypes.Some? ==> e.eventType in q.eventTypes.value
  }

  predicate StartOk(q: EventQuery, e: EventEnvelope) {
    q.startTime.Some? ==> q.startTime.value <= e.timestamp
  }

  /** The iterator a query walks. */
  function Items(db: Db, q: EventQuery): seq<EventEnvelope> {
    match q.startTime
    case Some(t) => ScanFrom(db, TimeKeyPrefix(t))
    case None => Scan(db)
  }

  /** The events that reach pagination: the account filter skips before the end-time test,
      and the first event of the account past the end time stops the walk. */
  function Accepted(items: seq<EventEnvelope>, q: EventQuery): seq<EventEnvelope> {
    if items == [] then []
    else if !AccountOk(q, items[0]) then Accepted(items[1..], q)
    else if !EndOk(q, items[0]) then []
    else if !TypeOk(q, items[0]) then Accepted(items[1..], q)
    else [items[0]] + Accepted(items[1..], q)
  }

  function PageResult(matches: seq<EventEnvelope>, offset: nat, limit: nat): EventQueryResult {
    var events := Page(matches, offset, limit);
    EventQueryResult(events, None, |events| == limit)
  }

  /** The meaning of one query on any store. */
  function QueryResult(db: Db, q: EventQuery): EventQueryResult {
    PageResult(Accepted(Items(db, q), q), OffsetOf(q), LimitOf(q))
  }

  // ----- Agreement with a time-ordered filter -----

  /** Order by timestamp, then by id. */
  predicate Before(d: EventEnvelope, e: EventEnvelope) {
    d.timestamp < e.timestamp || (d.timestamp == e.timestamp && d.eventId != e.eventId && LexLe(d.eventId, e.eventId))
  }

  ghost predicate Chronological(es: seq<EventEnvelope>) {
    forall i, j :: 0 <= i < j < |es| ==> Before(es[i], es[j])
  }

  /** The account is a party of the transaction, or the subject of any other account event. */
  predicate Concerns(e: EventEnvelope, account: Uuid) {
    if e.data.TransactionProcessed? then e.data.fromAccount == Some(account) || e.data.toAccount == Some(account)
    else !e.data.MerkleRootGenerated? && !e.data.DigestPublished? && e.data.accountId == account
  }

  /** What a query asks for, independently of how the walk filters: both ends of the time range
      inclusive, the account concerned, the type listed. */
  predicate Matches(q: EventQuery, e: EventEnvelope) {
    && (q.startTime.Some? ==> q.startTime.value <= e.timestamp)
    && (q.endTime.Some? ==> e.timestamp <= q.endTime.value)
    && (q.accountId.Some? ==> Concerns(e, q.accountId.value))
    && (q.eventTypes.Some? ==> e.eventType in q.eventTypes.value)
  }

  lemma FiltersMatch(q: EventQuery, e: EventEnvelope)
    ensures StartOk(q, e) && AccountOk(q, e) && EndOk(q, e) && TypeOk(q, e) <==> Matches(q, e)
  {
  }

  /** The reference answer before paging: exactly the matching stored events, once each, in time order. */
  ghost predicate IsTimeline(es: seq<EventEnvelope>, db: Db, q: EventQuery) {
    && Chronological(es)
    && forall e :: e in es <==> e in db.Values && Matches(q, e)
  }

  lemma BeforeIsStrict(d: EventEnvelope, e: EventEnvelope)
    requires Before(d, e)
    ensures !Before(e, d) && d != e
  {
    if d.timestamp == e.timestamp && LexLe(e.eventId, d.eventId) {
      LexAntisymmetric(d.eventId, e.eventId);
    }
  }

  lemma NonemptyHasMember(b: seq<EventEnvelope>)
    ensures b == [] || exists e :: e in b
  {
    if b != [] {
      assert b[0] in b;
    }
  }

  /** Membership and order determine the sequence, so a timeline is unique. */
  lemma {:induction false} ChronologicalUnique(a: seq<EventEnvelope>, b: seq<EventEnvelope>)
    requires Chronological(a) && Chronological(b)
    requires forall e :: e in a <==> e in b
    ensures a == b
  {
    if a == [] {
      NonemptyHasMember(b);
    } else {
      assert a[0] in b && b != [];
      assert b[0] in a;
      if a[0] != b[0] {
        assert Before(a[0], b[0]) by {
          var i :| 0 <= i < |a| && a[i] == b[0];
        }
        assert Before(b[0], a[0]) by {
          var j :| 0 <= j < |b| && b[j] == a[0];
        }
        BeforeIsStrict(a[0], b[0]);
        assert false;
      }
      assert a == [a[0]] + a[1..] && b == [b[0]] + b[1..];
      forall e ensures e in a[1..] <==> e in b[1..] {
        TailMember(a, e);
        TailMember(b, e);
      }
      ChronologicalUnique(a[1..], b[1..]);
    }
  }

  lemma TailMember(a: seq<EventEnvelope>, e: EventEnvelope)
    requires Chronological(a) && a != []
    ensures e in a[1..] <==> e in a && e != a[0]
  {
    if e in a[1..] {
      var i :| 0 <= i < |a[1..]| && a[1..][i] == e;
      assert Before(a[0], a[i + 1]);
      BeforeIsStrict(a[0], a[i + 1]);
    }
    assert a == [a[0]] + a[1..];
  }

  /** All stored timestamps lie between the epoch and the last representable nanosecond. */
  ghost predicate EpochStore(db: Db) {
    WellKeyed(db) && forall k :: k in db ==> 0 <= db[k].timestamp <= I64_MAX
  }

  /** On one side of the epoch key order is time order. */
  lemma OneSidedKeyOrder(d: EventEnvelope, e: EventEnvelope)
    requires Representable(d.timestamp) && Representable(e.timestamp)
    requires (d.timestamp < 0) == (e.timestamp < 0)
    requires LexLe(EventKey(d), EventKey(e)) && EventKey(d) != EventKey(e)
    ensures Before(d, e)
  {
    KeyOrderEmbedding(d, e);
    KeyCollision(d, e);
  }

  lemma EpochScanChronological(db: Db)
    requires EpochStore(db)
    ensures Chronological(Scan(db))
  {
    var es := Scan(db);
    OrderedAscending(db, db.Keys);
    forall i, j | 0 <= i < j < |es| ensures Before(es[i], es[j]) {
      ScanMember(db, es[i]);
      ScanMember(db, es[j]);
      OneSidedKeyOrder(es[i], es[j]);
    }
  }

  lemma {:induction false} FilterChronological(p: EventEnvelope -> bool, es: seq<EventEnvelope>)
    requires Chronological(es)
    ensures Chronological(Filter(p, es))
  {
    if es != [] {
      var rest := Filter(p, es[1..]);
      FilterChronological(p, es[1..]);
      if p(es[0]) {
        forall j | 0 <= j < |rest| ensures Before(es[0], rest[j]) {
          FilterMember(p, es[1..], rest[j]);
          var i :| 0 <= i < |es[1..]| && es[1..][i] == rest[j];
          assert es[i + 1] == rest[j];
        }
      }
    }
  }

  /** On a time-ordered walk the early stop loses nothing. */
  lemma {:induction false} AcceptedIsFilter(items: seq<EventEnvelope>, q: EventQuery)
    requires Chronological(items)
    ensures Accepted(items, q) == Filter((e: EventEnvelope) => AccountOk(q, e) && EndOk(q, e) && TypeOk(q, e), items)
  {
    var p := (e: EventEnvelope) => AccountOk(q, e) && EndOk(q, e) && TypeOk(q, e);
    if items != [] {
      if AccountOk(q, items[0]) && !EndOk(q, items[0]) {
        forall e | e in items ensures !p(e) {
          var i :| 0 <= i < |items| && items[i] == e;
          assert i > 0 ==> Before(items[0], items[i]);
        }
        FilterNone(p, items);
      } else {
        AcceptedIsFilter(items[1..], q);
      }
    }
  }

  /** Start times whose seek lands where the time order says. Every representable time from
      the epoch on does; so does a time before every representable one, which seeks to 0. */
  predicate SeekFaithful(start: int) {
    0 <= start <= I64_MAX || start < I64_MIN
  }

  predicate SeekableStart(q: EventQuery) {
    q.startTime.Some? ==> SeekFaithful(q.startTime.value)
  }

  function StartsAt(q: EventQuery): EventEnvelope -> bool {
    (e: EventEnvelope) => StartOk(q, e)
  }

  lemma EpochItems(db: Db, q: EventQuery)
    requires EpochStore(db) && SeekableStart(q)
    ensures Items(db, q) == Filter(StartsAt(q), Scan(db))
  {
    match q.startTime {
      case None =>
        FilterAll(StartsAt(q), Scan(db));
      case Some(t) =>
        forall k | k in db ensures StartsAt(q)(db[k]) <==> LexLe(TimeKeyPrefix(t), k) {
          PrefixSeek(t, db[k]);
        }
        ScanFromIsFilter(db, TimeKeyPrefix(t), StartsAt(q));
    }
  }

  /** What reaches pagination is the unique timeline of the query. */
  lemma AcceptedIsTimeline(db: Db, q: EventQuery)
    requires EpochStore(db) && SeekableStart(q)
    ensures IsTimeline(Accepted(Items(db, q), q), db, q)
  {
    var p := (e: EventEnvelope) => AccountOk(q, e) && EndOk(q, e) && TypeOk(q, e);
    EpochItems(db, q);
    EpochScanChronological(db);
    FilterChronological(StartsAt(q), Scan(db));
    AcceptedIsFilter(Items(db, q), q);
    FilterChronological(p, Items(db, q));
    forall e ensures e in Accepted(Items(db, q), q) <==> e in db.Values && Matches(q, e) {
      FiltersMatch(q, e);
      FilterMember(p, Items(db, q), e);
      FilterMember(StartsAt(q), Scan(db), e);
      ScanMember(db, e);
    }
  }

  /** Query refinement: the seek, filter, stop and paginate loop answers with a page of the timeline. */
  lemma QueryRefinesTimeline(db: Db, q: EventQuery, timeline: seq<EventEnvelope>)
    requires EpochStore(db) && SeekableStart(q) && IsTimeline(timeline, db, q)
    ensures QueryResult(db, q) == PageResult(timeline, OffsetOf(q), LimitOf(q))
  {
    AcceptedIsTimeline(db, q);
    ChronologicalUnique(timeline, Accepted(Items(db, q), q));
  }

  /** One stored event, exactly at the epoch. */
  function EpochSample(): EventEnvelope {
    EventEnvelope([0, 0, 0, 0, 0, 0, 0, 0, 0, 0, 0, 0, 0, 0, 0, 0], "", "", 0, MerkleRootGenerated(0), "")
  }

  function SampleDb(): Db {
    map[EventKey(EpochSample()) := EpochSample()]
  }

  ghost predicate StartAlwaysAnswered(start: int) {
    forall db: Db, q: EventQuery, timeline: seq<EventEnvelope> ::
      EpochStore(db) && q.startTime == Some(start) && IsTimeline(timeline, db, q)
      ==> QueryResult(db, q) == PageResult(timeline, OffsetOf(q), LimitOf(q))
  }

  lemma SampleScan()
    ensures EpochStore(SampleDb()) && Scan(SampleDb()) == [EpochSample()]
    ensures forall e :: e in SampleDb().Values <==> e == EpochSample()
  {
    var db, e := SampleDb(), EpochSample();
    assert EventKey(e) in db;
    ScanMember(db, e);
    assert |Scan(db)| == |db.Keys| == 1;
  }

  lemma SampleItems(start: int)
    ensures ScanFrom(SampleDb(), TimeKeyPrefix(start)) ==
            if KeyStamp(start) <= 0 then [EpochSample()] else []
  {
    var p := (x: EventEnvelope) => KeyStamp(start) <= KeyStamp(x.timestamp);
    SampleScan();
    PrefixSeek(start, EpochSample());
    ScanFromIsFilter(SampleDb(), TimeKeyPrefix(start), p);
  }

  /** A start time outside the faithful ones gives a wrong answer on the sample store: a
      representable time before the epoch seeks past every event, and a time after the last
      representable one seeks back to the beginning. */
  lemma UnfaithfulSeek(start: int)
    requires !SeekFaithful(start)
    ensures !StartAlwaysAnswered(start)
  {
    var e, db, q := EpochSample(), SampleDb(), UNFILTERED.(startTime := Some(start));
    SampleScan();
    SampleItems(start);
    AcceptedUnfiltered(Items(db, q), q);
    var timeline := if start < 0 then [e] else [];
    assert IsTimeline(timeline, db, q) by {
      assert Matches(q, e) <==> start < 0;
    }
    assert |QueryResult(db, q).events| != |timeline|;
  }

  /** Exactly the faithful start times are answered correctly on every store of events at or
      after the epoch. */
  lemma StartTimeExact(start: int)
    ensures StartAlwaysAnswered(start) <==> SeekFaithful(start)
  {
    if SeekFaithful(start) {
      forall db: Db, q: EventQuery, timeline: seq<EventEnvelope> |
        EpochStore(db) && q.startTime == Some(start) && IsTimeline(timeline, db, q)
        ensures QueryResult(db, q) == PageResult(timeline, OffsetOf(q), LimitOf(q))
      {
        QueryRefinesTimeline(db, q, timeline);
      }
    } else {
      UnfaithfulSeek(start);
    }
  }

  // ----- Paging -----

  function Paged(q: EventQuery, limit: nat, offset: nat): EventQuery {
    q.(limit := Some(limit), offset := Some(offset))
  }

  lemma {:induction false} AcceptedIgnoresPaging(items: seq<EventEnvelope>, q: EventQuery, limit: nat, offset: nat)
    ensures Accepted(items, Paged(q, limit, offset)) == Accepted(items, q)
  {
    if items != [] {
      AcceptedIgnoresPaging(items[1..], q, limit, offset);
    }
  }

  function AllMatches(db: Db, q: EventQuery): seq<EventEnvelope> {
    Accepted(Items(db, q), q)
  }

  lemma PagedResult(db: Db, q: EventQuery, limit: nat, offset: nat)
    ensures QueryResult(db, Paged(q, limit, offset)) == PageResult(AllMatches(db, q), offset, limit)
  {
    AcceptedIgnoresPaging(Items(db, q), q, limit, offset);
  }

  /** A client that advances by `limit` while the store says there is more. */
  function FetchPages(db: Db, q: EventQuery, limit: nat, offset: nat): seq<seq<EventEnvelope>>
    requires limit > 0
    decreases |AllMatches(db, q)| - offset
  {
    var r := QueryResult(db, Paged(q, limit, offset));
    PagedResult(db, q, limit, offset);
    if r.hasMore then [r.events] + FetchPages(db, q, limit, offset + limit) else [r.events]
  }

  function Concat<T>(pages: seq<seq<T>>): seq<T> {
    if pages == [] then [] else pages[0] + Concat(pages[1..])
  }

  /** The same walk over a list of matches. */
  function Pages(m: seq<EventEnvelope>, limit: nat, offset: nat): seq<seq<EventEnvelope>>
    requires limit > 0 && offset <= |m|
    decreases |m| - offset
  {
    if offset + limit <= |m| then [m[offset..offset + limit]] + Pages(m, limit, offset + limit) else [m[offset..]]
  }

  lemma {:induction false} FetchPagesOfMatches(db: Db, q: EventQuery, limit: nat, offset: nat)
    requires limit > 0 && offset <= |AllMatches(db, q)|
    ensures FetchPages(db, q, limit, offset) == Pages(AllMatches(db, q), limit, offset)
    decreases |AllMatches(db, q)| - offset
  {
    var m := AllMatches(db, q);
    PagedResult(db, q, limit, offset);
    if offset + limit <= |m| {
      FetchPagesOfMatches(db, q, limit, offset + limit);
    } else {
      assert Page(m, offset, limit) == m[offset..];
    }
  }

  lemma {:induction false} PagesConcat(m: seq<EventEnvelope>, limit: nat, offset: nat)
    requires limit > 0 && offset <= |m|
    ensures Concat(Pages(m, limit, offset)) == m[offset..]
    decreases |m| - offset
  {
    var pages := Pages(m, limit, offset);
    if offset + limit <= |m| {
      PagesConcat(m, limit, offset + limit);
      assert pages[1..] == Pages(m, limit, offset + limit);
      assert m[offset..] == m[offset..offset + limit] + m[offset + limit..];
    } else {
      assert pages[1..] == [];
    }
  }

  /** All pages are full but the last, which is not. */
  ghost predicate Paginated(pages: seq<seq<EventEnvelope>>, limit: nat) {
    && pages != []
    && (forall i :: 0 <= i < |pages| - 1 ==> |pages[i]| == limit)
    && |pages[|pages| - 1]| < limit
  }

  lemma PaginatedMore(page: seq<EventEnvelope>, rest: seq<seq<EventEnvelope>>, limit: nat)
    requires |page| == limit && Paginated(rest, limit)
    ensures Paginated([page] + rest, limit)
  {
    var pages := [page] + rest;
    assert forall i :: 0 < i < |pages| ==> pages[i] == rest[i - 1];
  }

  lemma {:induction false} PagesPaginated(m: seq<EventEnvelope>, limit: nat, offset: nat)
    requires limit > 0 && offset <= |m|
    ensures Paginated(Pages(m, limit, offset), limit)
    decreases |m| - offset
  {
    if offset + limit <= |m| {
      PagesPaginated(m, limit, offset + limit);
      PaginatedMore(m[offset..offset + limit], Pages(m, limit, offset + limit), limit);
    }
  }

  lemma {:induction false} ConcatLength<T>(pages: seq<seq<T>>, limit: nat)
    requires pages != []
    requires forall i :: 0 <= i < |pages| - 1 ==> |pages[i]| == limit
    ensures |Concat(pages)| == (|pages| - 1) * limit + |pages[|pages| - 1]|
  {
    if |pages| == 1 {
      assert pages[1..] == [];
    } else {
      ConcatLength(pages[1..], limit);
      assert (|pages| - 1) * limit == (|pages| - 2) * limit + limit;
    }
  }

  /** Paging from offset 0 delivers every match once, in order; every page but the last is full,
      and the last is not. */
  lemma {:induction false} PagingComplete(db: Db, q: EventQuery, limit: nat)
    requires limit > 0
    ensures var pages := FetchPages(db, q, limit, 0);
      Concat(pages) == AllMatches(db, q) && Paginated(pages, limit)
  {
    FetchPagesOfMatches(db, q, limit, 0);
    PagesConcat(AllMatches(db, q), limit, 0);
    PagesPaginated(AllMatches(db, q), limit, 0);
    assert AllMatches(db, q)[0..] == AllMatches(db, q);
  }

  /** So n matches take n / limit + 1 fetches, and the last is an extra empty one exactly when the
      limit divides n. */
  lemma {:induction false} PagingFetches(db: Db, q: EventQuery, limit: nat)
    requires limit > 0
    ensures var pages := FetchPages(db, q, limit, 0);
      var n := |AllMatches(db, q)|;
      && pages != []
      && |pages| == n / limit + 1
      && (pages[|pages| - 1] == [] <==> n % limit == 0)
  {
    PagingComplete(db, q, limit);
    var pages := FetchPages(db, q, limit, 0);
    ConcatLength(pages, limit);
    DivisionUnique(|AllMatches(db, q)|, limit, |pages| - 1, |pages[|pages| - 1]|);
  }

  // ----- Reverse scan and statistics -----

  lemma {:induction false} AcceptedUnfiltered(items: seq<EventEnvelope>, q: EventQuery)
    requires q.accountId.None? && q.endTime.None? && q.eventTypes.None?
    ensures Accepted(items, q) == items
  {
    if items != [] {
      AcceptedUnfiltered(items[1..], q);
      assert items == [items[0]] + items[1..];
    }
  }

  /** The forward query whose page holds the last `k` events. */
  function LatestQuery(n: nat, k: nat): EventQuery {
    Paged(UNFILTERED, Min(k, n), n - Min(k, n))
  }

  lemma {:induction false} LatestPage(db: Db, k: nat)
    ensures var n := |db|; QueryResult(db, LatestQuery(n, k)).events == Scan(db)[n - Min(k, n)..]
  {
    var n, m := |db|, Min(k, |db|);
    PagedResult(db, UNFILTERED, m, n - m);
    AcceptedUnfiltered(Scan(db), UNFILTERED);
    LastPage(Scan(db), m);
  }

  lemma LastPage<T>(s: seq<T>, m: nat)
    requires m <= |s|
    ensures Page(s, |s| - m, m) == s[|s| - m..]
  {
  }
}
