/** Recovery: four passes over the first scanned events, accumulating counters in place. */
module Recovery {
  import opened LedgerTypes
  import opened EventKeys
  import opened Sequences
  import opened OrderedScan
  import opened EventQueries
  import opened EventStores
  import opened BalanceReplay

  // ----- Temporal check -----

  /** Neighbours whose timestamps go down. */
  function Descents(es: seq<EventEnvelope>): nat {
    if |es| <= 1 then 0
    else
      var n := |es| - 1;
      Descents(es[..n]) + if es[n].timestamp < es[n - 1].timestamp then 1 else 0
  }

  predicate HasBefore(es: seq<EventEnvelope>) {
    exists i :: 0 <= i < |es| && es[i].timestamp < 0
  }

  predicate HasAfter(es: seq<EventEnvelope>) {
    exists i :: 0 <= i < |es| && es[i].timestamp >= 0
  }

  ghost predicate AllRepresentable(es: seq<EventEnvelope>) {
    forall i :: 0 <= i < |es| ==> Representable(es[i].timestamp)
  }

  ghost predicate StampsAscend(es: seq<EventEnvelope>) {
    forall i, j :: 0 <= i < j < |es| ==> KeyStamp(es[i].timestamp) <= KeyStamp(es[j].timestamp)
  }

  /** Key order puts the times from the epoch on first and the earlier ones after them, each
      ascending, so there is one descent exactly when both kinds occur. */
  lemma {:induction false} DescentsOfKeyOrder(es: seq<EventEnvelope>)
    requires AllRepresentable(es) && StampsAscend(es)
    ensures Descents(es) == if HasBefore(es) && HasAfter(es) then 1 else 0
  {
    if |es| > 1 {
      var n := |es| - 1;
      var prefix, d, e := es[..n], es[n - 1], es[n];
      assert StampsAscend(prefix) && AllRepresentable(prefix);
      DescentsOfKeyOrder(prefix);
      assert prefix[n - 1] == d && KeyStamp(d.timestamp) <= KeyStamp(e.timestamp);
      KindsSplit(es);
      if d.timestamp >= 0 {
        forall i | 0 <= i < n ensures prefix[i].timestamp >= 0 {
          assert KeyStamp(prefix[i].timestamp) <= KeyStamp(d.timestamp);
        }
      }
    }
  }

  lemma KindsSplit(es: seq<EventEnvelope>)
    requires es != []
    ensures var n := |es| - 1;
      && (HasBefore(es) <==> HasBefore(es[..n]) || es[n].timestamp < 0)
      && (HasAfter(es) <==> HasAfter(es[..n]) || es[n].timestamp >= 0)
  {
    var n := |es| - 1;
    assert forall i :: 0 <= i < n ==> es[..n][i] == es[i];
    if HasBefore(es[..n]) {
      var i :| 0 <= i < n && es[..n][i].timestamp < 0;
      assert es[i].timestamp < 0;
    }
    if HasAfter(es[..n]) {
      var i :| 0 <= i < n && es[..n][i].timestamp >= 0;
      assert es[i].timestamp >= 0;
    }
    if HasBefore(es) {
      var i :| 0 <= i < |es| && es[i].timestamp < 0;
      assert i < n ==> es[..n][i].timestamp < 0;
    }
    if HasAfter(es) {
      var i :| 0 <= i < |es| && es[i].timestamp >= 0;
      assert i < n ==> es[..n][i].timestamp >= 0;
    }
  }

  // ----- What the passes look at -----

  /** An unfiltered query: at most the first `limit` events in key order. */
  function Scanned(db: Db, limit: nat): seq<EventEnvelope> {
    Page(Scan(db), 0, limit)
  }

  lemma ScannedByQuery(db: Db, q: EventQuery)
    requires q == UNFILTERED.(limit := q.limit)
    ensures QueryResult(db, q).events == Scanned(db, LimitOf(q))
  {
    AcceptedUnfiltered(Scan(db), q);
  }

  lemma ScannedAllIff(db: Db, limit: nat)
    ensures Scanned(db, limit) == Scan(db) <==> |db| <= limit
  {
    assert |Scan(db)| == |db.Keys| == |db|;
  }

  lemma ScanAscending(db: Db, limit: nat)
    requires WellKeyed(db)
    ensures KeyAscending(Scan(db)) && KeyAscending(Scanned(db, limit))
  {
    OrderedAscending(db, db.Keys);
    assert forall i :: 0 <= i < |Scanned(db, limit)| ==> Scanned(db, limit)[i] == Scan(db)[i];
  }

  // ----- Key order against time order -----

  /** Every earlier event sorts before every later one. */
  ghost predicate PairsInKeyOrder(es: seq<EventEnvelope>) {
    forall i, j :: 0 <= i < |es| && 0 <= j < |es| && es[i].timestamp < es[j].timestamp ==> InKeyOrder(es[i], es[j])
  }

  lemma TiesInKeyOrder(d: EventEnvelope, e: EventEnvelope)
    requires LexLe(EventKey(d), EventKey(e)) && EventKey(d) != EventKey(e) && d.timestamp <= e.timestamp
    ensures Before(d, e)
  {
    KeyOrderEmbedding(d, e);
    KeyCollision(d, e);
  }

  lemma AscendingPair(d: EventEnvelope, e: EventEnvelope)
    requires LexLe(EventKey(d), EventKey(e)) && EventKey(d) != EventKey(e)
    ensures d.timestamp < e.timestamp ==> InKeyOrder(d, e)
    ensures e.timestamp < d.timestamp ==> !InKeyOrder(e, d)
  {
    if d.timestamp < e.timestamp {
      KeyOrderOfTimes(d, e);
    } else if e.timestamp < d.timestamp {
      KeyOrderOfTimes(e, d);
      if LexLe(EventKey(e), EventKey(d)) {
        LexAntisymmetric(EventKey(d), EventKey(e));
      }
    }
  }

  /** In key order, a sequence is chronological exactly when its pairs are in key order. */
  lemma ChronologicalIffPairs(es: seq<EventEnvelope>)
    requires KeyAscending(es)
    ensures Chronological(es) <==> PairsInKeyOrder(es)
  {
    forall i, j | 0 <= i < j < |es|
      ensures es[i].timestamp < es[j].timestamp ==> InKeyOrder(es[i], es[j])
      ensures es[j].timestamp < es[i].timestamp ==> !InKeyOrder(es[j], es[i])
      ensures es[i].timestamp <= es[j].timestamp <==> Before(es[i], es[j])
    {
      AscendingPair(es[i], es[j]);
      if es[i].timestamp <= es[j].timestamp {
        TiesInKeyOrder(es[i], es[j]);
      }
    }
    if PairsInKeyOrder(es) {
      forall i, j | 0 <= i < j < |es| ensures Before(es[i], es[j]) {
      }
    }
  }

  /** On representable timestamps the pairs are in key order exactly when they do not lie on both
      sides of the epoch. */
  lemma PairsOfRepresentable(es: seq<EventEnvelope>)
    requires AllRepresentable(es)
    ensures PairsInKeyOrder(es) <==> !(HasBefore(es) && HasAfter(es))
  {
    if HasBefore(es) && HasAfter(es) {
      var i :| 0 <= i < |es| && es[i].timestamp < 0;
      var j :| 0 <= j < |es| && es[j].timestamp >= 0;
      assert !InKeyOrder(es[i], es[j]);
    }
  }

  lemma AscendingPrefix(es: seq<EventEnvelope>, n: nat)
    requires KeyAscending(es) && n <= |es|
    ensures KeyAscending(es[..n])
  {
    hide EventKey, LexLe;
    assert forall i :: 0 <= i < n ==> es[..n][i] == es[i];
  }

  /** One more event extends a chronological sequence exactly when it is not earlier than the last. */
  lemma ChronologicalExtend(es: seq<EventEnvelope>)
    requires |es| > 1 && KeyAscending(es)
    ensures var n := |es| - 1;
      Chronological(es) <==> Chronological(es[..n]) && es[n - 1].timestamp <= es[n].timestamp
  {
    hide EventKey, LexLe;
    var n := |es| - 1;
    var prefix := es[..n];
    assert forall i :: 0 <= i < n ==> prefix[i] == es[i];
    if Chronological(es) {
      assert Before(es[n - 1], es[n]);
    } else if Chronological(prefix) && es[n - 1].timestamp <= es[n].timestamp {
      forall i | 0 <= i < n ensures Before(es[i], es[n]) {
        assert i < n - 1 ==> Before(prefix[i], prefix[n - 1]);
        TiesInKeyOrder(es[i], es[n]);
      }
    }
  }

  /** No neighbours go down exactly when the whole sequence is chronological. */
  lemma {:induction false} NoDescentsIff(es: seq<EventEnvelope>)
    requires KeyAscending(es)
    ensures Descents(es) == 0 <==> Chronological(es)
  {
    if |es| > 1 {
      hide Chronological, KeyAscending;
      var n := |es| - 1;
      AscendingPrefix(es, n);
      NoDescentsIff(es[..n]);
      ChronologicalExtend(es);
    }
  }

  /** The temporal check of any store is exact: it reports nothing exactly when the scanned events
      are in time order, which is when all pairs of them are in key order; for representable
      timestamps it reports one error when they lie on both sides of the epoch and otherwise none. */
  lemma TemporalCheckExact(db: Db, limit: nat)
    requires WellKeyed(db)
    ensures var es := Scanned(db, limit);
      && (Descents(es) == 0 <==> Chronological(es))
      && (Descents(es) == 0 <==> PairsInKeyOrder(es))
      && (AllRepresentable(es) ==> Descents(es) == if HasBefore(es) && HasAfter(es) then 1 else 0)
  {
    var es := Scanned(db, limit);
    ScanAscending(db, limit);
    NoDescentsIff(es);
    ChronologicalIffPairs(es);
    if AllRepresentable(es) {
      AscendingStamps(es);
      DescentsOfKeyOrder(es);
    }
  }

  lemma AscendingStamps(es: seq<EventEnvelope>)
    requires KeyAscending(es)
    ensures StampsAscend(es)
  {
    forall i, j | 0 <= i < j < |es| ensures KeyStamp(es[i].timestamp) <= KeyStamp(es[j].timestamp) {
      KeyOrderEmbedding(es[i], es[j]);
    }
  }

  /** Scanning in key order is scanning in time order exactly when all pairs of stored events are
      in key order; with representable timestamps, when they do not lie on both sides of the epoch. */
  lemma ScanChronologicalIff(db: Db)
    requires WellKeyed(db)
    ensures Chronological(Scan(db)) <==> PairsInKeyOrder(Scan(db))
    ensures AllRepresentable(Scan(db)) ==>
      (Chronological(Scan(db)) <==> !(HasBefore(Scan(db)) && HasAfter(Scan(db))))
  {
    var es := Scan(db);
    OrderedAscending(db, db.Keys);
    ChronologicalIffPairs(es);
    if AllRepresentable(es) {
      PairsOfRepresentable(es);
    }
  }

  /** Every pair that is not in key order makes a store whose scan is not chronological. */
  lemma OutOfOrderPair(early: EventEnvelope, late: EventEnvelope)
    requires early.timestamp < late.timestamp && !InKeyOrder(early, late)
    ensures var db := map[EventKey(early) := early, EventKey(late) := late];
      WellKeyed(db) && |db| == 2 && !Chronological(Scan(db))
  {
    hide EventKey, LexLe, InKeyOrder, Scan, Chronological;
    KeyOrderOfTimes(early, late);
    LexReflexive(EventKey(early));
    var db := map[EventKey(early) := early, EventKey(late) := late];
    var es := Scan(db);
    assert early in db.Values && late in db.Values by {
      assert db[EventKey(early)] == early && db[EventKey(late)] == late;
    }
    ScanMember(db, early);
    ScanMember(db, late);
    var i :| 0 <= i < |es| && es[i] == early;
    var j :| 0 <= j < |es| && es[j] == late;
    ScanChronologicalIff(db);
    assert db.Keys == {EventKey(early), EventKey(late)};
    assert |db| == |db.Keys|;
  }

  /** One nanosecond before the epoch and the epoch itself are scanned in the wrong order. */
  lemma EpochPair(early: EventEnvelope, late: EventEnvelope)
    requires early.timestamp == -1 && late.timestamp == 0
    ensures !Chronological(Scan(map[EventKey(early) := early, EventKey(late) := late]))
  {
    OutOfOrderPair(early, late);
  }

  // ----- Envelope validation -----

  const TEN_YEARS: int := 3650 * 86_400 * 1_000_000_000

  /** Validation keeps its own table of type tags. */
  function ExpectedType(data: LedgerEvent): string {
    match data
    case AccountCreated(_, _) => "AccountCreated"
    case AccountStatusChanged(_) => "AccountStatusChanged"
    case AccountMetadataUpdated(_) => "AccountMetadataUpdated"
    case TransactionProcessed(_, _, _, _) => "TransactionProcessed"
    case BalanceUpdated(_, _, _) => "BalanceUpdated"
    case MerkleRootGenerated(_) => "MerkleRootGenerated"
    case DigestPublished(_) => "DigestPublished"
  }

  predicate ValidEnvelope(e: EventEnvelope, now: int) {
    && e.eventType == ExpectedType(e.data)
    && e.aggregateId != ""
    && now - TEN_YEARS <= e.timestamp <= now
  }

  /** Events that fail validation, the i-th against the i-th clock reading. */
  function Corrupted(es: seq<EventEnvelope>, clock: nat -> int): nat {
    if es == [] then 0
    else
      var n := |es| - 1;
      Corrupted(es[..n], clock) + if ValidEnvelope(es[n], clock(n)) then 0 else 1
  }

  /** An envelope is valid exactly when it is one its constructor builds, for a named aggregate, no
      later than now and at most 3650 days (in nanoseconds) before; so each of the four defects
      alone makes it invalid. */
  lemma ValidExact(e: EventEnvelope, now: int)
    ensures ValidEnvelope(e, now) <==>
      && e == NewEnvelope(e.eventId, e.aggregateId, e.timestamp, e.data, e.details)
      && e.aggregateId != ""
      && e.timestamp <= now
      && now - e.timestamp <= 315_360_000_000_000_000
  {
  }

  /** The positions of events that fail validation. */
  function InvalidAt(es: seq<EventEnvelope>, clock: nat -> int): set<nat> {
    set i: nat | i < |es| && !ValidEnvelope(es[i], clock(i))
  }

  lemma {:induction false} InvalidLast(es: seq<EventEnvelope>, clock: nat -> int)
    requires es != []
    ensures var n := |es| - 1;
      |InvalidAt(es, clock)| == |InvalidAt(es[..n], clock)| + if ValidEnvelope(es[n], clock(n)) then 0 else 1
  {
    hide ValidEnvelope;
    var n := |es| - 1;
    var before, now := InvalidAt(es[..n], clock), InvalidAt(es, clock);
    assert forall i: nat :: i < n ==> es[..n][i] == es[i];
    assert n !in before && before == now - {n};
    assert n in now <==> !ValidEnvelope(es[n], clock(n));
  }

  /** Each invalid event is counted once, and no other. */
  lemma {:induction false} CorruptedExact(es: seq<EventEnvelope>, clock: nat -> int)
    ensures Corrupted(es, clock) == |InvalidAt(es, clock)|
  {
    if es == [] {
      assert InvalidAt(es, clock) == {};
    } else {
      hide ValidEnvelope, InvalidAt;
      CorruptedExact(es[..|es| - 1], clock);
      InvalidLast(es, clock);
    }
  }

  datatype Options = Options(autoRepair: bool, deepCheck: bool, maxEventsToCheck: nat)

  function CheckLimit(options: Options): nat {
    if options.maxEventsToCheck > 0 then options.maxEventsToCheck else DEFAULT_LIMIT
  }

  /** A positive limit m makes the pass look at min(m, n) of n events, no limit at min(1000, n). */
  lemma CheckedCount(db: Db, options: Options)
    ensures |Scanned(db, CheckLimit(options))| ==
            Min(if options.maxEventsToCheck > 0 then options.maxEventsToCheck else 1000, |db|)
  {
    assert |Scan(db)| == |db.Keys| == |db|;
  }

  class RecoveryStats {
    var totalEventsChecked: nat
    var corruptedEventsFound: nat
    var corruptedEventsRepaired: nat
    var consistencyErrors: nat

    constructor ()
      ensures totalEventsChecked == 0 && corruptedEventsFound == 0
      ensures corruptedEventsRepaired == 0 && consistencyErrors == 0
    {
      totalEventsChecked, corruptedEventsFound, corruptedEventsRepaired, consistencyErrors := 0, 0, 0, 0;
    }
  }

  /** The unfiltered query every pass starts with. */
  method FirstEvents(store: EventStore, limit: Option<nat>) returns (es: seq<EventEnvelope>)
    ensures es == Scanned(store.db, if limit.Some? then limit.value else DEFAULT_LIMIT)
  {
    var q := UNFILTERED.(limit := limit);
    var r := store.QueryEvents(q);
    ScannedByQuery(store.db, q);
    return r.events;
  }

  /** Sets, not adds to, the number of events checked. */
  method CheckDatabaseIntegrity(store: EventStore, stats: RecoveryStats)
    modifies stats`totalEventsChecked
    ensures stats.totalEventsChecked == |Scanned(store.db, DEFAULT_LIMIT)|
  {
    var es := FirstEvents(store, None);
    stats.totalEventsChecked := |es|;
  }

  datatype RecoveryError = RecoveryFailed(reason: string)

  /** Repair is not implemented: every attempt fails. */
  method RepairEvent(e: EventEnvelope) returns (r: Result<(), RecoveryError>)
    ensures r.Err?
  {
    return Err(RecoveryFailed("Event repair not implemented"));
  }

  /** Whether or not repairs are attempted, no event is ever counted as repaired. */
  method CheckEventConsistency(store: EventStore, stats: RecoveryStats, options: Options, clock: nat -> int)
    modifies stats`totalEventsChecked, stats`corruptedEventsFound, stats`corruptedEventsRepaired
    ensures var es := Scanned(store.db, CheckLimit(options));
      && stats.totalEventsChecked == old(stats.totalEventsChecked) + |es|
      && |es| == Min(if options.maxEventsToCheck > 0 then options.maxEventsToCheck else 1000, |store.db|)
      && stats.corruptedEventsFound == old(stats.corruptedEventsFound) + |InvalidAt(es, clock)|
      && stats.corruptedEventsRepaired == old(stats.corruptedEventsRepaired)
  {
    hide Scanned, ValidEnvelope, InvalidAt;
    var es := FirstEvents(store, if options.maxEventsToCheck > 0 then Some(options.maxEventsToCheck) else None);
    var i := 0;
    while i < |es|
      invariant 0 <= i <= |es|
      invariant stats.totalEventsChecked == old(stats.totalEventsChecked) + i
      invariant stats.corruptedEventsFound == old(stats.corruptedEventsFound) + Corrupted(es[..i], clock)
      invariant stats.corruptedEventsRepaired == old(stats.corruptedEventsRepaired)
    {
      stats.totalEventsChecked := stats.totalEventsChecked + 1;
      assert es[..i + 1][..i] == es[..i];
      if !ValidEnvelope(es[i], clock(i)) {
        stats.corruptedEventsFound := stats.corruptedEventsFound + 1;
        if options.autoRepair {
          var repair := RepairEvent(es[i]);
          stats.corruptedEventsRepaired := stats.corruptedEventsRepaired + if repair.Ok? then 1 else 0;
        }
      }
      i := i + 1;
    }
    assert es[..i] == es;
    CorruptedExact(es, clock);
    CheckedCount(store.db, options);
  }

  /** Replays the scanned events; the rebuilt balances are handed out for inspection. No error is
      added exactly when the unbounded ledger stays in range, and then the balances are its. */
  method CheckAccountBalanceConsistency(store: EventStore, stats: RecoveryStats) returns (balances: map<Uuid, Amount>)
    modifies stats`consistencyErrors
    ensures var l := Replay(EMPTY, Scanned(store.db, DEFAULT_LIMIT));
      && balances == l.balances
      && stats.consistencyErrors == old(stats.consistencyErrors) + l.errors
    ensures var es := Scanned(store.db, 1000);
      && (stats.consistencyErrors == old(stats.consistencyErrors) <==> AlwaysFits(es))
      && (AlwaysFits(es) ==> balances == MathReplay(es))
  {
    hide Scanned, ReplayEvent, AlwaysFits, MathReplay;
    var es := FirstEvents(store, None);
    ReplayRefinesMath(es);
    balances := map[];
    ghost var l := EMPTY;
    var i := 0;
    while i < |es|
      invariant 0 <= i <= |es|
      invariant l == Replay(EMPTY, es[..i])
      invariant balances == l.balances
      invariant stats.consistencyErrors == old(stats.consistencyErrors) + l.errors
    {
      ReplayLast(EMPTY, es[..i], es[i]);
      assert es[..i + 1] == es[..i] + [es[i]];
      var b, errors := ReplayOne(balances, es[i], l);
      l := ReplayEvent(l, es[i]);
      balances := b;
      stats.consistencyErrors := stats.consistencyErrors + errors;
      i := i + 1;
    }
    assert es[..i] == es;
  }

  /** One turn of the replay loop: overwrite, or a debit and then, whatever became of it, a credit. */
  method ReplayOne(balances: map<Uuid, Amount>, e: EventEnvelope, ghost l: Ledger) returns (b: map<Uuid, Amount>, errors: nat)
    requires l.balances == balances
    ensures b == ReplayEvent(l, e).balances && l.errors + errors == ReplayEvent(l, e).errors
    ensures match e.data
      case AccountCreated(id, initial) => b == balances[id := initial] && errors == 0
      case BalanceUpdated(id, _, balance) => b == balances[id := balance] && errors == 0
      case TransactionProcessed(_, from, to, amount) =>
        && Changed(l, from, 0 - amount as int, AfterDebit(l, e))
        && Changed(AfterDebit(l, e), to, amount, Ledger(b, l.errors + errors))
      case _ => b == balances && errors == 0
  {
    ReplayEventExact(l, e);
    b, errors := balances, 0;
    match e.data
    case AccountCreated(id, initial) =>
      b := b[id := initial];
      TakeOne(l, Overwrite(id, initial));
    case BalanceUpdated(id, _, balance) =>
      b := b[id := balance];
      TakeOne(l, Overwrite(id, balance));
    case TransactionProcessed(_, from, to, amount) =>
      UnrollHalves(l, e);
      ghost var mid := l;
      if from.Some? {
        b, errors := DebitKnown(b, from.value, amount, l);
        mid := Take(l, Debit(from.value, amount));
      }
      if to.Some? {
        var more;
        b, more := CreditKnown(b, to.value, amount, mid);
        errors := errors + more;
      }
    case _ =>
  }

  method DebitKnown(balances: map<Uuid, Amount>, account: Uuid, amount: Amount, ghost l: Ledger)
    returns (b: map<Uuid, Amount>, errors: nat)
    requires l.balances == balances
    ensures var r := Take(l, Debit(account, amount)); b == r.balances && l.errors + errors == r.errors
  {
    b, errors := balances, 0;
    if account in b {
      match Subtract(b[account], amount) {
        case Ok(balance) => b := b[account := balance];
        case Err(_) => errors := 1;
      }
    }
  }

  method CreditKnown(balances: map<Uuid, Amount>, account: Uuid, amount: Amount, ghost l: Ledger)
    returns (b: map<Uuid, Amount>, errors: nat)
    requires l.balances == balances
    ensures var r := Take(l, Credit(account, amount)); b == r.balances && l.errors + errors == r.errors
  {
    b, errors := balances, 0;
    if account in b {
      match Add(b[account], amount) {
        case Ok(balance) => b := b[account := balance];
        case Err(_) => errors := 1;
      }
    }
  }

  method CheckTemporalConsistency(store: EventStore, stats: RecoveryStats)
    modifies stats`consistencyErrors
    ensures stats.consistencyErrors == old(stats.consistencyErrors) + Descents(Scanned(store.db, DEFAULT_LIMIT))
  {
    hide Scanned;
    var es := FirstEvents(store, None);
    var last: Option<int> := None;
    var i := 0;
    while i < |es|
      invariant 0 <= i <= |es|
      invariant last == if i == 0 then None else Some(es[i - 1].timestamp)
      invariant stats.consistencyErrors == old(stats.consistencyErrors) + Descents(es[..i])
    {
      assert es[..i + 1][..i] == es[..i];
      if last.Some? && es[i].timestamp < last.value {
        stats.consistencyErrors := stats.consistencyErrors + 1;
      }
      last := Some(es[i].timestamp);
      i := i + 1;
    }
    assert es[..i] == es;
  }

  /** The errors a whole recovery reports for a store. */
  function RecoveryErrors(db: Db): nat {
    var es := Scanned(db, DEFAULT_LIMIT);
    Replay(EMPTY, es).errors + Descents(es)
  }

  method Recover(store: EventStore, options: Options, clock: nat -> int) returns (stats: RecoveryStats)
    ensures fresh(stats)
    ensures var first, deep := |Scanned(store.db, DEFAULT_LIMIT)|, Scanned(store.db, CheckLimit(options));
      && stats.totalEventsChecked == first + (if options.deepCheck then |deep| else 0)
      && stats.corruptedEventsFound == (if options.deepCheck then |InvalidAt(deep, clock)| else 0)
      && stats.corruptedEventsRepaired == 0
      && stats.consistencyErrors == RecoveryErrors(store.db)
    ensures store.db == old(store.db)
  {
    stats := new RecoveryStats();
    CheckDatabaseIntegrity(store, stats);
    if options.deepCheck {
      CheckEventConsistency(store, stats, options, clock);
    }
    var _ := CheckAccountBalanceConsistency(store, stats);
    CheckTemporalConsistency(store, stats);
  }

  /** A recovery of any store reports no consistency error exactly when the first 1000 events in
      key order are pairwise in key order (with representable timestamps: lie on one side of the
      epoch) and no debit or credit among them leaves the 64-bit range. */
  lemma CleanRecoveryIff(db: Db)
    requires WellKeyed(db)
    ensures var es := Scanned(db, DEFAULT_LIMIT);
      RecoveryErrors(db) == 0 <==> AlwaysFits(es) && PairsInKeyOrder(es)
  {
    var es := Scanned(db, DEFAULT_LIMIT);
    TemporalCheckExact(db, DEFAULT_LIMIT);
    ReplayRefinesMath(es);
  }
}
