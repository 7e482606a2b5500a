/** Where "all events" stops being all: balances rebuilt from a query, and recovery, look at the
    first 1000 events, and are right for every store of a given size exactly up to there. */
module Limits {
  import opened LedgerTypes
  import opened EventKeys
  import opened Sequences
  import opened OrderedScan
  import opened EventQueries
  import opened Appends
  import opened BalanceReplay
  import opened Recovery
  import opened EndToEnd

  const NIL: Uuid := seq(16, _ => 0)

  // ----- A long history of one account -----

  /** Opened at the greatest balance, then nothing that moves it, then `last`. */
  function HistoryData(account: Uuid, n: nat, last: LedgerEvent, i: nat): LedgerEvent {
    if i == 0 then AccountCreated(account, I64_MAX)
    else if i < n - 1 then AccountStatusChanged(account)
    else last
  }

  /** One event per nanosecond from the epoch on. */
  function History(account: Uuid, n: nat, last: LedgerEvent): (log: seq<EventEnvelope>)
    ensures |log| == n
    ensures forall i :: 0 <= i < n ==> log[i].timestamp == i && log[i].data == HistoryData(account, n, last, i)
  {
    seq(n, i requires 0 <= i < n =>
      var data := HistoryData(account, n, last, i);
      EventEnvelope(NIL, TypeName(data), "account", i, data, ""))
  }

  lemma HistoryStored(account: Uuid, n: nat, last: LedgerEvent)
    requires n <= I64_MAX
    ensures var log := History(account, n, last);
      WellKeyed(Puts(log)) && Scan(Puts(log)) == log
  {
    var log := History(account, n, last);
    forall i, j | 0 <= i < j < n ensures EventKey(log[i]) != EventKey(log[j]) {
      KeyInjective(log[i], log[j]);
    }
    PutsWellKeyed(log);
    ScanOfStored(log, log);
  }

  const OPENED: Amount := I64_MAX

  /** Up to its last event the history leaves the opening balance, without an error. */
  lemma {:induction false} QuietReplay(account: Uuid, n: nat, last: LedgerEvent, k: nat)
    requires 1 <= k < n
    ensures Replay(EMPTY, History(account, n, last)[..k]) == Ledger(map[account := OPENED], 0)
  {
    var log := History(account, n, last);
    var e := log[k - 1];
    assert log[..k] == log[..k - 1] + [e];
    ReplayLast(EMPTY, log[..k - 1], e);
    if k == 1 {
      TakeOne(EMPTY, Overwrite(account, OPENED));
    } else {
      QuietReplay(account, n, last, k - 1);
    }
  }

  lemma HistoryReplay(account: Uuid, n: nat, last: LedgerEvent)
    requires n > 1
    ensures var log := History(account, n, last);
      Replay(EMPTY, log) == ReplayEvent(Ledger(map[account := OPENED], 0), log[n - 1])
  {
    var log := History(account, n, last);
    QuietReplay(account, n, last, n - 1);
    assert log[..n - 1] + [log[n - 1]] == log;
    ReplayLast(EMPTY, log[..n - 1], log[n - 1]);
  }

  // ----- Balances rebuilt from the account's query -----

  lemma HistoryOfAccount(account: Uuid, n: nat, last: LedgerEvent)
    requires 1000 < n <= I64_MAX && last.BalanceUpdated? && last.accountId == account
    ensures var log := History(account, n, last);
      Filter(OfAccount(account), log) == log && AccountEvents(Puts(log), account) == log[..DEFAULT_LIMIT]
  {
    var log := History(account, n, last);
    hide Puts, Scan, Accepted, Filter;
    HistoryStored(account, n, last);
    forall e | e in log ensures OfAccount(account)(e) {
      var i :| 0 <= i < n && log[i] == e;
    }
    FilterAll(OfAccount(account), log);
    AcceptedOfAccount(log, UNFILTERED.(accountId := Some(account)), account);
  }

  /** Any history of more than 1000 events that ends with a balance update is rebuilt wrongly. */
  lemma LateUpdateMissed(account: Uuid, n: nat)
    requires 1000 < n <= I64_MAX
    ensures var db := Puts(History(account, n, BalanceUpdated(account, I64_MAX, 0)));
      && WellKeyed(db) && |Filter(OfAccount(account), Scan(db))| == n
      && View(Replay(EMPTY, AccountEvents(db, account)), account) == Some(OPENED)
      && View(Replay(EMPTY, Scan(db)), account) == Some(0)
  {
    hide Puts, Scan, AccountEvents, Filter, Replay;
    var last := BalanceUpdated(account, I64_MAX, 0);
    HistoryStored(account, n, last);
    HistoryOfAccount(account, n, last);
    QuietReplay(account, n, last, DEFAULT_LIMIT);
    HistoryReplay(account, n, last);
    TakeOne(Ledger(map[account := OPENED], 0), Overwrite(account, 0));
  }

  ghost predicate Rebuilt(db: Db, account: Uuid) {
    View(Replay(EMPTY, AccountEvents(db, account)), account) == View(Replay(EMPTY, Scan(db)), account)
  }

  /** The account's query rebuilds the balance of every account with `n` events exactly when `n`
      is at most 1000. */
  lemma RebuildExact(n: nat)
    requires n <= I64_MAX
    ensures (forall db: Db, account: Uuid ::
               WellKeyed(db) && |Filter(OfAccount(account), Scan(db))| == n ==> Rebuilt(db, account))
            <==> n <= 1000
  {
    if n <= 1000 {
      forall db: Db, account: Uuid | WellKeyed(db) && |Filter(OfAccount(account), Scan(db))| == n
        ensures Rebuilt(db, account)
      {
        AccountQueryRebuildsBalance(db, account);
      }
    } else {
      LateUpdateMissed(NIL, n);
      assert !Rebuilt(Puts(History(NIL, n, BalanceUpdated(NIL, I64_MAX, 0))), NIL);
    }
  }

  // ----- Recovery -----

  lemma {:induction false} SteadyClock(es: seq<EventEnvelope>)
    requires forall i :: 0 <= i < |es| ==> es[i].timestamp == i
    ensures Descents(es) == 0
  {
    if |es| > 1 {
      SteadyClock(es[..|es| - 1]);
    }
  }

  lemma FullAccountOverflows(account: Uuid, e: EventEnvelope)
    requires e.data == TransactionProcessed(NIL, None, Some(account), 1)
    ensures ReplayEvent(Ledger(map[account := OPENED], 0), e).errors == 1
  {
    UnrollHalves(Ledger(map[account := OPENED], 0), e);
  }

  /** Any store of more than 1000 events may hide its first overflow from recovery. */
  lemma LateOverflowMissed(account: Uuid, n: nat)
    requires 1000 < n <= I64_MAX
    ensures var db := Puts(History(account, n, TransactionProcessed(NIL, None, Some(account), 1)));
      && WellKeyed(db) && |db| == n
      && RecoveryErrors(db) == 0
      && Replay(EMPTY, Scan(db)).errors == 1
  {
    var last := TransactionProcessed(NIL, None, Some(account), 1);
    var log := History(account, n, last);
    hide Replay, ReplayEvent, Descents, Puts, Scan;
    var db := Puts(log);
    HistoryStored(account, n, last);
    assert |Scan(db)| == |db.Keys| == |db|;
    QuietReplay(account, n, last, DEFAULT_LIMIT);
    assert Scanned(db, DEFAULT_LIMIT) == log[..DEFAULT_LIMIT];
    SteadyClock(log[..DEFAULT_LIMIT]);
    HistoryReplay(account, n, last);
    FullAccountOverflows(account, log[n - 1]);
  }

  /** The errors a recovery without a limit would report. */
  function UnlimitedErrors(db: Db): nat {
    Replay(EMPTY, Scan(db)).errors + Descents(Scan(db))
  }

  /** Recovery reports the errors of every store of `n` events exactly when `n` is at most 1000. */
  lemma RecoveryExact(n: nat)
    requires n <= I64_MAX
    ensures (forall db: Db :: WellKeyed(db) && |db| == n ==> RecoveryErrors(db) == UnlimitedErrors(db))
            <==> n <= 1000
  {
    if n <= 1000 {
      forall db: Db | WellKeyed(db) && |db| == n ensures RecoveryErrors(db) == UnlimitedErrors(db) {
        ScannedAllIff(db, DEFAULT_LIMIT);
      }
    } else {
      LateOverflowMissed(NIL, n);
      var db := Puts(History(NIL, n, TransactionProcessed(NIL, None, Some(NIL), 1)));
      assert WellKeyed(db) && |db| == n && RecoveryErrors(db) != UnlimitedErrors(db);
    }
  }
}
