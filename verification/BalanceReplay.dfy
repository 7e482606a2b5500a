/** Rebuilding balances from the log: checked 64-bit arithmetic, separate debit and credit
    halves, and an error counter; and what that fold means. */
module BalanceReplay {
  import opened LedgerTypes
  import opened Sequences
  import opened OrderedScan
  import opened EventQueries

  /** One balance change: an overwrite, or a checked debit or credit of a known account. */
  datatype HalfStep =
    | Overwrite(account: Uuid, balance: Amount)
    | Debit(account: Uuid, amount: Amount)
    | Credit(account: Uuid, amount: Amount)

  datatype Ledger = Ledger(balances: map<Uuid, Amount>, errors: nat)

  const EMPTY := Ledger(map[], 0)

  function HalfSteps(data: LedgerEvent): seq<HalfStep> {
    match data
    case AccountCreated(id, initial) => [Overwrite(id, initial)]
    case BalanceUpdated(id, _, balance) => [Overwrite(id, balance)]
    case TransactionProcessed(_, from, to, amount) =>
      (if from.Some? then [Debit(from.value, amount)] else [])
      + (if to.Some? then [Credit(to.value, amount)] else [])
    case _ => []
  }

  /** A failed half leaves the balances alone and counts one error. */
  function Settle(l: Ledger, account: Uuid, r: Result<Amount, AmountError>): Ledger {
    match r
    case Ok(balance) => l.(balances := l.balances[account := balance])
    case Err(_) => l.(errors := l.errors + 1)
  }

  function Take(l: Ledger, h: HalfStep): Ledger {
    match h
    case Overwrite(account, balance) => l.(balances := l.balances[account := balance])
    case Debit(account, amount) =>
      if account in l.balances then Settle(l, account, Subtract(l.balances[account], amount)) else l
    case Credit(account, amount) =>
      if account in l.balances then Settle(l, account, Add(l.balances[account], amount)) else l
  }

  function TakeAll(l: Ledger, hs: seq<HalfStep>): Ledger {
    if hs == [] then l else Take(TakeAll(l, hs[..|hs| - 1]), hs[|hs| - 1])
  }

  function ReplayEvent(l: Ledger, e: EventEnvelope): Ledger {
    TakeAll(l, HalfSteps(e.data))
  }

  function Replay(l: Ledger, log: seq<EventEnvelope>): Ledger {
    if log == [] then l else ReplayEvent(Replay(l, log[..|log| - 1]), log[|log| - 1])
  }

  // ----- Half-steps of a log -----

  function Expand(log: seq<EventEnvelope>): seq<HalfStep> {
    if log == [] then [] else Expand(log[..|log| - 1]) + HalfSteps(log[|log| - 1].data)
  }

  lemma TakeOne(l: Ledger, h: HalfStep)
    ensures TakeAll(l, [h]) == Take(l, h)
  {
    assert [h][..0] == [];
  }

  lemma {:induction false} TakeAllConcat(l: Ledger, a: seq<HalfStep>, b: seq<HalfStep>)
    ensures TakeAll(l, a + b) == TakeAll(TakeAll(l, a), b)
  {
    if b == [] {
      assert a + b == a;
    } else {
      var n := |b| - 1;
      TakeAllConcat(l, a, b[..n]);
      assert (a + b)[..|a + b| - 1] == a + b[..n];
    }
  }

  /** A transaction is its debit followed by its credit. */
  lemma {:induction false} UnrollHalves(l: Ledger, e: EventEnvelope)
    requires e.data.TransactionProcessed?
    ensures var mid := if e.data.fromAccount.Some? then Take(l, Debit(e.data.fromAccount.value, e.data.amount)) else l;
      ReplayEvent(l, e) == if e.data.toAccount.Some? then Take(mid, Credit(e.data.toAccount.value, e.data.amount)) else mid
  {
    var debit := if e.data.fromAccount.Some? then [Debit(e.data.fromAccount.value, e.data.amount)] else [];
    var credit := if e.data.toAccount.Some? then [Credit(e.data.toAccount.value, e.data.amount)] else [];
    assert HalfSteps(e.data) == debit + credit;
    TakeAllConcat(l, debit, credit);
    if debit != [] {
      TakeOne(l, debit[0]);
    }
    if credit != [] {
      TakeOne(TakeAll(l, debit), credit[0]);
    }
  }

  lemma {:induction false} ReplayExpand(l: Ledger, log: seq<EventEnvelope>)
    ensures Replay(l, log) == TakeAll(l, Expand(log))
  {
    if log != [] {
      var n := |log| - 1;
      ReplayExpand(l, log[..n]);
      TakeAllConcat(l, Expand(log[..n]), HalfSteps(log[n].data));
    }
  }

  lemma {:induction false} ReplayLast(l: Ledger, log: seq<EventEnvelope>, e: EventEnvelope)
    ensures Replay(l, log + [e]) == ReplayEvent(Replay(l, log), e)
  {
    assert (log + [e])[..|log|] == log;
  }

  lemma {:induction false} ReplayIsFold(l: Ledger, log: seq<EventEnvelope>)
    ensures Replay(l, log) == Fold(ReplayEvent, l, log)
  {
    if log != [] {
      ReplayIsFold(l, log[..|log| - 1]);
    }
  }

  lemma {:induction false} ReplayConcat(l: Ledger, a: seq<EventEnvelope>, b: seq<EventEnvelope>)
    ensures Replay(l, a + b) == Replay(Replay(l, a), b)
  {
    ReplayIsFold(l, a + b);
    ReplayIsFold(l, a);
    ReplayIsFold(Replay(l, a), b);
    FoldConcat(ReplayEvent, l, a, b);
  }

  // ----- Projection to one account -----

  /** An account's balance, if it has one. */
  function View(l: Ledger, account: Uuid): Option<Amount> {
    if account in l.balances then Some(l.balances[account]) else None
  }

  /** A half-step changes one account's view, and looks at no other. */
  lemma TakeIsLocal(l: Ledger, m: Ledger, h: HalfStep, account: Uuid)
    requires View(l, account) == View(m, account)
    ensures View(Take(l, h), account) == View(Take(m, h), account)
    ensures h.account != account ==> View(Take(l, h), account) == View(l, account)
  {
  }

  lemma {:induction false} TakeAllIsLocal(l: Ledger, m: Ledger, hs: seq<HalfStep>, account: Uuid)
    requires View(l, account) == View(m, account)
    ensures View(TakeAll(l, hs), account) == View(TakeAll(m, hs), account)
    ensures (forall i :: 0 <= i < |hs| ==> hs[i].account != account) ==> View(TakeAll(l, hs), account) == View(l, account)
  {
    if hs != [] {
      var n := |hs| - 1;
      TakeAllIsLocal(l, m, hs[..n], account);
      TakeIsLocal(TakeAll(l, hs[..n]), TakeAll(m, hs[..n]), hs[n], account);
    }
  }

  function OfAccount(account: Uuid): EventEnvelope -> bool {
    (e: EventEnvelope) => MatchesAccount(e, account)
  }

  lemma OthersHalfSteps(e: EventEnvelope, account: Uuid)
    requires !MatchesAccount(e, account)
    ensures forall i :: 0 <= i < |HalfSteps(e.data)| ==> HalfSteps(e.data)[i].account != account
  {
  }

  /** Another event keeps two replays of the same account in step, and an event of other
      accounts does not move it at all. */
  lemma ReplayEventIsLocal(l: Ledger, m: Ledger, e: EventEnvelope, account: Uuid)
    requires View(l, account) == View(m, account)
    ensures View(ReplayEvent(l, e), account) == View(ReplayEvent(m, e), account)
    ensures !MatchesAccount(e, account) ==> View(ReplayEvent(l, e), account) == View(l, account)
  {
    hide HalfSteps, View, TakeAll, MatchesAccount;
    if !MatchesAccount(e, account) {
      OthersHalfSteps(e, account);
    }
    TakeAllIsLocal(l, m, HalfSteps(e.data), account);
  }

  lemma {:induction false} FilterLast<T>(p: T -> bool, s: seq<T>)
    requires s != []
    ensures var n := |s| - 1;
      Filter(p, s) == if p(s[n]) then Filter(p, s[..n]) + [s[n]] else Filter(p, s[..n])
  {
    var n := |s| - 1;
    assert s == s[..n] + [s[n]];
    FilterAppend(p, s[..n], [s[n]]);
    assert [s[n]][1..] == [];
  }

  /** Replaying only an account's own events gives it the same balance, or absence, as the whole log. */
  lemma {:induction false} AccountProjection(l: Ledger, log: seq<EventEnvelope>, account: Uuid)
    ensures View(Replay(l, Filter(OfAccount(account), log)), account) == View(Replay(l, log), account)
  {
    if log != [] {
      var n, p := |log| - 1, OfAccount(account);
      var own := Filter(p, log[..n]);
      AccountProjection(l, log[..n], account);
      FilterLast(p, log);
      ReplayEventIsLocal(Replay(l, log[..n]), Replay(l, own), log[n], account);
      ReplayLast(l, own, log[n]);
    }
  }

  lemma {:induction false} AcceptedOfAccount(items: seq<EventEnvelope>, q: EventQuery, account: Uuid)
    requires q == UNFILTERED.(accountId := Some(account))
    ensures Accepted(items, q) == Filter(OfAccount(account), items)
  {
    if items != [] {
      AcceptedOfAccount(items[1..], q, account);
    }
  }

  /** What `get_account_events` returns: the first 1000 of the account's events, in key order. */
  function AccountEvents(db: Db, account: Uuid): seq<EventEnvelope> {
    QueryResult(db, UNFILTERED.(accountId := Some(account))).events
  }

  /** The query is complete exactly for accounts with at most 1000 events. */
  lemma AccountEventsCompleteIff(db: Db, account: Uuid)
    ensures AccountEvents(db, account) == Filter(OfAccount(account), Scan(db)) <==>
            |Filter(OfAccount(account), Scan(db))| <= 1000
  {
    AcceptedOfAccount(Scan(db), UNFILTERED.(accountId := Some(account)), account);
  }

  /** An account with at most 1000 events is rebuilt exactly from its own query, on any store. */
  lemma AccountQueryRebuildsBalance(db: Db, account: Uuid)
    requires |Filter(OfAccount(account), Scan(db))| <= 1000
    ensures View(Replay(EMPTY, AccountEvents(db, account)), account) == View(Replay(EMPTY, Scan(db)), account)
  {
    AccountEventsCompleteIff(db, account);
    AccountProjection(EMPTY, Scan(db), account);
  }

  // ----- Against unbounded integers -----

  type MathBalances = map<Uuid, int>

  function MathTake(m: MathBalances, h: HalfStep): MathBalances {
    match h
    case Overwrite(account, balance) => m[account := balance]
    case Debit(account, amount) => if account in m then m[account := m[account] - amount] else m
    case Credit(account, amount) => if account in m then m[account := m[account] + amount] else m
  }

  function MathTakeAll(hs: seq<HalfStep>): MathBalances {
    if hs == [] then map[] else MathTake(MathTakeAll(hs[..|hs| - 1]), hs[|hs| - 1])
  }

  ghost predicate InRange(m: MathBalances) {
    forall a :: a in m ==> FitsI64(m[a])
  }

  ghost predicate AlwaysInRange(hs: seq<HalfStep>) {
    forall j :: 0 <= j <= |hs| ==> InRange(MathTakeAll(hs[..j]))
  }

  lemma TakeRefinesMath(l: Ledger, m: MathBalances, h: HalfStep)
    requires l.balances == m
    ensures Take(l, h).errors == l.errors + if InRange(MathTake(m, h)) then 0 else 1
    ensures InRange(MathTake(m, h)) ==> Take(l, h).balances == MathTake(m, h)
  {
    assert InRange(m);
    var m' := MathTake(m, h);
    assert forall a :: a in m' && a != h.account ==> a in m && m'[a] == m[a];
    if h.account in m' {
      assert InRange(m') <==> FitsI64(m'[h.account]);
    }
  }

  lemma {:induction false} PrefixInRange(hs: seq<HalfStep>)
    requires hs != []
    ensures AlwaysInRange(hs) <==> AlwaysInRange(hs[..|hs| - 1]) && InRange(MathTakeAll(hs))
  {
    var n := |hs| - 1;
    assert forall j :: 0 <= j <= n ==> hs[..n][..j] == hs[..j];
    assert hs[..n + 1] == hs;
  }

  /** Half-steps are error-free exactly while the unbounded ledger stays in range after every one,
      and then they are the unbounded ledger. */
  lemma {:induction false} HalfStepsRefineMath(hs: seq<HalfStep>)
    ensures TakeAll(EMPTY, hs).errors == 0 <==> AlwaysInRange(hs)
    ensures TakeAll(EMPTY, hs).errors == 0 ==> TakeAll(EMPTY, hs).balances == MathTakeAll(hs)
  {
    if hs == [] {
      assert hs[..0] == [];
    } else {
      var n := |hs| - 1;
      HalfStepsRefineMath(hs[..n]);
      PrefixInRange(hs);
      if TakeAll(EMPTY, hs[..n]).errors == 0 {
        TakeRefinesMath(TakeAll(EMPTY, hs[..n]), MathTakeAll(hs[..n]), hs[n]);
      }
    }
  }

  /** The first error is counted at exactly the first half-step that leaves the range. */
  lemma FirstErrorIsFirstOverflow(hs: seq<HalfStep>, k: nat)
    requires k < |hs|
    ensures (TakeAll(EMPTY, hs[..k]).errors == 0 && TakeAll(EMPTY, hs[..k + 1]).errors == 1) <==>
            (AlwaysInRange(hs[..k]) && !InRange(MathTakeAll(hs[..k + 1])))
  {
    HalfStepsRefineMath(hs[..k]);
    var step := hs[..k + 1];
    assert step[..k] == hs[..k] && step[k] == hs[k];
    if AlwaysInRange(hs[..k]) {
      TakeRefinesMath(TakeAll(EMPTY, hs[..k]), MathTakeAll(hs[..k]), hs[k]);
    }
  }

  // ----- What one event does -----

  /** A debit or credit of `party`: nobody but that account moves, nothing happens when it is
      unknown or absent, and a change that does not fit is an error instead. */
  ghost predicate Changed(before: Ledger, party: Option<Uuid>, change: int, after: Ledger) {
    if party.None? || party.value !in before.balances then after == before
    else if FitsI64(before.balances[party.value] + change) then
      && after.errors == before.errors
      && after.balances.Keys == before.balances.Keys
      && (forall a :: a in before.balances ==>
            after.balances[a] == before.balances[a] + if a == party.value then change else 0)
    else after == before.(errors := before.errors + 1)
  }

  /** The ledger between the two halves of a transaction. */
  function AfterDebit(l: Ledger, e: EventEnvelope): Ledger
    requires e.data.TransactionProcessed?
  {
    if e.data.fromAccount.Some? then Take(l, Debit(e.data.fromAccount.value, e.data.amount)) else l
  }

  /** The effect of every kind of event on any ledger. */
  lemma ReplayEventExact(l: Ledger, e: EventEnvelope)
    ensures match e.data
      case AccountCreated(id, initial) => ReplayEvent(l, e) == Ledger(l.balances[id := initial], l.errors)
      case BalanceUpdated(id, _, balance) => ReplayEvent(l, e) == Ledger(l.balances[id := balance], l.errors)
      case TransactionProcessed(_, from, to, amount) =>
        && Changed(l, from, 0 - amount as int, AfterDebit(l, e))
        && Changed(AfterDebit(l, e), to, amount, ReplayEvent(l, e))
      case _ => ReplayEvent(l, e) == l
  {
    match e.data
    case AccountCreated(id, initial) => TakeOne(l, Overwrite(id, initial));
    case BalanceUpdated(id, _, balance) => TakeOne(l, Overwrite(id, balance));
    case TransactionProcessed(_, from, to, amount) =>
      hide TakeAll, HalfSteps, ReplayEvent, Take, Changed;
      UnrollHalves(l, e);
      HalfChanges(l, from, amount);
      HalfChanges(AfterDebit(l, e), to, amount);
    case _ =>
  }

  lemma HalfChanges(l: Ledger, party: Option<Uuid>, amount: Amount)
    ensures Changed(l, party, 0 - amount as int, if party.Some? then Take(l, Debit(party.value, amount)) else l)
    ensures Changed(l, party, amount, if party.Some? then Take(l, Credit(party.value, amount)) else l)
  {
  }

  // ----- Which events concern an account -----

  /** A ledger on which the event changes the account's balance, if there is one. */
  function Witness(e: EventEnvelope, account: Uuid): Ledger {
    match e.data
    case TransactionProcessed(_, from, to, amount) =>
      var balance: Amount :=
        if from == to then (if amount > 0 then I64_MIN else I64_MAX)
        else if from == Some(account) then -1
        else 0;
      Ledger(map[account := balance], 0)
    case _ => EMPTY
  }

  ghost predicate MovesAccount(e: EventEnvelope, account: Uuid) {
    exists l: Ledger :: View(ReplayEvent(l, e), account) != View(l, account)
  }

  lemma ConcernedIsMoved(e: EventEnvelope, account: Uuid)
    requires MatchesAccount(e, account)
    requires e.data.AccountCreated? || e.data.BalanceUpdated? || (e.data.TransactionProcessed? && e.data.amount != 0)
    ensures MovesAccount(e, account)
  {
    var l := Witness(e, account);
    ReplayEventExact(l, e);
    assert View(ReplayEvent(l, e), account) != View(l, account);
  }

  /** The account filter accepts exactly the events that can move the account's balance, and, of
      those that move none, the account's own status and metadata changes and the transactions of
      amount 0 it is a party of. */
  lemma MatchesAccountExact(e: EventEnvelope, account: Uuid)
    ensures match e.data
      case AccountStatusChanged(id) => MatchesAccount(e, account) <==> id == account
      case AccountMetadataUpdated(id) => MatchesAccount(e, account) <==> id == account
      case TransactionProcessed(_, from, to, amount) =>
        && (MatchesAccount(e, account) <==> from == Some(account) || to == Some(account))
        && (amount != 0 ==> (MatchesAccount(e, account) <==> MovesAccount(e, account)))
      case _ => MatchesAccount(e, account) <==> MovesAccount(e, account)
  {
    if MovesAccount(e, account) {
      var l: Ledger :| View(ReplayEvent(l, e), account) != View(l, account);
      ReplayEventIsLocal(l, l, e, account);
    }
    if MatchesAccount(e, account)
      && (e.data.AccountCreated? || e.data.BalanceUpdated? || (e.data.TransactionProcessed? && e.data.amount != 0)) {
      ConcernedIsMoved(e, account);
    }
  }

  // ----- Whole logs against unbounded integers -----

  /** Every account of `m`, with `change` added to `party`'s. */
  function MathChange(m: MathBalances, party: Option<Uuid>, change: int): MathBalances {
    map a | a in m :: m[a] + if party == Some(a) then change else 0
  }

  /** The unbounded ledger after the debit of a transaction. */
  function MathBetween(m: MathBalances, data: LedgerEvent): MathBalances {
    if data.TransactionProcessed? then MathChange(m, data.fromAccount, 0 - data.amount as int) else m
  }

  function MathEvent(m: MathBalances, data: LedgerEvent): MathBalances {
    match data
    case AccountCreated(id, initial) => m[id := initial]
    case BalanceUpdated(id, _, balance) => m[id := balance]
    case TransactionProcessed(_, _, to, amount) => MathChange(MathBetween(m, data), to, amount)
    case _ => m
  }

  function MathReplay(log: seq<EventEnvelope>): MathBalances {
    if log == [] then map[] else MathEvent(MathReplay(log[..|log| - 1]), log[|log| - 1].data)
  }

  /** Event `k` keeps the unbounded ledger in range, between its halves too. */
  ghost predicate FitsAt(log: seq<EventEnvelope>, k: nat)
    requires k < |log|
  {
    InRange(MathBetween(MathReplay(log[..k]), log[k].data)) && InRange(MathReplay(log[..k + 1]))
  }

  ghost predicate AlwaysFits(log: seq<EventEnvelope>) {
    forall k :: 0 <= k < |log| ==> FitsAt(log, k)
  }

  lemma ChangeRefinesMath(l: Ledger, m: MathBalances, party: Option<Uuid>, change: int, r: Ledger)
    requires l.balances == m && Changed(l, party, change, r)
    ensures r.errors == l.errors + if InRange(MathChange(m, party, change)) then 0 else 1
    ensures InRange(MathChange(m, party, change)) ==> r.balances == MathChange(m, party, change)
  {
    var m' := MathChange(m, party, change);
    assert InRange(m);
    if party.Some? && party.value in m {
      assert InRange(m') <==> FitsI64(m'[party.value]);
    } else {
      assert m' == m;
    }
  }

  lemma ErrorsGrow(l: Ledger, e: EventEnvelope)
    requires e.data.TransactionProcessed?
    ensures l.errors <= AfterDebit(l, e).errors <= ReplayEvent(l, e).errors
  {
    UnrollHalves(l, e);
  }

  lemma {:induction false} EventRefinesMath(l: Ledger, m: MathBalances, e: EventEnvelope)
    requires l.balances == m
    ensures l.errors <= ReplayEvent(l, e).errors
    ensures ReplayEvent(l, e).errors == l.errors <==> InRange(MathBetween(m, e.data)) && InRange(MathEvent(m, e.data))
    ensures ReplayEvent(l, e).errors == l.errors ==> ReplayEvent(l, e).balances == MathEvent(m, e.data)
  {
    hide ReplayEvent, Changed, MathChange;
    ReplayEventExact(l, e);
    assert InRange(m);
    if e.data.TransactionProcessed? {
      var mid, between := AfterDebit(l, e), MathBetween(m, e.data);
      ErrorsGrow(l, e);
      ChangeRefinesMath(l, m, e.data.fromAccount, 0 - e.data.amount as int, mid);
      if InRange(between) {
        ChangeRefinesMath(mid, between, e.data.toAccount, e.data.amount, ReplayEvent(l, e));
      }
    }
  }

  lemma {:induction false} ErrorsNeverShrink(l: Ledger, e: EventEnvelope)
    ensures l.errors <= ReplayEvent(l, e).errors
  {
    EventRefinesMath(l, l.balances, e);
  }

  lemma {:induction false} AlwaysFitsLast(log: seq<EventEnvelope>)
    requires log != []
    ensures AlwaysFits(log) <==> AlwaysFits(log[..|log| - 1]) && FitsAt(log, |log| - 1)
  {
    var n := |log| - 1;
    var prefix := log[..n];
    forall k | 0 <= k < n ensures FitsAt(prefix, k) <==> FitsAt(log, k) {
      assert prefix[..k] == log[..k] && prefix[..k + 1] == log[..k + 1];
    }
  }

  /** Replay of a log is error-free exactly while the unbounded ledger stays in the 64-bit range
      after every event and between the halves of every transaction, and then it is that ledger. */
  lemma {:induction false} ReplayRefinesMath(log: seq<EventEnvelope>)
    ensures Replay(EMPTY, log).errors == 0 <==> AlwaysFits(log)
    ensures Replay(EMPTY, log).errors == 0 ==> Replay(EMPTY, log).balances == MathReplay(log)
  {
    if log != [] {
      var n := |log| - 1;
      hide ReplayEvent, MathEvent, MathBetween, InRange;
      ReplayRefinesMath(log[..n]);
      AlwaysFitsLast(log);
      assert log[..n + 1] == log;
      var l := Replay(EMPTY, log[..n]);
      ErrorsNeverShrink(l, log[n]);
      if l.errors == 0 {
        EventRefinesMath(l, MathReplay(log[..n]), log[n]);
      }
    }
  }
}
