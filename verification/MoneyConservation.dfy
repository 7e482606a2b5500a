/** The total of all balances, and what changes it. */
module MoneyConservation {
  import opened LedgerTypes
  import opened Sequences
  import opened BalanceReplay
  import opened ReplayOrder

  ghost function Total(m: map<Uuid, int>): int
    decreases |m|
  {
    if m == map[] then 0
    else
      var k :| k in m;
      RemoveShrinks(m, k);
      m[k] + Total(m - {k})
  }

  lemma RemoveShrinks(m: map<Uuid, int>, k: Uuid)
    requires k in m
    ensures |m - {k}| < |m|
  {
    assert (m - {k}).Keys == m.Keys - {k};
    assert |m - {k}| == |(m - {k}).Keys| && |m| == |m.Keys|;
  }

  /** Any account may be summed first. */
  lemma {:induction false} TotalRemove(m: map<Uuid, int>, k: Uuid)
    requires k in m
    ensures Total(m) == m[k] + Total(m - {k})
    decreases |m|
  {
    var j :| j in m && Total(m) == m[j] + Total(m - {j});
    if j != k {
      RemoveShrinks(m, j);
      RemoveShrinks(m, k);
      TotalRemove(m - {j}, k);
      TotalRemove(m - {k}, j);
      assert m - {j} - {k} == m - {k} - {j};
    }
  }

  lemma TotalUpdate(m: map<Uuid, int>, k: Uuid, v: int)
    ensures Total(m[k := v]) == Total(m) + v - if k in m then m[k] else 0
  {
    TotalRemove(m[k := v], k);
    assert m[k := v] - {k} == m - {k};
    if k in m {
      TotalRemove(m, k);
    } else {
      assert m - {k} == m;
    }
  }

  /** A half-step took effect: its account is known and the arithmetic fits. */
  predicate Applied(l: Ledger, h: HalfStep) {
    h.account in l.balances &&
    match h
    case Overwrite(_, _) => true
    case Debit(account, amount) => FitsI64(l.balances[account] - amount)
    case Credit(account, amount) => FitsI64(l.balances[account] + amount)
  }

  /** What one debit or credit adds to the total. */
  function Moved(l: Ledger, h: HalfStep): int
    requires !h.Overwrite?
  {
    var amount: int := h.amount;
    if !Applied(l, h) then 0 else if h.Debit? then -amount else amount
  }

  lemma HalfStepMoves(l: Ledger, h: HalfStep)
    requires !h.Overwrite?
    ensures Total(Take(l, h).balances) == Total(l.balances) + Moved(l, h)
  {
    if h.account in l.balances {
      var b := l.balances[h.account];
      TotalUpdate(l.balances, h.account, if h.Debit? then b - h.amount else b + h.amount);
    }
  }

  function DebitMoved(l: Ledger, e: EventEnvelope): int
    requires e.data.TransactionProcessed?
  {
    if e.data.fromAccount.Some? then Moved(l, Debit(e.data.fromAccount.value, e.data.amount)) else 0
  }

  function CreditMoved(l: Ledger, e: EventEnvelope): int
    requires e.data.TransactionProcessed?
  {
    if e.data.toAccount.Some? then Moved(AfterDebit(l, e), Credit(e.data.toAccount.value, e.data.amount)) else 0
  }

  /** In general a transaction changes the total by exactly the halves that took effect. */
  lemma TransactionMovesTotal(l: Ledger, e: EventEnvelope)
    requires e.data.TransactionProcessed?
    ensures Total(ReplayEvent(l, e).balances) == Total(l.balances) + DebitMoved(l, e) + CreditMoved(l, e)
  {
    UnrollHalves(l, e);
    if e.data.fromAccount.Some? {
      HalfStepMoves(l, Debit(e.data.fromAccount.value, e.data.amount));
    }
    if e.data.toAccount.Some? {
      HalfStepMoves(AfterDebit(l, e), Credit(e.data.toAccount.value, e.data.amount));
    }
  }

  predicate IsTransfer(l: Ledger, e: EventEnvelope) {
    && e.data.TransactionProcessed?
    && e.data.fromAccount.Some? && e.data.fromAccount.value in l.balances
    && e.data.toAccount.Some? && e.data.toAccount.value in l.balances
  }

  /** A transfer between known accounts keeps the total exactly when, from the balances before
      it, the debit and the credit both fit, neither fits, or nothing moves; from an account to
      itself, exactly when the debit fits. */
  lemma TransferKeepsTotalIff(l: Ledger, e: EventEnvelope)
    requires IsTransfer(l, e)
    ensures var from, to, amount := e.data.fromAccount.value, e.data.toAccount.value, e.data.amount;
      var debitFits, creditFits := FitsI64(l.balances[from] - amount), FitsI64(l.balances[to] + amount);
      Total(ReplayEvent(l, e).balances) == Total(l.balances) <==>
        if from == to then debitFits
        else amount == 0 || (debitFits <==> creditFits)
  {
    TransactionMovesTotal(l, e);
  }

  /** A debit that does not fit beside a credit that does creates money. */
  lemma TransferCreatesMoney(a: Uuid, b: Uuid, e: EventEnvelope)
    requires a != b && e.data.TransactionProcessed?
    requires e.data.fromAccount == Some(a) && e.data.toAccount == Some(b) && e.data.amount == 1
    ensures var l := Ledger(map[a := I64_MIN, b := 0], 0);
      Total(ReplayEvent(l, e).balances) == Total(l.balances) + 1
  {
    TransactionMovesTotal(Ledger(map[a := I64_MIN, b := 0], 0), e);
  }

  // ----- Whole logs -----

  /** The event opens an account new to the ledger, or transfers between known accounts. */
  predicate OpensOrTransfers(l: Ledger, e: EventEnvelope) {
    (e.data.AccountCreated? && e.data.accountId !in l.balances) || IsTransfer(l, e)
  }

  /** Every event opens a fresh account or transfers between accounts known by then. */
  ghost predicate TransferLog(log: seq<EventEnvelope>) {
    log == [] ||
    (var n := |log| - 1; TransferLog(log[..n]) && OpensOrTransfers(Replay(EMPTY, log[..n]), log[n]))
  }

  function Opening(): EventEnvelope -> int {
    (e: EventEnvelope) => if e.data.AccountCreated? then e.data.initialBalance else 0
  }

  lemma CleanTransferKeepsTotal(l: Ledger, e: EventEnvelope)
    requires IsTransfer(l, e) && ReplayEvent(l, e).errors == l.errors
    ensures Total(ReplayEvent(l, e).balances) == Total(l.balances)
  {
    ErrorsGrow(l, e);
    UnrollHalves(l, e);
    TransferKeepsTotalIff(l, e);
  }

  lemma OpeningAdds(l: Ledger, e: EventEnvelope)
    requires e.data.AccountCreated? && e.data.accountId !in l.balances
    ensures ReplayEvent(l, e).errors == l.errors
    ensures Total(ReplayEvent(l, e).balances) == Total(l.balances) + e.data.initialBalance
  {
    OpeningReplayed(l, e);
    TotalUpdate(l.balances, e.data.accountId, e.data.initialBalance);
  }

  lemma CleanEventMovesTotal(l: Ledger, e: EventEnvelope)
    requires OpensOrTransfers(l, e) && ReplayEvent(l, e).errors == 0
    ensures l.errors == 0
    ensures Total(ReplayEvent(l, e).balances) == Total(l.balances) + Opening()(e)
  {
    if e.data.AccountCreated? {
      OpeningAdds(l, e);
    } else {
      ErrorsGrow(l, e);
      CleanTransferKeepsTotal(l, e);
    }
  }

  /** The last event of a clean log adds its opening balance, if it has one. */
  lemma {:induction false} LastEventMovesTotal(log: seq<EventEnvelope>)
    requires log != [] && TransferLog(log) && Replay(EMPTY, log).errors == 0
    ensures var n := |log| - 1;
      && Replay(EMPTY, log[..n]).errors == 0
      && Total(Replay(EMPTY, log).balances) == Total(Replay(EMPTY, log[..n]).balances) + Opening()(log[n])
  {
    CleanEventMovesTotal(Replay(EMPTY, log[..|log| - 1]), log[|log| - 1]);
  }

  lemma {:induction false} SumSplitLast(log: seq<EventEnvelope>)
    requires log != []
    ensures SumBy(Opening(), log) == SumBy(Opening(), log[..|log| - 1]) + Opening()(log[|log| - 1])
  {
    assert log == log[..|log| - 1] + [log[|log| - 1]];
    SumLast(Opening(), log[..|log| - 1], log[|log| - 1]);
  }

  /** Conservation of money: an error-free log of account openings and transfers, self-transfers
      included, ends with the sum of the opening balances. */
  lemma {:induction false} MoneyIsConserved(log: seq<EventEnvelope>)
    requires TransferLog(log) && Replay(EMPTY, log).errors == 0
    ensures Total(Replay(EMPTY, log).balances) == SumBy(Opening(), log)
  {
    if log != [] {
      LastEventMovesTotal(log);
      SumSplitLast(log);
      MoneyIsConserved(log[..|log| - 1]);
    }
  }
}
