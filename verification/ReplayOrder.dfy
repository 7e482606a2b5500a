/** Transactions within a magnitude bound replay without error in any order. */
module ReplayOrder {
  import opened LedgerTypes
  import opened Sequences
  import opened BalanceReplay

  // ----- Sums do not depend on order -----

  lemma {:induction false} SumRemove<T>(f: T -> int, s: seq<T>, i: nat)
    requires i < |s|
    ensures SumBy(f, s) == f(s[i]) + SumBy(f, s[..i] + s[i + 1..])
    ensures multiset(s[..i] + s[i + 1..]) == multiset(s) - multiset{s[i]}
  {
    var rest := s[..i] + s[i + 1..];
    assert s == s[..i] + ([s[i]] + s[i + 1..]);
    SumAppend(f, s[..i], [s[i]] + s[i + 1..]);
    SumAppend(f, s[..i], s[i + 1..]);
    assert ([s[i]] + s[i + 1..])[1..] == s[i + 1..];
    assert multiset(s) == multiset(s[..i]) + multiset{s[i]} + multiset(s[i + 1..]);
  }

  lemma {:induction false} SumPermuted<T>(f: T -> int, s: seq<T>, t: seq<T>)
    requires multiset(s) == multiset(t)
    ensures SumBy(f, s) == SumBy(f, t)
    decreases |s|
  {
    if s == [] {
      assert |t| == |multiset(t)| == |multiset(s)| == 0;
    } else {
      assert s[0] in multiset(t);
      var i :| 0 <= i < |t| && t[i] == s[0];
      SumRemove(f, t, i);
      assert s == [s[0]] + s[1..];
      assert multiset(s[1..]) == multiset(s) - multiset{s[0]};
      SumPermuted(f, s[1..], t[..i] + t[i + 1..]);
    }
  }

  // ----- The effect of transactions on one account -----

  function Abs(x: int): nat {
    if x < 0 then -x else x
  }

  predicate Moves(party: Option<Uuid>, account: Uuid) {
    party == Some(account)
  }

  /** What a transaction adds to an account over the unbounded integers. */
  function Net(account: Uuid): EventEnvelope -> int {
    (e: EventEnvelope) =>
      if !e.data.TransactionProcessed? then 0
      else (if Moves(e.data.toAccount, account) then e.data.amount else 0)
           - (if Moves(e.data.fromAccount, account) then e.data.amount else 0)
  }

  /** The magnitude of a transaction that touches an account, counted once. */
  function Gross(account: Uuid): EventEnvelope -> int {
    (e: EventEnvelope) =>
      if !e.data.TransactionProcessed? then 0
      else if Moves(e.data.toAccount, account) || Moves(e.data.fromAccount, account) then Abs(e.data.amount)
      else 0
  }

  predicate AllTransactions(log: seq<EventEnvelope>) {
    forall i :: 0 <= i < |log| ==> log[i].data.TransactionProcessed?
  }

  /** Every known account keeps room for everything that touches it. */
  ghost predicate HasRoom(l: Ledger, txs: seq<EventEnvelope>) {
    forall a :: a in l.balances ==> Abs(l.balances[a]) + SumBy(Gross(a), txs) <= I64_MAX
  }

  /** The ledger after `txs` if no half fails. */
  ghost predicate Shifted(l: Ledger, txs: seq<EventEnvelope>, r: Ledger) {
    ShiftedBy(l, (a: Uuid) => SumBy(Net(a), txs), r)
  }

  lemma {:induction false} GrossBounds(account: Uuid, txs: seq<EventEnvelope>)
    ensures Abs(SumBy(Net(account), txs)) <= SumBy(Gross(account), txs)
  {
    if txs != [] {
      GrossBounds(account, txs[1..]);
    }
  }

  lemma SumLast<T>(f: T -> int, s: seq<T>, x: T)
    ensures SumBy(f, s + [x]) == SumBy(f, s) + f(x)
  {
    SumAppend(f, s, [x]);
    assert [x][1..] == [];
  }

  /** The same accounts, each at its old balance plus `shift`, and no new error. */
  ghost predicate ShiftedBy(l: Ledger, shift: Uuid -> int, r: Ledger) {
    && r.errors == l.errors
    && r.balances.Keys == l.balances.Keys
    && forall a :: a in l.balances ==> r.balances[a] == l.balances[a] + shift(a)
  }

  function DebitShift(e: EventEnvelope): Uuid -> int {
    (a: Uuid) => if e.data.TransactionProcessed? && Moves(e.data.fromAccount, a) then 0 - e.data.amount as int else 0
  }

  function CreditShift(e: EventEnvelope): Uuid -> int {
    (a: Uuid) => if e.data.TransactionProcessed? && Moves(e.data.toAccount, a) then e.data.amount as int else 0
  }

  lemma DebitShifts(l: Ledger, e: EventEnvelope)
    requires e.data.TransactionProcessed? && e.data.fromAccount.Some?
    requires forall a :: a in l.balances ==> FitsI64(l.balances[a] + DebitShift(e)(a))
    ensures ShiftedBy(l, DebitShift(e), Take(l, Debit(e.data.fromAccount.value, e.data.amount)))
  {
  }

  lemma CreditShifts(l: Ledger, e: EventEnvelope)
    requires e.data.TransactionProcessed? && e.data.toAccount.Some?
    requires forall a :: a in l.balances ==> FitsI64(l.balances[a] + CreditShift(e)(a))
    ensures ShiftedBy(l, CreditShift(e), Take(l, Credit(e.data.toAccount.value, e.data.amount)))
  {
  }

  /** One transaction whose halves both fit shifts each account by its net amount. */
  lemma TransactionShifts(l: Ledger, e: EventEnvelope)
    requires e.data.TransactionProcessed?
    requires forall a :: a in l.balances ==> Abs(l.balances[a]) + Gross(a)(e) <= I64_MAX
    ensures ShiftedBy(l, (a: Uuid) => Net(a)(e), ReplayEvent(l, e))
  {
    UnrollHalves(l, e);
    var mid := if e.data.fromAccount.Some? then Take(l, Debit(e.data.fromAccount.value, e.data.amount)) else l;
    assert ShiftedBy(l, DebitShift(e), mid) by {
      if e.data.fromAccount.Some? {
        DebitShifts(l, e);
      }
    }
    var r := ReplayEvent(l, e);
    assert ShiftedBy(mid, CreditShift(e), r) by {
      if e.data.toAccount.Some? {
        CreditShifts(mid, e);
      }
    }
    forall a: Uuid | a in l.balances ensures r.balances[a] == l.balances[a] + Net(a)(e) {
      assert mid.balances[a] == l.balances[a] + DebitShift(e)(a);
      assert r.balances[a] == mid.balances[a] + CreditShift(e)(a);
    }
  }

  lemma {:induction false} BoundedTransactions(l: Ledger, txs: seq<EventEnvelope>)
    requires AllTransactions(txs) && HasRoom(l, txs)
    ensures Shifted(l, txs, Replay(l, txs))
  {
    if txs != [] {
      var n := |txs| - 1;
      var prefix, e := txs[..n], txs[n];
      assert txs == prefix + [e];
      forall a | a in l.balances
        ensures SumBy(Gross(a), txs) == SumBy(Gross(a), prefix) + Gross(a)(e)
        ensures SumBy(Net(a), txs) == SumBy(Net(a), prefix) + Net(a)(e)
        ensures Abs(SumBy(Net(a), prefix)) <= SumBy(Gross(a), prefix)
      {
        SumLast(Gross(a), prefix, e);
        SumLast(Net(a), prefix, e);
        GrossBounds(a, prefix);
      }
      BoundedTransactions(l, prefix);
      TransactionShifts(Replay(l, prefix), e);
    }
  }

  lemma SameSums(txs: seq<EventEnvelope>, permuted: seq<EventEnvelope>, a: Uuid)
    requires multiset(txs) == multiset(permuted)
    ensures SumBy(Gross(a), permuted) == SumBy(Gross(a), txs)
    ensures SumBy(Net(a), permuted) == SumBy(Net(a), txs)
  {
    SumPermuted(Gross(a), permuted, txs);
    SumPermuted(Net(a), permuted, txs);
  }

  lemma PermutedBounds(l: Ledger, txs: seq<EventEnvelope>, permuted: seq<EventEnvelope>)
    requires AllTransactions(txs) && HasRoom(l, txs) && multiset(txs) == multiset(permuted)
    ensures AllTransactions(permuted) && HasRoom(l, permuted)
  {
    forall i | 0 <= i < |permuted| ensures permuted[i].data.TransactionProcessed? {
      assert permuted[i] in multiset(txs);
    }
    forall a | a in l.balances ensures Abs(l.balances[a]) + SumBy(Gross(a), permuted) <= I64_MAX {
      SameSums(txs, permuted, a);
    }
  }

  /** Order independence: any permutation of the transactions replays to the same ledger, without error. */
  lemma {:induction false} OrderIndependent(l: Ledger, txs: seq<EventEnvelope>, permuted: seq<EventEnvelope>)
    requires AllTransactions(txs) && HasRoom(l, txs) && multiset(txs) == multiset(permuted)
    ensures Replay(l, permuted) == Replay(l, txs)
    ensures Shifted(l, txs, Replay(l, txs))
  {
    PermutedBounds(l, txs, permuted);
    BoundedTransactions(l, txs);
    BoundedTransactions(l, permuted);
    var r, s := Replay(l, txs), Replay(l, permuted);
    forall a | a in l.balances ensures r.balances[a] == s.balances[a] {
      SameSums(txs, permuted, a);
    }
    assert r.balances == s.balances;
  }

  // ----- From the opening of the accounts -----

  ghost predicate DistinctCreations(creations: seq<EventEnvelope>) {
    && (forall i :: 0 <= i < |creations| ==> creations[i].data.AccountCreated?)
    && (forall i, j :: 0 <= i < j < |creations| ==> creations[i].data.accountId != creations[j].data.accountId)
  }

  /** The ledger holds exactly the opened accounts at their opening balances. */
  ghost predicate Opened(creations: seq<EventEnvelope>, l: Ledger)
    requires DistinctCreations(creations)
  {
    && l.errors == 0
    && (forall i :: 0 <= i < |creations| ==> View(l, creations[i].data.accountId) == Some(creations[i].data.initialBalance))
    && (forall a :: a in l.balances ==> exists i :: 0 <= i < |creations| && creations[i].data.accountId == a)
  }

  lemma OpeningReplayed(l: Ledger, e: EventEnvelope)
    requires e.data.AccountCreated?
    ensures ReplayEvent(l, e) == l.(balances := l.balances[e.data.accountId := e.data.initialBalance])
  {
    ReplayEventExact(l, e);
  }

  lemma OpenOneMore(creations: seq<EventEnvelope>, l: Ledger, e: EventEnvelope)
    requires DistinctCreations(creations + [e]) && DistinctCreations(creations) && Opened(creations, l)
    requires e.data.AccountCreated?
    ensures Opened(creations + [e], l.(balances := l.balances[e.data.accountId := e.data.initialBalance]))
  {
    var all, n := creations + [e], |creations|;
    var r := l.(balances := l.balances[e.data.accountId := e.data.initialBalance]);
    assert all[n] == e;
    forall i | 0 <= i < n ensures View(r, all[i].data.accountId) == Some(all[i].data.initialBalance) {
      assert all[i] == creations[i] && all[i].data.accountId != all[n].data.accountId;
    }
    forall a | a in r.balances ensures exists i :: 0 <= i < |all| && all[i].data.accountId == a {
      if a in l.balances {
        var i :| 0 <= i < n && creations[i].data.accountId == a;
        assert all[i].data.accountId == a;
      }
    }
  }

  lemma {:induction false} OpenedAccounts(creations: seq<EventEnvelope>)
    requires DistinctCreations(creations)
    ensures Opened(creations, Replay(EMPTY, creations))
  {
    if creations != [] {
      var n := |creations| - 1;
      var prefix, e := creations[..n], creations[n];
      OpenedAccounts(prefix);
      OpeningReplayed(Replay(EMPTY, prefix), e);
      assert creations == prefix + [e];
      OpenOneMore(prefix, Replay(EMPTY, prefix), e);
    }
  }

  /** After opening distinct accounts, transactions within the bound end with every account at its
      opening balance plus its net amount, in whatever order they are replayed. */
  lemma {:induction false} OpenedThenAnyOrder(creations: seq<EventEnvelope>, txs: seq<EventEnvelope>, permuted: seq<EventEnvelope>)
    requires DistinctCreations(creations) && AllTransactions(txs) && multiset(txs) == multiset(permuted)
    requires forall i :: 0 <= i < |creations| ==>
      Abs(creations[i].data.initialBalance) + SumBy(Gross(creations[i].data.accountId), txs) <= I64_MAX
    ensures var r := Replay(EMPTY, creations + permuted);
      && r == Replay(EMPTY, creations + txs)
      && r.errors == 0
      && forall i :: 0 <= i < |creations| ==>
           creations[i].data.accountId in r.balances
           && r.balances[creations[i].data.accountId] ==
              creations[i].data.initialBalance + SumBy(Net(creations[i].data.accountId), txs)
  {
    var l := Replay(EMPTY, creations);
    OpenedAccounts(creations);
    ReplayConcat(EMPTY, creations, permuted);
    ReplayConcat(EMPTY, creations, txs);
    forall a | a in l.balances ensures Abs(l.balances[a]) + SumBy(Gross(a), txs) <= I64_MAX {
      var i :| 0 <= i < |creations| && creations[i].data.accountId == a;
    }
    OrderIndependent(l, txs, permuted);
  }
}
