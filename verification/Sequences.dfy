/** Small facts about sequences that several modules share. */
module Sequences {

  function Filter<T>(p: T -> bool, s: seq<T>): seq<T> {
    if s == [] then []
    else if p(s[0]) then [s[0]] + Filter(p, s[1..])
    else Filter(p, s[1..])
  }

  lemma {:induction false} FilterMember<T>(p: T -> bool, s: seq<T>, x: T)
    ensures x in Filter(p, s) <==> x in s && p(x)
  {
    if s != [] {
      FilterMember(p, s[1..], x);
      assert s == [s[0]] + s[1..];
    }
  }

  lemma {:induction false} FilterAppend<T>(p: T -> bool, s: seq<T>, t: seq<T>)
    ensures Filter(p, s + t) == Filter(p, s) + Filter(p, t)
  {
    if s == [] {
      assert s + t == t;
    } else {
      FilterAppend(p, s[1..], t);
      assert (s + t)[1..] == s[1..] + t;
    }
  }

  lemma {:induction false} FilterAll<T>(p: T -> bool, s: seq<T>)
    requires forall x :: x in s ==> p(x)
    ensures Filter(p, s) == s
  {
    if s != [] {
      assert s[0] in s;
      assert forall x :: x in s[1..] ==> x in s;
      FilterAll(p, s[1..]);
      assert s == [s[0]] + s[1..];
    }
  }

  lemma {:induction false} FilterNone<T>(p: T -> bool, s: seq<T>)
    requires forall x :: x in s ==> !p(x)
    ensures Filter(p, s) == []
  {
    if s != [] {
      assert s[0] in s;
      assert forall x :: x in s[1..] ==> x in s;
      FilterNone(p, s[1..]);
    }
  }

  function Min(a: int, b: int): int {
    if a <= b then a else b
  }

  function Max(a: int, b: int): int {
    if a <= b then b else a
  }

  /** Skip `offset` elements, then keep at most `limit`. */
  function Page<T>(s: seq<T>, offset: nat, limit: nat): seq<T> {
    if offset >= |s| then [] else s[offset..Min(offset + limit, |s|)]
  }

  function Reversed<T>(s: seq<T>): (r: seq<T>)
    ensures |r| == |s|
  {
    if s == [] then [] else Reversed(s[1..]) + [s[0]]
  }

  lemma {:induction false} ReversedAt<T>(s: seq<T>, k: nat)
    requires k < |s|
    ensures Reversed(s)[k] == s[|s| - 1 - k]
  {
    if k < |s| - 1 {
      ReversedAt(s[1..], k);
    }
  }

  /** Reversing a prefix of the reversal gives the suffix. */
  lemma {:induction false} ReversedPrefix<T>(s: seq<T>, n: nat)
    requires n <= |s|
    ensures Reversed(Reversed(s)[..n]) == s[|s| - n..]
  {
    var back := Reversed(s);
    var head := back[..n];
    var r := Reversed(head);
    assert |r| == n;
    forall j | 0 <= j < n ensures r[j] == s[|s| - n..][j] {
      ReversedAt(head, j);
      assert head[n - 1 - j] == back[n - 1 - j];
      ReversedAt(s, n - 1 - j);
    }
  }

  // ----- Sums over a sequence -----

  function SumBy<T>(f: T -> int, s: seq<T>): int {
    if s == [] then 0 else f(s[0]) + SumBy(f, s[1..])
  }

  lemma {:induction false} SumUpdate<T>(f: T -> int, s: seq<T>, i: nat, x: T)
    requires i < |s|
    ensures SumBy(f, s[i := x]) == SumBy(f, s) - f(s[i]) + f(x)
  {
    if i == 0 {
      assert s[0 := x][1..] == s[1..];
    } else {
      SumUpdate(f, s[1..], i - 1, x);
      assert s[i := x][1..] == s[1..][i - 1 := x];
    }
  }

  lemma {:induction false} SumZero<T>(f: T -> int, s: seq<T>)
    requires forall i :: 0 <= i < |s| ==> f(s[i]) == 0
    ensures SumBy(f, s) == 0
  {
    if s != [] {
      SumZero(f, s[1..]);
    }
  }

  lemma {:induction false} SumAppend<T>(f: T -> int, s: seq<T>, t: seq<T>)
    ensures SumBy(f, s + t) == SumBy(f, s) + SumBy(f, t)
  {
    if s == [] {
      assert s + t == t;
    } else {
      SumAppend(f, s[1..], t);
      assert (s + t)[1..] == s[1..] + t;
    }
  }

  /** The multiset union of a property of every element. */
  function GatherBy<T, U>(f: T -> multiset<U>, s: seq<T>): multiset<U> {
    if s == [] then multiset{} else f(s[0]) + GatherBy(f, s[1..])
  }

  lemma {:induction false} GatherUpdate<T, U>(f: T -> multiset<U>, s: seq<T>, i: nat, x: T)
    requires i < |s|
    ensures GatherBy(f, s[i := x]) + f(s[i]) == GatherBy(f, s) + f(x)
  {
    if i == 0 {
      assert s[0 := x][1..] == s[1..];
    } else {
      GatherUpdate(f, s[1..], i - 1, x);
      assert s[i := x][1..] == s[1..][i - 1 := x];
      var a, g, h := f(s[0]), GatherBy(f, s[1..][i - 1 := x]), GatherBy(f, s[1..]);
      assert (a + g) + f(s[i]) == a + (g + f(s[i])) == a + (h + f(x)) == (a + h) + f(x);
    }
  }

  lemma GatherKeep<T, U>(f: T -> multiset<U>, s: seq<T>, i: nat, x: T)
    requires i < |s| && f(x) == f(s[i])
    ensures GatherBy(f, s[i := x]) == GatherBy(f, s)
  {
    GatherUpdate(f, s, i, x);
    var a, b := GatherBy(f, s[i := x]), GatherBy(f, s);
    assert a == (a + f(x)) - f(x) == (b + f(x)) - f(x) == b;
  }

  lemma {:induction false} GatherEmpty<T, U>(f: T -> multiset<U>, s: seq<T>)
    requires forall i :: 0 <= i < |s| ==> f(s[i]) == multiset{}
    ensures GatherBy(f, s) == multiset{}
  {
    if s != [] {
      GatherEmpty(f, s[1..]);
    }
  }

  /** One element's share is part of the union. */
  lemma {:induction false} GatherContains<T, U>(f: T -> multiset<U>, s: seq<T>, i: nat)
    requires i < |s|
    ensures f(s[i]) <= GatherBy(f, s)
  {
    if i > 0 {
      GatherContains(f, s[1..], i - 1);
    }
  }

  // ----- Division -----

  lemma {:induction false} MulMonotone(a: nat, b: nat, d: nat)
    requires a < b
    ensures a * d + d <= b * d
  {
    assert b * d == (b - 1) * d + d;
    if a < b - 1 {
      MulMonotone(a, b - 1, d);
    }
  }

  lemma {:induction false} DivisionUnique(n: nat, d: nat, q: nat, r: nat)
    requires r < d && n == q * d + r
    ensures n / d == q && n % d == r
  {
    var p := n / d;
    assert n == p * d + n % d;
    if p < q {
      MulMonotone(p, q, d);
    } else if q < p {
      MulMonotone(q, p, d);
    }
  }

  /** Counting one further: the remainder grows until it is full, then the quotient does. */
  lemma NextQuotient(n: nat, d: nat)
    requires d > 0
    ensures if n % d + 1 == d then (n + 1) / d == n / d + 1 && (n + 1) % d == 0
            else (n + 1) / d == n / d && (n + 1) % d == n % d + 1
  {
    var q, r := n / d, n % d;
    assert n == q * d + r;
    if r + 1 == d {
      assert n + 1 == (q + 1) * d + 0;
      DivisionUnique(n + 1, d, q + 1, 0);
    } else {
      DivisionUnique(n + 1, d, q, r + 1);
    }
  }

  // ----- Left folds -----

  function Fold<A, T>(f: (A, T) -> A, a: A, s: seq<T>): A {
    if s == [] then a else f(Fold(f, a, s[..|s| - 1]), s[|s| - 1])
  }

  lemma {:induction false} FoldConcat<A, T>(f: (A, T) -> A, a: A, s: seq<T>, t: seq<T>)
    ensures Fold(f, a, s + t) == Fold(f, Fold(f, a, s), t)
  {
    if t == [] {
      assert s + t == s;
    } else {
      var n := |t| - 1;
      FoldConcat(f, a, s, t[..n]);
      assert (s + t)[..|s + t| - 1] == s + t[..n];
    }
  }
}
