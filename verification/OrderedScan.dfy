/** The database as an ordered map: iteration visits keys in byte order. */
module OrderedScan {
  import opened LedgerTypes
  import opened EventKeys
  import opened Sequences

  type Db = map<Key, EventEnvelope>

  /** Every value sits under the key generated from it. */
  ghost predicate WellKeyed(db: Db) {
    forall k :: k in db ==> EventKey(db[k]) == k
  }

  predicate IsLeast(m: Key, s: set<Key>) {
    m in s && forall k :: k in s ==> LexLe(m, k)
  }

  lemma {:induction false} LeastExists(s: set<Key>)
    requires s != {}
    ensures exists m :: IsLeast(m, s)
  {
    var k :| k in s;
    var t := s - {k};
    LexReflexive(k);
    if t == {} {
      assert s == {k};
      assert IsLeast(k, s);
    } else {
      LeastExists(t);
      var m :| IsLeast(m, t);
      LexTotal(k, m);
      if LexLe(k, m) {
        forall x | x in s ensures LexLe(k, x) {
          if x != k {
            LexTransitive(k, m, x);
          }
        }
        assert IsLeast(k, s);
      } else {
        assert IsLeast(m, s);
      }
    }
  }

  lemma LeastUnique(a: Key, b: Key, s: set<Key>)
    requires IsLeast(a, s) && IsLeast(b, s)
    ensures a == b
  {
    LexAntisymmetric(a, b);
  }

  function MinKey(s: set<Key>): (m: Key)
    requires s != {}
    ensures IsLeast(m, s)
  {
    LeastExists(s);
    assert forall a, b :: IsLeast(a, s) && IsLeast(b, s) ==> a == b by {
      forall a, b | IsLeast(a, s) && IsLeast(b, s) ensures a == b {
        LeastUnique(a, b, s);
      }
    }
    var m :| m in s && IsLeast(m, s);
    m
  }

  /** The values under `keys`, in key order. */
  function Ordered(db: Db, keys: set<Key>): (es: seq<EventEnvelope>)
    requires keys <= db.Keys
    ensures |es| == |keys|
  {
    if keys == {} then []
    else
      var m := MinKey(keys);
      [db[m]] + Ordered(db, keys - {m})
  }

  /** An iterator from the start of the database. */
  function Scan(db: Db): seq<EventEnvelope> {
    Ordered(db, db.Keys)
  }

  /** An iterator positioned at the first key at or after `start`. */
  function ScanFrom(db: Db, start: Key): seq<EventEnvelope> {
    Ordered(db, set k | k in db.Keys && LexLe(start, k))
  }

  /** Strictly increasing keys. */
  ghost predicate KeyAscending(es: seq<EventEnvelope>) {
    forall i, j :: 0 <= i < j < |es| ==>
      LexLe(EventKey(es[i]), EventKey(es[j])) && EventKey(es[i]) != EventKey(es[j])
  }

  lemma {:induction false} OrderedMember(db: Db, keys: set<Key>, e: EventEnvelope)
    requires keys <= db.Keys
    ensures e in Ordered(db, keys) <==> exists k :: k in keys && db[k] == e
  {
    if keys != {} {
      var m := MinKey(keys);
      OrderedMember(db, keys - {m}, e);
      if e in Ordered(db, keys) && e != db[m] {
        var k :| k in keys - {m} && db[k] == e;
        assert k in keys;
      }
    }
  }

  lemma {:induction false} OrderedAscending(db: Db, keys: set<Key>)
    requires WellKeyed(db) && keys <= db.Keys
    ensures KeyAscending(Ordered(db, keys))
  {
    if keys != {} {
      var m := MinKey(keys);
      var rest := Ordered(db, keys - {m});
      OrderedAscending(db, keys - {m});
      forall j | 0 <= j < |rest|
        ensures LexLe(m, EventKey(rest[j])) && m != EventKey(rest[j])
      {
        OrderedMember(db, keys - {m}, rest[j]);
      }
      var es := Ordered(db, keys);
      assert es == [db[m]] + rest;
      assert forall j :: 0 < j < |es| ==> es[j] == rest[j - 1];
    }
  }

  /** Selecting by value commutes with iterating. */
  lemma {:induction false} OrderedFilter(db: Db, keys: set<Key>, p: EventEnvelope -> bool)
    requires keys <= db.Keys
    ensures Filter(p, Ordered(db, keys)) == Ordered(db, set k | k in keys && p(db[k]))
  {
    var kept := set k | k in keys && p(db[k]);
    if keys == {} {
      assert kept == {};
    } else {
      var m := MinKey(keys);
      var rest := keys - {m};
      OrderedFilter(db, rest, p);
      assert Ordered(db, keys)[1..] == Ordered(db, rest);
      var keptRest := set k | k in rest && p(db[k]);
      if p(db[m]) {
        assert IsLeast(m, kept);
        LeastUnique(m, MinKey(kept), kept);
        assert keptRest == kept - {m};
      } else {
        assert keptRest == kept;
      }
    }
  }

  lemma ScanMember(db: Db, e: EventEnvelope)
    ensures e in Scan(db) <==> e in db.Values
  {
    OrderedMember(db, db.Keys, e);
  }

  /** Iterating from a seek key is the full scan filtered by any test that decides
      "at or after the seek key" on the stored values. */
  lemma ScanFromIsFilter(db: Db, start: Key, p: EventEnvelope -> bool)
    requires forall k :: k in db ==> (p(db[k]) <==> LexLe(start, k))
    ensures ScanFrom(db, start) == Filter(p, Scan(db))
  {
    OrderedFilter(db, db.Keys, p);
    assert (set k | k in db.Keys && LexLe(start, k)) == (set k | k in db.Keys && p(db[k]));
  }
}
