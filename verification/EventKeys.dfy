/** Storage keys: eight big-endian timestamp bytes followed by the sixteen id bytes,
    compared byte by byte as the database compares them. */
module EventKeys {
  import opened LedgerTypes

  type Key = seq<Byte>

  // ----- Lexicographic order on byte strings -----

  predicate LexLe(a: Key, b: Key) {
    a == [] || (b != [] && (a[0] < b[0] || (a[0] == b[0] && LexLe(a[1..], b[1..]))))
  }

  lemma {:induction false} LexReflexive(a: Key)
    ensures LexLe(a, a)
  {
    if a != [] {
      LexReflexive(a[1..]);
    }
  }

  lemma {:induction false} LexTotal(a: Key, b: Key)
    ensures LexLe(a, b) || LexLe(b, a)
  {
    if a != [] && b != [] && a[0] == b[0] {
      LexTotal(a[1..], b[1..]);
    }
  }

  lemma {:induction false} LexTransitive(a: Key, b: Key, c: Key)
    requires LexLe(a, b) && LexLe(b, c)
    ensures LexLe(a, c)
  {
    if a != [] && a[0] == b[0] == c[0] {
      LexTransitive(a[1..], b[1..], c[1..]);
    }
  }

  lemma {:induction false} LexAntisymmetric(a: Key, b: Key)
    requires LexLe(a, b) && LexLe(b, a)
    ensures a == b
  {
    if a != [] && b != [] {
      LexAntisymmetric(a[1..], b[1..]);
      assert a == [a[0]] + a[1..] && b == [b[0]] + b[1..];
    }
  }

  // ----- Big-endian words -----

  function Pow256(w: nat): (p: nat)
    ensures p > 0
  {
    if w == 0 then 1 else 256 * Pow256(w - 1)
  }

  function BigEndian(w: nat, n: nat): (s: seq<Byte>)
    requires n < Pow256(w)
    ensures |s| == w
  {
    if w == 0 then [] else BigEndian(w - 1, n / 256) + [n % 256]
  }

  /** Comparing big-endian words followed by tails compares the numbers first. */
  lemma {:induction false} BigEndianOrder(w: nat, m: nat, n: nat, x: Key, y: Key)
    requires m < Pow256(w) && n < Pow256(w)
    ensures LexLe(BigEndian(w, m) + x, BigEndian(w, n) + y) <==> m < n || (m == n && LexLe(x, y))
  {
    if w == 0 {
      assert BigEndian(w, m) + x == x && BigEndian(w, n) + y == y;
    } else {
      var u, v := [m % 256] + x, [n % 256] + y;
      BigEndianOrder(w - 1, m / 256, n / 256, u, v);
      assert BigEndian(w, m) + x == BigEndian(w - 1, m / 256) + u;
      assert BigEndian(w, n) + y == BigEndian(w - 1, n / 256) + v;
      assert u[1..] == x && v[1..] == y;
    }
  }

  lemma EightBytes()
    ensures Pow256(8) == U64_LIMIT
  {
    assert Pow256(2) == 0x1_0000;
    assert Pow256(4) == 0x1_0000_0000;
    assert Pow256(6) == 0x1_0000_0000_0000;
  }

  // ----- Keys -----

  /** The nanosecond count an i64 can hold; anything else has no representation. */
  predicate Representable(timestamp: int) {
    FitsI64(timestamp)
  }

  /** The u64 stored in a key: the i64 nanoseconds reinterpreted, or 0 when they do not fit. */
  function KeyStamp(timestamp: int): (u: nat)
    ensures u < U64_LIMIT
  {
    if !Representable(timestamp) then 0
    else if timestamp < 0 then timestamp + U64_LIMIT
    else timestamp
  }

  function TimeKeyPrefix(timestamp: int): Key {
    EightBytes();
    BigEndian(8, KeyStamp(timestamp))
  }

  function EventKey(e: EventEnvelope): Key {
    TimeKeyPrefix(e.timestamp) + e.eventId
  }

  /** The key vector is filled by two extensions, as the serializer does. */
  method GenerateEventKey(e: EventEnvelope) returns (key: Key)
    ensures key == EventKey(e) && |key| == 24
  {
    key := [];
    key := key + TimeKeyPrefix(e.timestamp);
    key := key + e.eventId;
  }

  /** Byte order of keys is the order of (u64 timestamp, id). */
  lemma KeyOrderEmbedding(d: EventEnvelope, e: EventEnvelope)
    ensures LexLe(EventKey(d), EventKey(e)) <==>
            KeyStamp(d.timestamp) < KeyStamp(e.timestamp)
            || (KeyStamp(d.timestamp) == KeyStamp(e.timestamp) && LexLe(d.eventId, e.eventId))
  {
    EightBytes();
    BigEndianOrder(8, KeyStamp(d.timestamp), KeyStamp(e.timestamp), d.eventId, e.eventId);
  }

  /** A key is at or after a time prefix exactly when its u64 timestamp is. */
  lemma PrefixSeek(start: int, e: EventEnvelope)
    ensures LexLe(TimeKeyPrefix(start), EventKey(e)) <==> KeyStamp(start) <= KeyStamp(e.timestamp)
  {
    EightBytes();
    BigEndianOrder(8, KeyStamp(start), KeyStamp(e.timestamp), [], e.eventId);
    assert TimeKeyPrefix(start) + [] == TimeKeyPrefix(start);
  }

  /** Two envelopes collide exactly when their u64 timestamps and ids agree. */
  lemma KeyCollision(d: EventEnvelope, e: EventEnvelope)
    ensures EventKey(d) == EventKey(e) <==>
            KeyStamp(d.timestamp) == KeyStamp(e.timestamp) && d.eventId == e.eventId
  {
    KeyOrderEmbedding(d, e);
    KeyOrderEmbedding(e, d);
    LexReflexive(EventKey(d));
    LexReflexive(d.eventId);
    if EventKey(d) == EventKey(e) {
      LexAntisymmetric(d.eventId, e.eventId);
    }
  }

  /** The stamp loses a timestamp only through the 0 that stands for every unrepresentable one. */
  lemma StampInjective(s: int, t: int)
    ensures KeyStamp(s) == KeyStamp(t) <==>
            s == t
            || (!Representable(s) && !Representable(t))
            || (!Representable(s) && t == 0)
            || (s == 0 && !Representable(t))
  {
  }

  /** Every 64-bit word is the stamp of a representable timestamp: the lower half of the words
      counts from the epoch on, the upper half up to the nanosecond before it. */
  lemma StampOnto(u: nat) returns (timestamp: int)
    requires u < Pow256(8)
    ensures Representable(timestamp) && KeyStamp(timestamp) == u
    ensures timestamp == if u < 0x8000_0000_0000_0000 then u else u - Pow256(8)
  {
    EightBytes();
    timestamp := if u < 0x8000_0000_0000_0000 then u else u - Pow256(8);
  }

  /** Keys identify (timestamp, id) on representable timestamps. */
  lemma KeyInjective(d: EventEnvelope, e: EventEnvelope)
    requires Representable(d.timestamp) && Representable(e.timestamp)
    ensures EventKey(d) == EventKey(e) <==> d.timestamp == e.timestamp && d.eventId == e.eventId
  {
    KeyCollision(d, e);
    StampInjective(d.timestamp, e.timestamp);
  }

  /** Key order is time order for two representable timestamps exactly when both lie on the same
      side of the epoch; an unrepresentable one sorts as 0, so it is in place before every
      representable time when it is too early, and before none when it is too late. */
  lemma StampOrderIsTimeOrder(s: int, t: int)
    ensures ((KeyStamp(s) <= KeyStamp(t)) <==> s <= t) <==>
            if Representable(s) && Representable(t) then (s < 0) == (t < 0)
            else if Representable(t) then s < I64_MIN
            else if Representable(s) then (s == 0) == (t > I64_MAX)
            else s <= t
  {
  }

  /** The timestamps that share the stamp 0. */
  predicate SortsAsZero(timestamp: int) {
    timestamp == 0 || !Representable(timestamp)
  }

  /** What must hold of an earlier and a later event for their keys to be in that order. */
  predicate InKeyOrder(early: EventEnvelope, late: EventEnvelope) {
    if SortsAsZero(late.timestamp) then SortsAsZero(early.timestamp) && LexLe(early.eventId, late.eventId)
    else SortsAsZero(early.timestamp) || (early.timestamp < 0) == (late.timestamp < 0)
  }

  lemma KeyOrderOfTimes(early: EventEnvelope, late: EventEnvelope)
    requires early.timestamp < late.timestamp
    ensures InKeyOrder(early, late) <==> LexLe(EventKey(early), EventKey(late))
  {
    KeyOrderEmbedding(early, late);
  }
}
