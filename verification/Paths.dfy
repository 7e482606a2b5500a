/** Path text: identifiers printed in the hyphenated form of section 4 of RFC 9562, the path
    generators, and the parsers that read identifiers back. */
module Paths {
  import opened LedgerTypes

  datatype PathError = InvalidPath(path: string)

  // ----- Hexadecimal -----

  type Nibble = n: int | 0 <= n < 16

  function HexDigit(n: Nibble): char {
    if n < 10 then ('0' as int + n) as char else ('a' as int + n - 10) as char
  }

  function HexValue(c: char): Option<Nibble> {
    if '0' <= c <= '9' then Some(c as int - '0' as int)
    else if 'a' <= c <= 'f' then Some(c as int - 'a' as int + 10)
    else if 'A' <= c <= 'F' then Some(c as int - 'A' as int + 10)
    else None
  }

  function HexByte(b: Byte): (s: string)
    ensures |s| == 2
  {
    [HexDigit(b / 16), HexDigit(b % 16)]
  }

  function Hex(bytes: seq<Byte>): (s: string)
    ensures |s| == 2 * |bytes|
  {
    if bytes == [] then "" else HexByte(bytes[0]) + Hex(bytes[1..])
  }

  function ParseHex(s: string): (r: Option<seq<Byte>>)
    ensures r.Some? ==> |s| == 2 * |r.value|
  {
    if s == "" then Some([])
    else if |s| == 1 then None
    else
      match (HexValue(s[0]), HexValue(s[1]), ParseHex(s[2..]))
      case (Some(high), Some(low), Some(rest)) => Some([16 * (high as int) + low as int] + rest)
      case _ => None
  }

  lemma DigitRoundTrip(n: Nibble)
    ensures HexValue(HexDigit(n)) == Some(n)
  {
  }

  lemma {:induction false} HexRoundTrip(bytes: seq<Byte>)
    ensures ParseHex(Hex(bytes)) == Some(bytes)
  {
    if bytes != [] {
      HexRoundTrip(bytes[1..]);
      DigitRoundTrip(bytes[0] / 16);
      DigitRoundTrip(bytes[0] % 16);
      var s, b := Hex(bytes), bytes[0];
      assert s[2..] == Hex(bytes[1..]) && s[0] == HexDigit(b / 16) && s[1] == HexDigit(b % 16);
      assert 16 * (b / 16) + b % 16 == b && bytes == [b] + bytes[1..];
    }
  }

  predicate SlashFree(s: string) {
    forall i :: 0 <= i < |s| ==> s[i] != '/'
  }

  lemma {:induction false} HexSlashFree(bytes: seq<Byte>)
    ensures SlashFree(Hex(bytes))
  {
    if bytes != [] {
      HexSlashFree(bytes[1..]);
    }
  }

  // ----- Identifiers -----

  function Hyphenated(u: Uuid): (s: string)
    ensures |s| == 36
  {
    Hex(u[..4]) + "-" + Hex(u[4..6]) + "-" + Hex(u[6..8]) + "-" + Hex(u[8..10]) + "-" + Hex(u[10..])
  }

  /** The digits of a hyphenated identifier, without the hyphens. */
  function Digits(s: string): (d: string)
    requires |s| == 36
    ensures |d| == 32
  {
    s[..8] + s[9..13] + s[14..18] + s[19..23] + s[24..]
  }

  function ParseHyphenated(s: string): (r: Option<Uuid>)
    requires |s| == 36
  {
    if s[8] == '-' && s[13] == '-' && s[18] == '-' && s[23] == '-' then ParseHex(Digits(s)) else None
  }

  /** Hyphenated, plain, braced and URN spellings are read; the digits in either case. */
  function ParseUuid(s: string): Option<Uuid> {
    if |s| == 36 then ParseHyphenated(s)
    else if |s| == 32 then ParseHex(s)
    else if |s| == 38 && s[0] == '{' && s[37] == '}' then ParseHyphenated(s[1..37])
    else if |s| == 45 && s[..9] == "urn:uuid:" then ParseHyphenated(s[9..])
    else None
  }

  lemma Associative(a: string, b: string, c: string)
    ensures (a + b) + c == a + (b + c)
  {
  }

  lemma {:induction false} HexConcat(a: seq<Byte>, b: seq<Byte>)
    ensures Hex(a + b) == Hex(a) + Hex(b)
  {
    if a == [] {
      assert a + b == b;
    } else {
      HexConcat(a[1..], b);
      assert (a + b)[1..] == a[1..] + b;
      Associative(HexByte(a[0]), Hex(a[1..]), Hex(b));
    }
  }

  lemma DigitsOfHyphenated(u: Uuid)
    ensures Digits(Hyphenated(u)) == Hex(u)
  {
    HexConcat(u[..4], u[4..6]);
    HexConcat(u[..4] + u[4..6], u[6..8]);
    HexConcat(u[..4] + u[4..6] + u[6..8], u[8..10]);
    HexConcat(u[..4] + u[4..6] + u[6..8] + u[8..10], u[10..]);
    assert u == u[..4] + u[4..6] + u[6..8] + u[8..10] + u[10..];
    var s := Hyphenated(u);
    assert s[..8] == Hex(u[..4]) && s[9..13] == Hex(u[4..6]) && s[14..18] == Hex(u[6..8]);
    assert s[19..23] == Hex(u[8..10]) && s[24..] == Hex(u[10..]);
  }

  lemma UuidRoundTrip(u: Uuid)
    ensures ParseUuid(Hyphenated(u)) == Some(u)
  {
    DigitsOfHyphenated(u);
    HexRoundTrip(u);
  }

  lemma HyphenatedSlashFree(u: Uuid)
    ensures SlashFree(Hyphenated(u))
  {
    HexSlashFree(u[..4]);
    HexSlashFree(u[4..6]);
    HexSlashFree(u[6..8]);
    HexSlashFree(u[8..10]);
    HexSlashFree(u[10..]);
  }

  function LowerChar(c: char): char {
    if 'A' <= c <= 'F' then (c as int + 32) as char else c
  }

  /** The lower-case spelling of the letters that are digits. */
  function Lower(s: string): (t: string)
    ensures |t| == |s| && forall i :: 0 <= i < |s| ==> t[i] == LowerChar(s[i])
  {
    seq(|s|, i requires 0 <= i < |s| => LowerChar(s[i]))
  }

  lemma DigitExact(c: char, n: Nibble)
    ensures HexValue(c) == Some(n) <==> LowerChar(c) == HexDigit(n)
  {
  }

  lemma ParsePair(s: string, b: Byte, rest: seq<Byte>)
    requires |s| >= 2
    ensures ParseHex(s) == Some([b] + rest) <==>
            HexValue(s[0]) == Some(b / 16) && HexValue(s[1]) == Some(b % 16) && ParseHex(s[2..]) == Some(rest)
  {
    if ParseHex(s).Some? {
      assert ParseHex(s).value[1..] == ParseHex(s[2..]).value;
      assert ([b] + rest)[1..] == rest;
    }
  }

  /** Parsing accepts exactly the spellings of the printed digits, in either case. */
  lemma {:induction false} ParseHexExact(s: string, bytes: seq<Byte>)
    requires |s| == 2 * |bytes|
    ensures ParseHex(s) == Some(bytes) <==> Lower(s) == Hex(bytes)
  {
    if s != "" {
      var b, rest := bytes[0], bytes[1..];
      assert bytes == [b] + rest;
      ParseHexExact(s[2..], rest);
      ParsePair(s, b, rest);
      DigitExact(s[0], b / 16);
      DigitExact(s[1], b % 16);
      var low, hex := Lower(s), Hex(bytes);
      assert low == [low[0], low[1]] + Lower(s[2..]);
      assert hex == [HexDigit(b / 16), HexDigit(b % 16)] + Hex(rest);
      assert low[2..] == Lower(s[2..]) && hex[2..] == Hex(rest);
    }
  }

  predicate HyphensInPlace(s: string)
    requires |s| == 36
  {
    s[8] == '-' && s[13] == '-' && s[18] == '-' && s[23] == '-'
  }

  lemma SameDigits(s: string, t: string)
    requires |s| == 36 && |t| == 36 && HyphensInPlace(s) && HyphensInPlace(t)
    ensures Digits(s) == Digits(t) <==> s == t
  {
    var d, e := Digits(s), Digits(t);
    assert d[..8] == s[..8] && d[8..12] == s[9..13] && d[12..16] == s[14..18] && d[16..20] == s[19..23] && d[20..] == s[24..];
    assert e[..8] == t[..8] && e[8..12] == t[9..13] && e[12..16] == t[14..18] && e[16..20] == t[19..23] && e[20..] == t[24..];
    assert s == s[..8] + "-" + s[9..13] + "-" + s[14..18] + "-" + s[19..23] + "-" + s[24..];
    assert t == t[..8] + "-" + t[9..13] + "-" + t[14..18] + "-" + t[19..23] + "-" + t[24..];
  }

  /** A 36-character text is read as `u` exactly when it is `u` printed, up to letter case. */
  lemma HyphenatedExact(s: string, u: Uuid)
    requires |s| == 36
    ensures ParseUuid(s) == Some(u) <==> Lower(s) == Hyphenated(u)
  {
    DigitsOfHyphenated(u);
    var t := Lower(s);
    assert HyphensInPlace(t) <==> HyphensInPlace(s);
    assert Digits(t) == Lower(Digits(s));
    ParseHexExact(Digits(s), u);
    assert HyphensInPlace(Hyphenated(u));
    if HyphensInPlace(s) {
      SameDigits(t, Hyphenated(u));
    }
  }

  /** A text is read as `u` exactly when it is one of the four spellings of `u`, up to the letter
      case of the digits. */
  lemma UuidExact(s: string, u: Uuid)
    ensures ParseUuid(s) == Some(u) <==>
      || Lower(s) == Hyphenated(u)
      || Lower(s) == Hex(u)
      || (|s| == 38 && s[0] == '{' && s[37] == '}' && Lower(s[1..37]) == Hyphenated(u))
      || (|s| == 45 && s[..9] == "urn:uuid:" && Lower(s[9..]) == Hyphenated(u))
  {
    hide Lower, Hyphenated, Hex, ParseHex, ParseHyphenated;
    if |s| == 36 {
      HyphenatedExact(s, u);
    } else if |s| == 32 {
      ParseHexExact(s, u);
    } else if |s| == 38 {
      HyphenatedExact(s[1..37], u);
    } else if |s| == 45 {
      HyphenatedExact(s[9..], u);
    }
  }

  // ----- Splitting -----

  function Split(s: string): (parts: seq<string>)
    ensures |parts| >= 1
  {
    if s == "" then [""]
    else if s[0] == '/' then [""] + Split(s[1..])
    else
      var rest := Split(s[1..]);
      [[s[0]] + rest[0]] + rest[1..]
  }

  lemma {:induction false} SplitAtSlash(a: string, rest: string)
    requires SlashFree(a)
    ensures Split(a + "/" + rest) == [a] + Split(rest)
  {
    var s := a + "/" + rest;
    if a == "" {
      assert s[1..] == rest;
    } else {
      SplitAtSlash(a[1..], rest);
      assert s[1..] == a[1..] + "/" + rest;
      assert [a[0]] + a[1..] == a;
    }
  }

  lemma {:induction false} SplitWhole(a: string)
    requires SlashFree(a)
    ensures Split(a) == [a]
  {
    if a != "" {
      SplitWhole(a[1..]);
      assert [a[0]] + a[1..] == a;
    }
  }

  /** The first part ends at the first slash, and the rest splits into the other parts. */
  lemma {:induction false} CutFirst(s: string) returns (rest: string)
    requires |Split(s)| > 1
    ensures SlashFree(Split(s)[0]) && s == Split(s)[0] + "/" + rest && Split(rest) == Split(s)[1..]
  {
    if s[0] == '/' {
      rest := s[1..];
    } else {
      rest := CutFirst(s[1..]);
      assert s == [s[0]] + s[1..];
    }
  }

  lemma {:induction false} OnePart(s: string)
    requires |Split(s)| == 1
    ensures SlashFree(s) && Split(s) == [s]
  {
    if s != "" {
      OnePart(s[1..]);
      assert s == [s[0]] + s[1..];
    }
  }

  /** The path holds `text` as a whole component, directly after a component `dir` that is the
      second one. */
  ghost predicate SpelledUnder(path: string, dir: string, text: string) {
    exists first, tail ::
      SlashFree(first) && SlashFree(text) && (tail == "" || tail[0] == '/')
      && path == Spelled(first, dir, text, tail)
  }

  function Spelled(first: string, dir: string, text: string, tail: string): string {
    first + "/" + (dir + "/" + (text + tail))
  }

  lemma SpelledParts(first: string, dir: string, text: string, tail: string)
    requires SlashFree(first) && SlashFree(dir) && SlashFree(text) && (tail == "" || tail[0] == '/')
    ensures var parts := Split(Spelled(first, dir, text, tail));
      |parts| >= 3 && parts[1] == dir && parts[2] == text
  {
    SplitAtSlash(first, dir + "/" + (text + tail));
    SplitAtSlash(dir, text + tail);
    if tail == "" {
      assert text + tail == text;
      SplitWhole(text);
    } else {
      assert text + tail == text + "/" + tail[1..];
      SplitAtSlash(text, tail[1..]);
    }
  }

  lemma PartsSpelled(path: string)
    requires |Split(path)| >= 3
    ensures SpelledUnder(path, Split(path)[1], Split(path)[2])
  {
    hide Split;
    var parts := Split(path);
    var second := CutFirst(path);
    var third := CutFirst(second);
    var tail;
    if |parts| == 3 {
      OnePart(third);
      tail := "";
    } else {
      var rest := CutFirst(third);
      tail := "/" + rest;
    }
    assert third == parts[2] + tail;
    assert path == Spelled(parts[0], parts[1], parts[2], tail);
  }

  lemma ThirdPart(path: string, dir: string, text: string)
    requires SlashFree(dir)
    ensures SpelledUnder(path, dir, text) <==> |Split(path)| >= 3 && Split(path)[1] == dir && Split(path)[2] == text
  {
    hide Split, Spelled;
    if SpelledUnder(path, dir, text) {
      var first, tail :|
        SlashFree(first) && SlashFree(text) && (tail == "" || tail[0] == '/')
        && path == Spelled(first, dir, text, tail);
      SpelledParts(first, dir, text, tail);
    }
    if |Split(path)| >= 3 && Split(path)[1] == dir && Split(path)[2] == text {
      PartsSpelled(path);
    }
  }

  // ----- Parsers and generators -----

  function ParseAccountId(path: string): Result<Uuid, PathError> {
    var parts := Split(path);
    if |parts| < 3 || parts[1] != "accounts" then Err(InvalidPath(path))
    else
      match ParseUuid(parts[2])
      case Some(id) => Ok(id)
      case None => Err(InvalidPath(path))
  }

  function StripSuffix(s: string, suffix: string): Option<string> {
    if |s| >= |suffix| && s[|s| - |suffix|..] == suffix then Some(s[..|s| - |suffix|]) else None
  }

  function ParseTransactionId(path: string): Result<Uuid, PathError> {
    var parts := Split(path);
    if |parts| < 3 || parts[1] != "transactions" then Err(InvalidPath(path))
    else
      match StripSuffix(parts[2], ".json")
      case None => Err(InvalidPath(path))
      case Some(text) =>
        match ParseUuid(text)
        case Some(id) => Ok(id)
        case None => Err(InvalidPath(path))
  }

  /** A path names an account exactly when its second component is "accounts" and its third spells
      the id; every other path is refused by name. */
  lemma AccountIdExact(path: string, id: Uuid)
    ensures ParseAccountId(path) == Ok(id) <==>
            exists text :: SpelledUnder(path, "accounts", text) && ParseUuid(text) == Some(id)
    ensures ParseAccountId(path).Err? ==> ParseAccountId(path).error == InvalidPath(path)
  {
    hide Split, ParseUuid;
    if |Split(path)| >= 3 {
      ThirdPart(path, "accounts", Split(path)[2]);
    }
    forall text | SpelledUnder(path, "accounts", text)
      ensures |Split(path)| >= 3 && Split(path)[1] == "accounts" && Split(path)[2] == text
    {
      ThirdPart(path, "accounts", text);
    }
  }

  lemma Suffixed(s: string, text: string, suffix: string)
    ensures StripSuffix(s, suffix) == Some(text) <==> s == text + suffix
  {
    if |s| >= |suffix| {
      assert s == s[..|s| - |suffix|] + s[|s| - |suffix|..];
    }
  }

  /** The same for transactions, whose third component is the id followed by ".json". */
  lemma TransactionIdExact(path: string, id: Uuid)
    ensures ParseTransactionId(path) == Ok(id) <==>
            exists text :: SpelledUnder(path, "transactions", text + ".json") && ParseUuid(text) == Some(id)
    ensures ParseTransactionId(path).Err? ==> ParseTransactionId(path).error == InvalidPath(path)
  {
    hide Split, ParseUuid, StripSuffix;
    if ParseTransactionId(path) == Ok(id) {
      var name := Split(path)[2];
      var text := StripSuffix(name, ".json").value;
      Suffixed(name, text, ".json");
      ThirdPart(path, "transactions", text + ".json");
      assert SpelledUnder(path, "transactions", text + ".json") && ParseUuid(text) == Some(id);
    }
    forall text | SpelledUnder(path, "transactions", text + ".json") && ParseUuid(text) == Some(id)
      ensures ParseTransactionId(path) == Ok(id)
    {
      ThirdPart(path, "transactions", text + ".json");
      Suffixed(text + ".json", text, ".json");
    }
  }

  /** The files and directories that the generators name. */
  datatype Place =
    | AccountDir(id: Uuid)
    | BalanceFile(id: Uuid)
    | LogFile(id: Uuid)
    | SnapshotFile(id: Uuid, stamp: string)
    | TransactionFile(id: Uuid)

  /** What follows the identifier in a path. */
  function Tail(p: Place): string {
    match p
    case AccountDir(_) => ""
    case BalanceFile(_) => "/balance.json"
    case LogFile(_) => "/tx.log"
    case SnapshotFile(_, stamp) => "/snapshot_" + stamp + ".json"
    case TransactionFile(_) => ".json"
  }

  function PathOf(p: Place): string {
    (if p.TransactionFile? then "/transactions/" else "/accounts/") + Hyphenated(p.id) + Tail(p)
  }

  lemma AccountParts(id: Uuid, rest: string)
    ensures Split("/accounts/" + Hyphenated(id) + "/" + rest) == ["", "accounts", Hyphenated(id)] + Split(rest)
  {
    HyphenatedSlashFree(id);
    var h := Hyphenated(id);
    SplitAtSlash(h, rest);
    SplitAtSlash("accounts", h + "/" + rest);
    SplitAtSlash("", "accounts" + "/" + (h + "/" + rest));
    assert "/accounts/" + h + "/" + rest == "" + "/" + ("accounts" + "/" + (h + "/" + rest));
  }

  lemma TopParts(dir: string, name: string)
    requires SlashFree(dir) && SlashFree(name)
    ensures Split("/" + dir + "/" + name) == ["", dir, name]
  {
    SplitWhole(name);
    SplitAtSlash(dir, name);
    SplitAtSlash("", dir + "/" + name);
    assert "/" + dir + "/" + name == "" + "/" + (dir + "/" + name);
  }

  lemma AccountBelow(id: Uuid, rest: string)
    ensures ParseAccountId("/accounts/" + Hyphenated(id) + "/" + rest) == Ok(id)
  {
    UuidRoundTrip(id);
    AccountParts(id, rest);
    var parts := Split("/accounts/" + Hyphenated(id) + "/" + rest);
    assert parts[1] == "accounts" && parts[2] == Hyphenated(id);
  }

  lemma AccountItself(id: Uuid)
    ensures ParseAccountId("/accounts/" + Hyphenated(id)) == Ok(id)
  {
    UuidRoundTrip(id);
    HyphenatedSlashFree(id);
    TopParts("accounts", Hyphenated(id));
    assert "/accounts/" == "/" + "accounts" + "/";
  }

  /** Below the account directory the tail is a slash and a file name. */
  lemma FileTail(p: Place)
    requires !p.TransactionFile? && !p.AccountDir?
    ensures |Tail(p)| > 2 && Tail(p)[0] == '/'
    ensures PathOf(p) == "/accounts/" + Hyphenated(p.id) + "/" + Tail(p)[1..]
  {
    assert Tail(p) == "/" + Tail(p)[1..];
    Associative("/accounts/" + Hyphenated(p.id), "/", Tail(p)[1..]);
  }

  /** Every account-side path, snapshots with any stamp text included, gives its account back. */
  lemma AccountRoundTrip(p: Place)
    requires !p.TransactionFile?
    ensures ParseAccountId(PathOf(p)) == Ok(p.id)
  {
    if p.AccountDir? {
      AccountItself(p.id);
      assert PathOf(p) == "/accounts/" + Hyphenated(p.id);
    } else {
      FileTail(p);
      AccountBelow(p.id, Tail(p)[1..]);
    }
  }

  lemma TransactionRoundTrip(p: Place)
    requires p.TransactionFile?
    ensures ParseTransactionId(PathOf(p)) == Ok(p.id)
  {
    hide Hyphenated, Split, ParseUuid;
    UuidRoundTrip(p.id);
    HyphenatedSlashFree(p.id);
    var name := Hyphenated(p.id) + ".json";
    TopParts("transactions", name);
    assert PathOf(p) == "/" + "transactions" + "/" + name;
    assert name[..36] == Hyphenated(p.id) && name[36..] == ".json";
  }

  lemma FileComponents(p: Place, name: string)
    requires !p.TransactionFile? && !p.AccountDir? && Tail(p) == "/" + name
    ensures Split(PathOf(p)) == ["", "accounts", Hyphenated(p.id)] + Split(name)
  {
    hide Hyphenated, Split, PathOf;
    FileTail(p);
    assert Tail(p)[1..] == name;
    AccountParts(p.id, name);
  }

  lemma TopComponents(p: Place)
    requires p.TransactionFile? || p.AccountDir?
    ensures Split(PathOf(p)) ==
      if p.AccountDir? then ["", "accounts", Hyphenated(p.id)] else ["", "transactions", Hyphenated(p.id) + ".json"]
  {
    hide Hyphenated, Split;
    HyphenatedSlashFree(p.id);
    var dir, name := if p.AccountDir? then "accounts" else "transactions", Hyphenated(p.id) + Tail(p);
    assert PathOf(p) == "/" + dir + "/" + name;
    assert SlashFree(name);
    TopParts(dir, name);
    assert p.AccountDir? ==> name == Hyphenated(p.id);
  }

  /** The components of every generated path. */
  lemma PathComponents(p: Place)
    ensures Split(PathOf(p)) == match p
      case AccountDir(id) => ["", "accounts", Hyphenated(id)]
      case BalanceFile(id) => ["", "accounts", Hyphenated(id)] + ["balance.json"]
      case LogFile(id) => ["", "accounts", Hyphenated(id)] + ["tx.log"]
      case SnapshotFile(id, stamp) => ["", "accounts", Hyphenated(id)] + Split("snapshot_" + stamp + ".json")
      case TransactionFile(id) => ["", "transactions", Hyphenated(id) + ".json"]
  {
    hide Hyphenated, Split, PathOf;
    match p
    case AccountDir(_) => TopComponents(p);
    case TransactionFile(_) => TopComponents(p);
    case BalanceFile(_) =>
      FileComponents(p, "balance.json");
      SplitWhole("balance.json");
    case LogFile(_) =>
      FileComponents(p, "tx.log");
      SplitWhole("tx.log");
    case SnapshotFile(_, stamp) =>
      assert Tail(p) == "/" + ("snapshot_" + stamp + ".json");
      FileComponents(p, "snapshot_" + stamp + ".json");
  }

  /** Each parser refuses the paths of the other side. */
  lemma WrongSide(p: Place)
    ensures if p.TransactionFile? then ParseAccountId(PathOf(p)) == Err(InvalidPath(PathOf(p)))
            else ParseTransactionId(PathOf(p)) == Err(InvalidPath(PathOf(p)))
  {
    hide Split, PathOf, ParseUuid;
    PathComponents(p);
    assert Split(PathOf(p))[1] == if p.TransactionFile? then "transactions" else "accounts";
    assert "transactions"[0] == 't' && "accounts"[0] == 'a';
  }

  lemma TailsDiffer(p: Place, q: Place)
    requires !p.TransactionFile? && !q.TransactionFile? && p.id == q.id && Tail(p) == Tail(q)
    ensures p == q
  {
    if p.SnapshotFile? && q.SnapshotFile? {
      var t := Tail(p);
      assert t[10..|t| - 5] == p.stamp && t[10..|t| - 5] == q.stamp;
    }
    assert !p.AccountDir? ==> Tail(p)[1] == if p.BalanceFile? then 'b' else if p.LogFile? then 't' else 's';
    assert !q.AccountDir? ==> Tail(q)[1] == if q.BalanceFile? then 'b' else if q.LogFile? then 't' else 's';
  }

  /** Distinct identifiers, kinds or stamps never share a path. */
  lemma PathsInjective(p: Place, q: Place)
    requires PathOf(p) == PathOf(q)
    ensures p == q
  {
    assert PathOf(p)[1] == if p.TransactionFile? then 't' else 'a';
    assert PathOf(q)[1] == if q.TransactionFile? then 't' else 'a';
    if p.TransactionFile? {
      TransactionRoundTrip(p);
      TransactionRoundTrip(q);
    } else {
      AccountRoundTrip(p);
      AccountRoundTrip(q);
      assert PathOf(p)[46..] == Tail(p) && PathOf(q)[46..] == Tail(q);
      TailsDiffer(p, q);
    }
  }

  // ----- Directories -----

  function Slashes(s: string): nat {
    if s == "" then 0 else (if s[0] == '/' then 1 else 0) + Slashes(s[1..])
  }

  predicate StartsWith(s: string, prefix: string) {
    |s| >= |prefix| && s[..|prefix|] == prefix
  }

  /** A directory below one of the two directories that hold directories. */
  predicate IsSubdirectory(path: string) {
    (StartsWith(path, "/accounts/") || StartsWith(path, "/docs/")) && Slashes(path) == 2
  }

  predicate IsDirectory(path: string) {
    path in {"/", "/accounts", "/transactions", "/docs"} || IsSubdirectory(path)
  }

  lemma {:induction false} SlashesConcat(a: string, b: string)
    ensures Slashes(a + b) == Slashes(a) + Slashes(b)
  {
    if a == "" {
      assert a + b == b;
    } else {
      SlashesConcat(a[1..], b);
      assert (a + b)[1..] == a[1..] + b;
    }
  }

  lemma {:induction false} NoSlashes(s: string)
    ensures Slashes(s) == 0 <==> SlashFree(s)
  {
    if s != "" {
      NoSlashes(s[1..]);
      assert s == [s[0]] + s[1..];
    }
  }

  lemma AccountsSlashes()
    ensures Slashes("/accounts/") == 2 && Slashes("/") == 1
  {
    assert "/accounts/" == "/" + "accounts" + "/";
    SlashesConcat("/" + "accounts", "/");
    SlashesConcat("/", "accounts");
    NoSlashes("accounts");
    assert "/"[1..] == "";
  }

  lemma AccountSideSlashes(id: Uuid, tail: string)
    ensures var path := "/accounts/" + Hyphenated(id) + tail;
      StartsWith(path, "/accounts/") && Slashes(path) == 2 + Slashes(tail)
  {
    var h := Hyphenated(id);
    AccountsSlashes();
    HyphenatedSlashFree(id);
    NoSlashes(h);
    SlashesConcat("/accounts/", h);
    SlashesConcat("/accounts/" + h, tail);
  }

  lemma TransactionSide(id: Uuid)
    ensures !IsDirectory(PathOf(TransactionFile(id)))
  {
    var path := PathOf(TransactionFile(id));
    assert |path| > 40 && path[1] == 't';
  }

  /** Of all generated paths exactly the account directories are directories. */
  lemma GeneratedDirectories(p: Place)
    ensures IsDirectory(PathOf(p)) <==> p.AccountDir?
  {
    if p.TransactionFile? {
      TransactionSide(p.id);
    } else {
      AccountSideSlashes(p.id, Tail(p));
      assert |PathOf(p)| > 40;
      if !p.AccountDir? {
        FileTail(p);
      }
    }
  }

  /** A slash-free name in the directory `dir`. */
  ghost predicate DirectlyBelow(path: string, dir: string) {
    exists name :: SlashFree(name) && path == dir + "/" + name
  }

  lemma BelowExact(path: string, dir: string)
    requires Slashes(dir) == 1
    ensures StartsWith(path, dir + "/") && Slashes(path) == 2 <==> DirectlyBelow(path, dir)
  {
    AccountsSlashes();
    SlashesConcat(dir, "/");
    if StartsWith(path, dir + "/") {
      var name := path[|dir| + 1..];
      assert path == dir + "/" + name;
      SlashesConcat(dir + "/", name);
      NoSlashes(name);
    }
    if DirectlyBelow(path, dir) {
      var name :| SlashFree(name) && path == dir + "/" + name;
      SlashesConcat(dir + "/", name);
      NoSlashes(name);
    }
  }

  lemma TopSlashes(name: string)
    requires SlashFree(name)
    ensures Slashes("/" + name) == 1
  {
    AccountsSlashes();
    SlashesConcat("/", name);
    NoSlashes(name);
  }

  lemma SubdirectoryExact(path: string)
    ensures IsSubdirectory(path) <==> DirectlyBelow(path, "/accounts") || DirectlyBelow(path, "/docs")
  {
    hide Slashes, StartsWith, DirectlyBelow;
    TopSlashes("accounts");
    TopSlashes("docs");
    assert "/" + "accounts" == "/accounts" && "/" + "docs" == "/docs";
    assert "/accounts" + "/" == "/accounts/" && "/docs" + "/" == "/docs/";
    BelowExact(path, "/accounts");
    BelowExact(path, "/docs");
  }

  /** The directories are the four fixed ones and what lies directly below /accounts and /docs. */
  lemma DirectoryExact(path: string)
    ensures IsDirectory(path) <==>
      || path in {"/", "/accounts", "/transactions", "/docs"}
      || exists name :: SlashFree(name) && (path == "/accounts/" + name || path == "/docs/" + name)
  {
    SubdirectoryExact(path);
    assert "/accounts" + "/" == "/accounts/" && "/docs" + "/" == "/docs/";
  }
}
