/** Lookups, attributes and directory listings over the inode table. */
module Filesystem {
  import opened LedgerTypes
  import opened Paths
  import opened InodeTable

  datatype Kind = Directory | RegularFile

  datatype Attr = Attr(inode: nat, kind: Kind)

  datatype Entry = Entry(name: string, inode: nat, kind: Kind)

  /** The full path of a child. */
  function Join(parent: string, name: string): string {
    if parent == "/" then "/" + name else parent + "/" + name
  }

  function KindOf(isDir: bool): Kind {
    if isDir then Directory else RegularFile
  }

  /** `lookup` does not list the root among its directories; `getattr` does. */
  predicate LookupIsDir(path: string) {
    path in {"/accounts", "/transactions", "/docs"} || IsSubdirectory(path)
  }

  function LookupTable(t: Table, parent: nat, name: string): Table {
    if parent in t.inodes then Commit(t, Join(t.inodes[parent], name)) else t
  }

  /** The answer of a lookup, or nothing for an unknown parent. */
  function LookupAttr(t: Table, parent: nat, name: string): Option<Attr> {
    if parent !in t.inodes then None
    else
      var path := Join(t.inodes[parent], name);
      var u := Commit(t, path);
      if path in u.paths then Some(Attr(u.paths[path], KindOf(LookupIsDir(path)))) else None
  }

  function AttrOf(t: Table, inode: nat): Option<Attr> {
    if inode in t.inodes then Some(Attr(inode, KindOf(IsDirectory(t.inodes[inode])))) else None
  }

  /** A consistent table in which every path starts at the root and the fixed directories are in place. */
  ghost predicate Rooted(t: Table) {
    && Consistent(t)
    && Keeps(NewTable(), t)
    && forall p :: p in t.paths ==> p != "" && p[0] == '/'
  }

  lemma NewTableRooted()
    ensures Rooted(NewTable())
  {
    var t := NewTable();
    assert Consistent(t) by {
      FirstSound();
    }
  }

  lemma RootedCommit(t: Table, path: string)
    requires Rooted(t) && path != "" && path[0] == '/'
    ensures Rooted(Commit(t, path)) && Keeps(t, Commit(t, path)) && path in Commit(t, path).paths
  {
    CommitAllocates(t, path);
    KeepsTransitive(NewTable(), t, Commit(t, path));
  }

  lemma RootedLookup(t: Table, parent: nat, name: string)
    requires Rooted(t) && parent in t.inodes
    ensures Rooted(LookupTable(t, parent, name)) && Keeps(t, LookupTable(t, parent, name))
    ensures LookupAttr(t, parent, name).Some?
  {
    assert t.inodes[parent] in t.paths;
    RootedCommit(t, Join(t.inodes[parent], name));
  }

  // ----- Joining -----

  lemma SlashPosition(a: string, m: string)
    requires SlashFree(m)
    ensures var s := a + "/" + m; s[|a|] == '/' && forall i :: |a| < i < |s| ==> s[i] != '/'
  {
    var s := a + "/" + m;
    assert forall i :: |a| < i < |s| ==> s[i] == m[i - |a| - 1];
  }

  lemma LastSlash(a: string, m: string, b: string, n: string)
    requires SlashFree(m) && SlashFree(n) && a + "/" + m == b + "/" + n
    ensures a == b && m == n
  {
    var s := a + "/" + m;
    SlashPosition(a, m);
    SlashPosition(b, n);
    assert |a| == |b|;
    assert s[..|a|] == a && s[|a| + 1..] == m && s[..|b|] == b && s[|b| + 1..] == n;
  }

  /** Children of rooted parents with slash-free names share a path only when both agree. */
  lemma JoinInjective(p: string, m: string, q: string, n: string)
    requires p != "" && q != "" && SlashFree(m) && SlashFree(n)
    ensures Join(p, m) == Join(q, n) <==> p == q && m == n
  {
    if Join(p, m) == Join(q, n) {
      var a, b := if p == "/" then "" else p, if q == "/" then "" else q;
      assert Join(p, m) == a + "/" + m && Join(q, n) == b + "/" + n;
      LastSlash(a, m, b, n);
    }
  }

  /** Any two lookups of a run, the second on whatever table `u` the first one's has grown into,
      share an inode exactly when parent and name agree. */
  lemma LookupsShareInodeIff(t: Table, p: nat, m: string, u: Table, q: nat, n: string)
    requires Rooted(t) && p in t.inodes && SlashFree(m) && SlashFree(n)
    requires Rooted(u) && Keeps(LookupTable(t, p, m), u) && q in u.inodes
    ensures LookupAttr(t, p, m).Some? && LookupAttr(u, q, n).Some?
    ensures LookupAttr(t, p, m).value.inode == LookupAttr(u, q, n).value.inode <==> p == q && m == n
  {
    RootedLookup(t, p, m);
    RootedLookup(u, q, n);
    var v := LookupTable(u, q, n);
    assert u.inodes[p] == t.inodes[p];
    var first, second := Join(u.inodes[p], m), Join(u.inodes[q], n);
    assert u.inodes[p] in u.paths && u.inodes[q] in u.paths;
    JoinInjective(u.inodes[p], m, u.inodes[q], n);
    assert v.paths[first] == u.paths[first];
    assert v.inodes[v.paths[first]] == first && v.inodes[v.paths[second]] == second;
    assert u.inodes[p] == u.inodes[q] ==> p == q;
  }

  /** `lookup` and `getattr` agree on the kind except for the root looked up by an empty name. */
  lemma KindsAgreeIff(t: Table, parent: nat, name: string)
    requires Rooted(t) && parent in t.inodes
    ensures var u, a := LookupTable(t, parent, name), LookupAttr(t, parent, name);
      && a.Some?
      && (AttrOf(u, a.value.inode) == a <==> !(t.inodes[parent] == "/" && name == ""))
  {
    RootedLookup(t, parent, name);
    var u := LookupTable(t, parent, name);
    var path := Join(t.inodes[parent], name);
    assert u.inodes[u.paths[path]] == path;
    assert path == "/" <==> t.inodes[parent] == "/" && name == "" by {
      assert t.inodes[parent] in t.paths;
    }
    RootIsNoSubdirectory();
  }

  /** In terms of inodes: a lookup answers a directory exactly for the three fixed names in the
      root and for every name in /accounts (inode 2) and /docs (inode 4). */
  lemma LookupKindExact(t: Table, parent: nat, name: string)
    requires Rooted(t) && parent in t.inodes && SlashFree(name)
    ensures LookupAttr(t, parent, name).Some?
    ensures LookupAttr(t, parent, name).value.kind == Directory <==>
            parent in {2, 4} || (parent == 1 && name in {"accounts", "transactions", "docs"})
  {
    RootedLookup(t, parent, name);
    hide LookupIsDir, Join;
    PathLeadsBack(t, parent);
    FixedInodes(t);
    JoinedIsDir(t.inodes[parent], name);
  }

  lemma LookupIsDirExact(path: string)
    ensures LookupIsDir(path) <==>
      path in {"/accounts", "/transactions", "/docs"} || DirectlyBelow(path, "/accounts") || DirectlyBelow(path, "/docs")
  {
    SubdirectoryExact(path);
  }

  lemma JoinedIsDir(up: string, name: string)
    requires up != "" && SlashFree(name)
    ensures LookupIsDir(Join(up, name)) <==>
            up in {"/accounts", "/docs"} || (up == "/" && name in {"accounts", "transactions", "docs"})
  {
    hide LookupIsDir, DirectlyBelow, Join;
    LookupIsDirExact(Join(up, name));
    JoinedBelow(up, name, "/accounts");
    JoinedBelow(up, name, "/docs");
    JoinedInRoot(up, name, "accounts");
    JoinedInRoot(up, name, "transactions");
    JoinedInRoot(up, name, "docs");
    assert "/" + "accounts" == "/accounts" && "/" + "transactions" == "/transactions" && "/" + "docs" == "/docs";
  }

  lemma JoinedBelow(up: string, name: string, dir: string)
    requires up != "" && SlashFree(name) && dir != "" && dir != "/"
    ensures DirectlyBelow(Join(up, name), dir) <==> up == dir
  {
    if DirectlyBelow(Join(up, name), dir) {
      var m :| SlashFree(m) && Join(up, name) == dir + "/" + m;
      JoinInjective(up, name, dir, m);
    }
  }

  lemma JoinedInRoot(up: string, name: string, m: string)
    requires up != "" && SlashFree(name) && SlashFree(m)
    ensures Join(up, name) == "/" + m <==> up == "/" && name == m
  {
    JoinInjective(up, name, "/", m);
  }

  lemma RootIsNoSubdirectory()
    ensures !IsSubdirectory("/")
  {
  }

  // ----- Directory listings -----

  /** An entry agrees with what lookup and getattr say in table `t`. */
  ghost predicate Agrees(t: Table, dir: nat, e: Entry) {
    && LookupTable(t, dir, e.name) == t
    && LookupAttr(t, dir, e.name) == Some(Attr(e.inode, e.kind))
    && AttrOf(t, e.inode) == Some(Attr(e.inode, e.kind))
  }

  /** A listing starts with the directory itself and its parent; the other entries carry the
      names of the directory's children and agree. */
  ghost predicate Listing(t: Table, dir: nat, path: string, accounts: seq<Uuid>, es: seq<Entry>) {
    && |es| >= 2
    && es[..2] == Dots(dir, ParentInode(path))
    && IsParent(t, es[1].inode, path)
    && NamesChildren(path, accounts, es[2..])
    && AllAgree(t, dir, es[2..])
  }

  /** The ".." of an account directory is /accounts, any other one is the root. */
  function ParentInode(path: string): nat {
    if IsAccountDir(path) then 2 else 1
  }

  /** The parent's path joined with some name is the path itself; the root is its own parent. */
  ghost predicate IsParent(t: Table, parent: nat, path: string) {
    && parent in t.inodes
    && if path == "/" then t.inodes[parent] == "/"
       else exists name :: SlashFree(name) && path == Join(t.inodes[parent], name)
  }

  lemma ParentOfListable(t: Table, path: string)
    requires Rooted(t) && Listable(path)
    ensures IsParent(t, ParentInode(path), path)
  {
    hide Slashes, StartsWith;
    FixedInodes(t);
    FixedAreNoAccountDirs();
    if IsAccountDir(path) {
      AccountDirExact(path);
      var name :| SlashFree(name) && path == "/accounts" + "/" + name;
      assert path == Join(t.inodes[2], name);
    } else if path != "/" {
      var name := path[1..];
      assert SlashFree(name) && path == Join(t.inodes[1], name);
    }
  }

  lemma AccountDirExact(path: string)
    ensures IsAccountDir(path) <==> DirectlyBelow(path, "/accounts")
  {
    hide Slashes, StartsWith, DirectlyBelow;
    TopSlashes("accounts");
    assert "/" + "accounts" == "/accounts" && "/accounts" + "/" == "/accounts/";
    BelowExact(path, "/accounts");
  }

  ghost predicate NamesAre(es: seq<Entry>, names: seq<string>) {
    |es| == |names| && forall k :: 0 <= k < |es| ==> es[k].name == names[k]
  }

  ghost predicate NamesChildren(path: string, accounts: seq<Uuid>, es: seq<Entry>) {
    if path == "/" then NamesAre(es, ["accounts", "transactions", "docs"])
    else if path == "/accounts" then NamesAccounts(es, accounts)
    else if IsAccountDir(path) then NamesAre(es, ["balance.json", "tx.log"])
    else es == []
  }

  ghost predicate AllAgree(t: Table, dir: nat, es: seq<Entry>) {
    forall k :: 0 <= k < |es| ==> Agrees(t, dir, es[k])
  }

  /** One entry for each account, in order. */
  ghost predicate NamesAccounts(es: seq<Entry>, accounts: seq<Uuid>) {
    |es| == |accounts| && forall k :: 0 <= k < |es| ==> es[k].name == Hyphenated(accounts[k])
  }

  lemma NobodyNamed()
    ensures NamesAccounts([], [])
  {
  }

  function Dots(dir: nat, parent: nat): seq<Entry> {
    [Entry(".", dir, Directory), Entry("..", parent, Directory)]
  }

  lemma DotsFirst(t: Table, dir: nat, path: string, accounts: seq<Uuid>, es: seq<Entry>)
    requires Rooted(t) && Listable(path) && AllAgree(t, dir, es) && NamesChildren(path, accounts, es)
    ensures Listing(t, dir, path, accounts, Dots(dir, ParentInode(path)) + es)
  {
    ParentOfListable(t, path);
    var all := Dots(dir, ParentInode(path)) + es;
    assert all[2..] == es && all[..2] == Dots(dir, ParentInode(path));
  }

  predicate IsAccountDir(path: string) {
    StartsWith(path, "/accounts/") && Slashes(path) == 2
  }

  /** The directories that can be listed: not every directory is. */
  predicate Listable(path: string) {
    path in {"/", "/accounts", "/transactions", "/docs"} || IsAccountDir(path)
  }

  lemma EntryAgrees(t: Table, dir: nat, name: string, kind: Kind)
    requires Rooted(t) && dir in t.inodes
    requires var path := Join(t.inodes[dir], name);
      path in t.paths && path != "/" && kind == KindOf(IsDirectory(path))
    ensures Agrees(t, dir, Entry(name, t.paths[Join(t.inodes[dir], name)], kind))
  {
    var path := Join(t.inodes[dir], name);
    assert t.inodes[t.paths[path]] == path;
  }

  lemma AgreesLater(t: Table, u: Table, dir: nat, e: Entry)
    requires Rooted(t) && Rooted(u) && Keeps(t, u) && Agrees(t, dir, e) && dir in t.inodes
    ensures Agrees(u, dir, e)
  {
    var path := Join(t.inodes[dir], e.name);
    assert path in t.paths && t.paths[path] == e.inode by {
      CommitAllocates(t, path);
    }
    assert t.inodes[e.inode] == path;
  }

  lemma AccountDirPath(id: Uuid)
    ensures var path := "/accounts/" + Hyphenated(id);
      path == Join("/accounts", Hyphenated(id)) && IsDirectory(path) && |path| > 1 && path[0] == '/'
  {
    GeneratedDirectories(AccountDir(id));
    assert PathOf(AccountDir(id)) == "/accounts/" + Hyphenated(id);
    assert "/accounts" + "/" == "/accounts/";
  }

  lemma AccountEntry(t: Table, dir: nat, id: Uuid)
    requires Rooted(t) && dir in t.inodes && t.inodes[dir] == "/accounts"
    requires "/accounts/" + Hyphenated(id) in t.paths
    ensures Agrees(t, dir, Entry(Hyphenated(id), t.paths["/accounts/" + Hyphenated(id)], Directory))
  {
    AccountDirPath(id);
    EntryAgrees(t, dir, Hyphenated(id), Directory);
  }

  lemma AccountFilePath(dir: string, name: string)
    requires StartsWith(dir, "/accounts/") && Slashes(dir) == 2 && SlashFree(name) && name != ""
    ensures Join(dir, name) == dir + "/" + name && !IsDirectory(Join(dir, name))
    ensures Join(dir, name)[0] == '/' && |Join(dir, name)| > 11
  {
    assert dir[..10][0] == '/';
    NoSlashes(name);
    AccountsSlashes();
    SlashesConcat(dir, "/");
    SlashesConcat(dir + "/", name);
  }

  /** A failing repository lists no account. */
  function Known(accounts: Option<seq<Uuid>>): seq<Uuid> {
    if accounts.Some? then accounts.value else []
  }

  lemma FixedAreNoAccountDirs()
    ensures !IsAccountDir("/") && !IsAccountDir("/accounts") && !IsAccountDir("/transactions") && !IsAccountDir("/docs")
  {
  }

  lemma ListableExact(t: Table, ino: nat)
    requires Rooted(t) && ino in t.inodes
    ensures Listable(t.inodes[ino]) <==> ino in {1, 2, 3, 4} || DirectlyBelow(t.inodes[ino], "/accounts")
  {
    hide Slashes, StartsWith, DirectlyBelow;
    FixedInodes(t);
    PathLeadsBack(t, ino);
    AccountDirExact(t.inodes[ino]);
  }

  /** The children listed are exactly those the path generators name: the account directories in
      /accounts, and the balance and log files in an account directory. */
  lemma ListedAreGenerated(id: Uuid, accounts: seq<Uuid>, es: seq<Entry>)
    ensures NamesChildren("/accounts", accounts, es) <==>
      |es| == |accounts| && forall k :: 0 <= k < |es| ==> Join("/accounts", es[k].name) == PathOf(AccountDir(accounts[k]))
    ensures NamesChildren(PathOf(AccountDir(id)), accounts, es) <==>
      && |es| == 2
      && Join(PathOf(AccountDir(id)), es[0].name) == PathOf(BalanceFile(id))
      && Join(PathOf(AccountDir(id)), es[1].name) == PathOf(LogFile(id))
  {
    hide Hyphenated, IsAccountDir;
    FixedAreNoAccountDirs();
    forall a: Uuid, name: string
      ensures Join("/accounts", name) == PathOf(AccountDir(a)) <==> name == Hyphenated(a)
    {
      Prefixed("/accounts/", name, Hyphenated(a));
      assert "/accounts" + "/" == "/accounts/";
    }
    var dir := PathOf(AccountDir(id));
    assert dir == "/accounts/" + Hyphenated(id) && |dir| == 46;
    AccountDirGenerated(id);
    forall name: string
      ensures Join(dir, name) == PathOf(BalanceFile(id)) <==> name == "balance.json"
      ensures Join(dir, name) == PathOf(LogFile(id)) <==> name == "tx.log"
    {
      assert PathOf(BalanceFile(id)) == dir + "/" + "balance.json" && PathOf(LogFile(id)) == dir + "/" + "tx.log";
      Prefixed(dir + "/", name, "balance.json");
      Prefixed(dir + "/", name, "tx.log");
    }
  }

  lemma AccountDirGenerated(id: Uuid)
    ensures IsAccountDir(PathOf(AccountDir(id)))
  {
    hide Hyphenated;
    AccountSideSlashes(id, "");
    assert PathOf(AccountDir(id)) == "/accounts/" + Hyphenated(id) + "";
  }

  lemma Prefixed(prefix: string, s: string, t: string)
    ensures prefix + s == prefix + t <==> s == t
  {
    assert (prefix + s)[|prefix|..] == s && (prefix + t)[|prefix|..] == t;
  }

  class LedgerFilesystem {
    var inodeMap: map<nat, string>
    var pathMap: map<string, nat>
    var nextInode: nat

    function ToTable(): Table
      reads this
    {
      Table(inodeMap, pathMap, nextInode)
    }

    ghost predicate Valid()
      reads this
    {
      Rooted(ToTable())
    }

    constructor ()
      ensures Valid() && ToTable() == NewTable()
    {
      inodeMap := map[1 := "/", 2 := "/accounts", 3 := "/transactions", 4 := "/docs"];
      pathMap := map["/" := 1, "/accounts" := 2, "/transactions" := 3, "/docs" := 4];
      nextInode := 5;
      new;
      hide Rooted;
      NewTableRooted();
    }

    method GetOrCreateInode(path: string) returns (inode: nat)
      requires Consistent(ToTable()) && (path in pathMap || CanAllocate(ToTable()))
      modifies this
      ensures Consistent(ToTable()) && ToTable() == Commit(old(ToTable()), path) && Keeps(old(ToTable()), ToTable())
      ensures path in pathMap && inode == pathMap[path] && inode in inodeMap && inodeMap[inode] == path
      ensures path !in old(pathMap) ==> inode == old(nextInode) && nextInode == old(nextInode) + 1
      ensures old(Valid()) && path != "" && path[0] == '/' ==> Valid()
    {
      CommitAllocates(ToTable(), path);
      if Valid() && path != "" && path[0] == '/' {
        RootedCommit(ToTable(), path);
      }
      if path in pathMap {
        return pathMap[path];
      }
      inode := nextInode;
      nextInode := nextInode + 1;
      inodeMap := inodeMap[inode := path];
      pathMap := pathMap[path := inode];
    }

    /** The path found leads back to the inode asked for. */
    method GetPath(inode: nat) returns (path: Option<string>)
      requires Valid()
      ensures path.Some? <==> inode in inodeMap
      ensures path.Some? ==> path.value in pathMap && pathMap[path.value] == inode && inodeMap[inode] == path.value
    {
      return if inode in inodeMap then Some(inodeMap[inode]) else None;
    }

    method Lookup(parent: nat, name: string) returns (attr: Option<Attr>)
      requires Valid()
      requires parent in inodeMap && Join(inodeMap[parent], name) !in pathMap ==> CanAllocate(ToTable())
      modifies this
      ensures Valid() && ToTable() == LookupTable(old(ToTable()), parent, name)
      ensures attr == LookupAttr(old(ToTable()), parent, name)
      ensures parent in old(inodeMap) && !(old(inodeMap[parent]) == "/" && name == "") ==>
        attr.Some? && AttrOf(ToTable(), attr.value.inode) == attr
      ensures attr.Some? <==> parent in old(inodeMap)
      ensures attr.Some? ==>
        (attr.value.kind == Directory <==>
           var path := Join(old(inodeMap[parent]), name);
           || path in {"/accounts", "/transactions", "/docs"}
           || DirectlyBelow(path, "/accounts") || DirectlyBelow(path, "/docs"))
      ensures attr.Some? && SlashFree(name) ==>
        (attr.value.kind == Directory <==>
           parent in {2, 4} || (parent == 1 && name in {"accounts", "transactions", "docs"}))
    {
      var parentPath := GetPath(parent);
      if parentPath.None? {
        return None;
      }
      assert inodeMap[parent] in pathMap;
      hide LookupIsDir;
      KindsAgreeIff(ToTable(), parent, name);
      if SlashFree(name) {
        LookupKindExact(ToTable(), parent, name);
      }
      var path := Join(parentPath.value, name);
      LookupIsDirExact(path);
      var inode := GetOrCreateInode(path);
      return Some(Attr(inode, KindOf(LookupIsDir(path))));
    }

    method GetAttr(inode: nat) returns (attr: Option<Attr>)
      requires Valid()
      ensures attr == AttrOf(ToTable(), inode)
      ensures attr.Some? ==>
        (attr.value.kind == Directory <==>
           || inodeMap[inode] in {"/", "/accounts", "/transactions", "/docs"}
           || DirectlyBelow(inodeMap[inode], "/accounts") || DirectlyBelow(inodeMap[inode], "/docs"))
    {
      var path := GetPath(inode);
      if path.None? {
        return None;
      }
      SubdirectoryExact(path.value);
      return Some(Attr(inode, KindOf(IsDirectory(path.value))));
    }

    /** `accounts` is what the account repository lists, or nothing when it fails. The listing has
        the two dots and then exactly the directory's children, agreeing with lookup and getattr. */
    method ReadDir(ino: nat, accounts: Option<seq<Uuid>>) returns (entries: Option<seq<Entry>>)
      requires Valid() && nextInode + 2 + |Known(accounts)| < U64_LIMIT
      modifies this
      ensures Valid() && Keeps(old(ToTable()), ToTable())
      ensures entries.Some? <==>
        && ino in old(inodeMap)
        && (ino in {1, 2, 3, 4} || DirectlyBelow(old(inodeMap[ino]), "/accounts"))
      ensures entries.Some? ==> Listing(ToTable(), ino, old(inodeMap[ino]), Known(accounts), entries.value)
      ensures entries.None? ==> ToTable() == old(ToTable())
    {
      var found := GetPath(ino);
      if found.None? {
        return None;
      }
      ListableExact(ToTable(), ino);
      var self, parent, listed := ListChildren(ino, found.value, accounts);
      if listed.None? {
        return None;
      }
      DotsFirst(ToTable(), ino, found.value, Known(accounts), listed.value);
      return Some(Dots(self, parent) + listed.value);
    }

    /** The inodes of the two dots, and the other entries. */
    method ListChildren(ino: nat, path: string, accounts: Option<seq<Uuid>>)
      returns (self: nat, parent: nat, listed: Option<seq<Entry>>)
      requires Valid() && nextInode + 2 + |Known(accounts)| < U64_LIMIT
      requires ino in inodeMap && inodeMap[ino] == path
      modifies this
      ensures Valid() && Keeps(old(ToTable()), ToTable())
      ensures listed.Some? <==> Listable(path)
      ensures listed.Some? ==> self == ino && parent == ParentInode(path)
      ensures listed.Some? ==> NamesChildren(path, Known(accounts), listed.value) && AllAgree(ToTable(), ino, listed.value)
      ensures listed.None? ==> ToTable() == old(ToTable())
    {
      hide Rooted, Agrees, Slashes, StartsWith, NamesAccounts;
      PathLeadsBack(ToTable(), ino);
      FixedAreNoAccountDirs();
      FixedInodes(ToTable());
      if path == "/" {
        RootEntries(ToTable());
        return 1, 1, Some([Entry("accounts", 2, Directory), Entry("transactions", 3, Directory), Entry("docs", 4, Directory)]);
      } else if path == "/accounts" {
        var entries := ListAccounts(ino, Known(accounts));
        return 2, 1, Some(entries);
      } else if IsAccountDir(path) {
        var entries := ListAccountFiles(ino, path);
        return ino, 2, Some(entries);
      } else if path == "/transactions" {
        return 3, 1, Some([]);
      } else if path == "/docs" {
        return 4, 1, Some([]);
      }
      return 0, 0, None;
    }

    method ListAccounts(ino: nat, accounts: seq<Uuid>) returns (entries: seq<Entry>)
      requires Valid() && ino in inodeMap && inodeMap[ino] == "/accounts"
      requires nextInode + |accounts| < U64_LIMIT
      modifies this
      ensures Valid() && Keeps(old(ToTable()), ToTable())
      ensures NamesAccounts(entries, accounts) && AllAgree(ToTable(), ino, entries)
    {
      hide Rooted, Agrees, NamesAccounts;
      entries := [];
      assert NamesAccounts([], []) by {
        NobodyNamed();
      }
      var i := 0;
      while i < |accounts|
        invariant 0 <= i <= |accounts|
        invariant Valid() && Keeps(old(ToTable()), ToTable()) && nextInode <= old(nextInode) + i
        invariant ino in inodeMap && inodeMap[ino] == "/accounts"
        invariant NamesAccounts(entries, accounts[..i]) && AllAgree(ToTable(), ino, entries)
      {
        ghost var before := ToTable();
        entries := ListAccount(ino, entries, accounts[..i], accounts[i]);
        assert accounts[..i + 1] == accounts[..i] + [accounts[i]];
        KeepsTransitive(old(ToTable()), before, ToTable());
        i := i + 1;
      }
      assert accounts[..i] == accounts;
    }

    /** Adds the entry of one more account. */
    method ListAccount(ino: nat, entries: seq<Entry>, ghost listed: seq<Uuid>, account: Uuid) returns (entries': seq<Entry>)
      requires Valid() && ino in inodeMap && inodeMap[ino] == "/accounts"
      requires nextInode + 1 < U64_LIMIT
      requires NamesAccounts(entries, listed) && AllAgree(ToTable(), ino, entries)
      modifies this
      ensures Valid() && Keeps(old(ToTable()), ToTable()) && nextInode <= old(nextInode) + 1
      ensures NamesAccounts(entries', listed + [account]) && AllAgree(ToTable(), ino, entries')
      ensures ino in inodeMap && inodeMap[ino] == "/accounts"
    {
      hide Hyphenated, Agrees, IsDirectory;
      var name := Hyphenated(account);
      AccountDirPath(account);
      var inode := GetOrCreateInode("/accounts/" + name);
      AccountEntry(ToTable(), ino, account);
      AllAgreeLater(old(ToTable()), ToTable(), ino, entries);
      return entries + [Entry(name, inode, Directory)];
    }

    method ListAccountFiles(ino: nat, path: string) returns (entries: seq<Entry>)
      requires Valid() && ino in inodeMap && inodeMap[ino] == path && IsAccountDir(path)
      requires nextInode + 2 < U64_LIMIT
      modifies this
      ensures Valid() && Keeps(old(ToTable()), ToTable())
      ensures |entries| == 2 && entries[0].name == "balance.json" && entries[1].name == "tx.log"
      ensures AllAgree(ToTable(), ino, entries)
    {
      var balance := ListFile(ino, path, "balance.json");
      ghost var mid := ToTable();
      var log := ListFile(ino, path, "tx.log");
      AgreesLater(mid, ToTable(), ino, balance);
      KeepsTransitive(old(ToTable()), mid, ToTable());
      return [balance, log];
    }

    method ListFile(ino: nat, path: string, name: string) returns (e: Entry)
      requires Valid() && ino in inodeMap && inodeMap[ino] == path && IsAccountDir(path)
      requires SlashFree(name) && name != "" && nextInode + 1 < U64_LIMIT
      modifies this
      ensures Valid() && Keeps(old(ToTable()), ToTable()) && nextInode <= old(nextInode) + 1
      ensures e.name == name && e.kind == RegularFile && Agrees(ToTable(), ino, e)
    {
      AccountFilePath(path, name);
      var inode := GetOrCreateInode(path + "/" + name);
      EntryAgrees(ToTable(), ino, name, RegularFile);
      return Entry(name, inode, RegularFile);
    }
  }

  lemma AllAgreeLater(t: Table, u: Table, dir: nat, es: seq<Entry>)
    requires Rooted(t) && Rooted(u) && Keeps(t, u) && dir in t.inodes
    requires AllAgree(t, dir, es)
    ensures AllAgree(u, dir, es)
  {
    forall k | 0 <= k < |es| ensures Agrees(u, dir, es[k]) {
      AgreesLater(t, u, dir, es[k]);
    }
  }

  lemma PathLeadsBack(t: Table, inode: nat)
    requires Rooted(t) && inode in t.inodes
    ensures t.inodes[inode] in t.paths && t.paths[t.inodes[inode]] == inode
  {
  }

  lemma FixedInodes(t: Table)
    requires Rooted(t)
    ensures "/" in t.paths && t.paths["/"] == 1
    ensures "/accounts" in t.paths && t.paths["/accounts"] == 2
    ensures "/transactions" in t.paths && t.paths["/transactions"] == 3
    ensures "/docs" in t.paths && t.paths["/docs"] == 4
  {
    var n := NewTable();
    assert "/" in n.paths && "/accounts" in n.paths && "/transactions" in n.paths && "/docs" in n.paths;
  }

  lemma RootEntry(t: Table, name: string)
    requires Rooted(t) && 1 in t.inodes && t.inodes[1] == "/"
    requires name in {"accounts", "transactions", "docs"} && "/" + name in t.paths
    ensures Agrees(t, 1, Entry(name, t.paths["/" + name], Directory))
  {
    assert "/" + "accounts" == "/accounts" && "/" + "transactions" == "/transactions" && "/" + "docs" == "/docs";
    EntryAgrees(t, 1, name, Directory);
  }

  lemma RootEntries(t: Table)
    requires Rooted(t)
    ensures Agrees(t, 1, Entry("accounts", 2, Directory))
    ensures Agrees(t, 1, Entry("transactions", 3, Directory))
    ensures Agrees(t, 1, Entry("docs", 4, Directory))
  {
    FixedInodes(t);
    assert "/" + "accounts" == "/accounts" && "/" + "transactions" == "/transactions" && "/" + "docs" == "/docs";
    RootEntry(t, "accounts");
    RootEntry(t, "transactions");
    RootEntry(t, "docs");
  }
}
