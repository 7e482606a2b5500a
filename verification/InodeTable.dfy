/** The inode table: allocation by a fast probe and a locked commit, as functions of the table
    and as interleaved steps of concurrent callers. */
module InodeTable {
  import opened LedgerTypes

  datatype Table = Table(inodes: map<nat, string>, paths: map<string, nat>, next: nat)

  function NewTable(): Table {
    Table(
      map[1 := "/", 2 := "/accounts", 3 := "/transactions", 4 := "/docs"],
      map["/" := 1, "/accounts" := 2, "/transactions" := 3, "/docs" := 4],
      5)
  }

  /** The two maps are inverse to each other and the counter is above every inode. */
  ghost predicate Consistent(t: Table) {
    && (forall p :: p in t.paths ==> t.paths[p] in t.inodes && t.inodes[t.paths[p]] == p)
    && (forall i :: i in t.inodes ==> t.inodes[i] in t.paths && t.paths[t.inodes[i]] == i)
    && (forall i :: i in t.inodes ==> i < t.next)
  }

  /** `later` keeps every allocation of `earlier`. */
  ghost predicate Keeps(earlier: Table, later: Table) {
    && (forall p :: p in earlier.paths ==> p in later.paths && later.paths[p] == earlier.paths[p])
    && (forall i :: i in earlier.inodes ==> i in later.inodes && later.inodes[i] == earlier.inodes[i])
  }

  /** The counter's increment stays within 64 bits. */
  predicate CanAllocate(t: Table) {
    t.next + 1 < U64_LIMIT
  }

  /** The locked part: look again, then take the next inode. */
  function Commit(t: Table, path: string): Table {
    if path in t.paths then t
    else Table(t.inodes[t.next := path], t.paths[path := t.next], t.next + 1)
  }

  lemma CommitAllocates(t: Table, path: string)
    requires Consistent(t)
    ensures Consistent(Commit(t, path)) && Keeps(t, Commit(t, path)) && path in Commit(t, path).paths
  {
    var u := Commit(t, path);
    if path !in t.paths {
      assert t.next !in t.inodes;
      assert forall i :: i in t.inodes ==> u.inodes[i] == t.inodes[i] && t.inodes[i] != path;
    }
  }

  lemma KeepsTransitive(a: Table, b: Table, c: Table)
    requires Keeps(a, b) && Keeps(b, c)
    ensures Keeps(a, c)
  {
  }

  // ----- Concurrent callers -----

  datatype Answer = Answer(path: string, inode: nat)

  /** `waiting` maps a caller whose probe missed to the path it will commit; `answers` lists what
      calls have returned so far. */
  datatype Calls = Calls(table: Table, waiting: map<nat, string>, answers: seq<Answer>)

  datatype CallStep = Probe(caller: nat, path: string) | CommitMiss(caller: nat)

  predicate Possible(s: Calls, step: CallStep) {
    match step
    case Probe(caller, _) => caller !in s.waiting
    case CommitMiss(caller) => caller in s.waiting && CanAllocate(s.table)
  }

  function Perform(s: Calls, step: CallStep): Calls
    requires Possible(s, step)
  {
    match step
    case Probe(caller, path) =>
      if path in s.table.paths then s.(answers := s.answers + [Answer(path, s.table.paths[path])])
      else s.(waiting := s.waiting[caller := path])
    case CommitMiss(caller) =>
      var path := s.waiting[caller];
      var table := Commit(s.table, path);
      Calls(table, s.waiting - {caller}, s.answers + [Answer(path, if path in table.paths then table.paths[path] else 0)])
  }

  function FirstCalls(): Calls {
    Calls(NewTable(), map[], [])
  }

  ghost predicate Interleaving(s: Calls, steps: seq<CallStep>, t: Calls)
    decreases |steps|
  {
    if steps == [] then s == t
    else Possible(s, steps[0]) && Interleaving(Perform(s, steps[0]), steps[1..], t)
  }

  /** The inodes in use are exactly those from 1 up to the counter. */
  ghost predicate Dense(t: Table) {
    t.next >= 1 && forall i :: i in t.inodes <==> 1 <= i < t.next
  }

  /** Every inode ever returned is still its path's inode. */
  ghost predicate Sound(s: Calls) {
    && Consistent(s.table)
    && Dense(s.table)
    && forall k :: 0 <= k < |s.answers| ==>
         s.answers[k].path in s.table.paths && s.table.paths[s.answers[k].path] == s.answers[k].inode
  }

  lemma SoundStep(s: Calls, step: CallStep)
    requires Sound(s) && Possible(s, step)
    ensures Sound(Perform(s, step)) && Keeps(s.table, Perform(s, step).table)
  {
    if step.CommitMiss? {
      CommitAllocates(s.table, s.waiting[step.caller]);
    }
  }

  lemma {:induction false} SoundRun(s: Calls, steps: seq<CallStep>, t: Calls)
    requires Sound(s) && Interleaving(s, steps, t)
    ensures Sound(t) && Keeps(s.table, t.table)
    decreases |steps|
  {
    if steps != [] {
      SoundStep(s, steps[0]);
      var mid := Perform(s, steps[0]);
      SoundRun(mid, steps[1..], t);
      KeepsTransitive(s.table, mid.table, t.table);
    }
  }

  /** In every interleaving of any number of callers the maps stay inverse, allocations are
      permanent, no inode number is skipped, and two calls return the same inode exactly when they asked for the same path. */
  lemma OneInodePerPath(steps: seq<CallStep>, t: Calls, j: nat, k: nat)
    requires Interleaving(FirstCalls(), steps, t)
    ensures Consistent(t.table) && Keeps(NewTable(), t.table) && Dense(t.table)
    ensures j < |t.answers| && k < |t.answers| ==>
      (t.answers[j].inode == t.answers[k].inode <==> t.answers[j].path == t.answers[k].path)
  {
    FirstSound();
    SoundRun(FirstCalls(), steps, t);
    if j < |t.answers| && k < |t.answers| {
      var p, q := t.answers[j].path, t.answers[k].path;
      assert t.table.inodes[t.table.paths[p]] == p && t.table.inodes[t.table.paths[q]] == q;
    }
  }

  lemma FirstSound()
    ensures Sound(FirstCalls())
  {
  }
}
