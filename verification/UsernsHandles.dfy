/**
 The cache of user namespaces (libcontainer/internal/userns/usernsfd_linux.go), keyed by a printed,
 sorted and joined form of the id mappings.
 */
module UsernsHandles {
  import opened Decimal
  import opened Separated
  import opened SortedStrings

  datatype IdMap = IdMap(containerId: int, hostId: int, size: int)

  datatype Mapping = Mapping(uids: seq<IdMap>, gids: seq<IdMap>)

  /** The same mappings, in any order: what matters to the kernel. */
  predicate Equivalent(a: Mapping, b: Mapping) {
    multiset(a.uids) == multiset(b.uids) && multiset(a.gids) == multiset(b.gids)
  }

  // ----- one entry -----

  /** The three numbers of an entry with a separator between them. */
  function Triple(m: IdMap, sep: char): string {
    Print(m.containerId) + [sep] + (Print(m.hostId) + [sep] + Print(m.size))
  }

  predicate OutsideNumbers(c: char) { c != '-' && !('0' <= c <= '9') }

  lemma PrintLacks(n: int, c: char)
    requires OutsideNumbers(c)
    ensures c !in Print(n)
  {
    hide Print;
  }

  lemma TripleLacks(m: IdMap, sep: char, c: char)
    requires OutsideNumbers(c) && c != sep
    ensures c !in Triple(m, sep)
  {
    hide Print, OutsideNumbers;
    PrintLacks(m.containerId, c);
    PrintLacks(m.hostId, c);
    PrintLacks(m.size, c);
  }

  lemma PrintInjective(a: int, b: int)
    requires Print(a) == Print(b)
    ensures a == b
  {
    hide Print, Scan;
    ScanOfPrint(a);
    ScanOfPrint(b);
  }

  lemma TripleInjective(a: IdMap, b: IdMap, sep: char)
    requires OutsideNumbers(sep) && Triple(a, sep) == Triple(b, sep)
    ensures a == b
  {
    hide Print, OutsideNumbers;
    PrintLacks(a.containerId, sep);
    PrintLacks(b.containerId, sep);
    PrintLacks(a.hostId, sep);
    PrintLacks(b.hostId, sep);
    SplitAt(Print(a.containerId), Print(a.hostId) + [sep] + Print(a.size),
            Print(b.containerId), Print(b.hostId) + [sep] + Print(b.size), sep);
    SplitAt(Print(a.hostId), Print(a.size), Print(b.hostId), Print(b.size), sep);
    PrintInjective(a.containerId, b.containerId);
    PrintInjective(a.hostId, b.hostId);
    PrintInjective(a.size, b.size);
  }

  function Entry(m: IdMap): string { Triple(m, ':') }

  lemma EntryIs(m: IdMap)
    ensures Entry(m) == Print(m.containerId) + ":" + Print(m.hostId) + ":" + Print(m.size)
  {
    hide Print;
  }

  lemma EntryIsClean(m: IdMap)
    ensures Clean(Entry(m), ',') && ';' !in Entry(m)
  {
    TripleLacks(m, ':', ',');
    TripleLacks(m, ':', ';');
    hide Print;
  }

  lemma EntryInjective(a: IdMap, b: IdMap)
    requires Entry(a) == Entry(b)
    ensures a == b
  {
    hide Triple;
    TripleInjective(a, b, ':');
  }

  function Printed(ms: seq<IdMap>): (r: seq<string>)
    ensures |r| == |ms| && forall i :: 0 <= i < |ms| ==> r[i] == Entry(ms[i])
  {
    seq(|ms|, i requires 0 <= i < |ms| => Entry(ms[i]))
  }

  // ----- the key -----

  /** An entry is printed as often as it is listed. */
  lemma {:induction false} PrintedCount(ms: seq<IdMap>, m: IdMap)
    ensures multiset(Printed(ms))[Entry(m)] == multiset(ms)[m]
  {
    hide Entry, Printed;
    if ms != [] {
      PrintedCount(ms[1..], m);
      if Entry(ms[0]) == Entry(m) { EntryInjective(ms[0], m); }
      assert ms == [ms[0]] + ms[1..];
      var printed, rest := Printed(ms), Printed(ms[1..]);
      assert printed == [Entry(ms[0])] + rest;
      assert multiset(printed) == multiset{Entry(ms[0])} + multiset(rest);
    }
  }

  /** What is printed is the print of something listed. */
  lemma PrintedComesFrom(ms: seq<IdMap>, x: string) returns (m: IdMap)
    requires x in multiset(Printed(ms))
    ensures m in ms && x == Entry(m)
  {
    var i :| 0 <= i < |ms| && Printed(ms)[i] == x;
    m := ms[i];
  }

  lemma PrintedEquivalent(a: seq<IdMap>, b: seq<IdMap>)
    ensures multiset(Printed(a)) == multiset(Printed(b)) <==> multiset(a) == multiset(b)
  {
    hide Entry, Printed;
    if multiset(Printed(a)) == multiset(Printed(b)) {
      forall m
        ensures multiset(a)[m] == multiset(b)[m]
      {
        PrintedCount(a, m);
        PrintedCount(b, m);
      }
    }
    if multiset(a) == multiset(b) {
      forall x
        ensures multiset(Printed(a))[x] == multiset(Printed(b))[x]
      {
        if x in multiset(Printed(a)) {
          var m := PrintedComesFrom(a, x);
          PrintedCount(a, m);
          PrintedCount(b, m);
        } else if x in multiset(Printed(b)) {
          var m := PrintedComesFrom(b, x);
          PrintedCount(a, m);
          PrintedCount(b, m);
        }
      }
    }
  }

  function ListKey(ms: seq<IdMap>): string { Join(Sort(Printed(ms)), ',') }

  /** The printed list determines the mappings up to order. */
  lemma ListKeyEquivalent(a: seq<IdMap>, b: seq<IdMap>)
    ensures ListKey(a) == ListKey(b) <==> multiset(a) == multiset(b)
    ensures ';' !in ListKey(a)
  {
    SortKeeps(Printed(a));
    SortKeeps(Printed(b));
    SortedIsClean(a);
    SortedIsClean(b);
    PrintedEquivalent(a, b);
    hide Sort, Printed, Sorted;
    if ListKey(a) == ListKey(b) {
      TokensOfJoin(Sort(Printed(a)), ',');
      TokensOfJoin(Sort(Printed(b)), ',');
    }
    if multiset(a) == multiset(b) {
      SortedUnique(Sort(Printed(a)), Sort(Printed(b)));
    }
    JoinLacks(Sort(Printed(a)), ',', ';');
  }

  lemma SortedIsClean(ms: seq<IdMap>)
    ensures AllClean(Sort(Printed(ms)), ',')
    ensures forall i :: 0 <= i < |Sort(Printed(ms))| ==> ';' !in Sort(Printed(ms))[i]
  {
    var sorted := Sort(Printed(ms));
    SortKeeps(Printed(ms));
    forall i | 0 <= i < |sorted|
      ensures Clean(sorted[i], ',') && ';' !in sorted[i]
    {
      assert sorted[i] in multiset(sorted);
      var m := PrintedComesFrom(ms, sorted[i]);
      EntryIsClean(m);
    }
  }

  function Key(m: Mapping): string {
    "uid=" + ListKey(m.uids) + ";gid=" + ListKey(m.gids)
  }

  /** Two mappings have the same key if and only if they are the same up to order. */
  lemma KeyEquivalent(a: Mapping, b: Mapping)
    ensures Key(a) == Key(b) <==> Equivalent(a, b)
  {
    ListKeyEquivalent(a.uids, b.uids);
    ListKeyEquivalent(b.uids, a.uids);
    ListKeyEquivalent(a.gids, b.gids);
    hide ListKey;
    if Key(a) == Key(b) {
      var x, y := "gid=" + ListKey(a.gids), "gid=" + ListKey(b.gids);
      assert Key(a) == "uid=" + (ListKey(a.uids) + [';'] + x);
      assert Key(b) == "uid=" + (ListKey(b.uids) + [';'] + y);
      assert Key(a)[4..] == ListKey(a.uids) + [';'] + x && Key(b)[4..] == ListKey(b.uids) + [';'] + y;
      SplitAt(ListKey(a.uids), x, ListKey(b.uids), y, ';');
      assert x[4..] == ListKey(a.gids) && y[4..] == ListKey(b.gids);
    }
  }

  method PrintAll(ms: seq<IdMap>) returns (r: seq<string>)
    ensures r == Printed(ms)
  {
    hide Entry, Print, Printed;
    r := [];
    for i := 0 to |ms|
      invariant |r| == i && forall k :: 0 <= k < i ==> r[k] == Entry(ms[k])
    {
      EntryIs(ms[i]);
      r := r + [Print(ms[i].containerId) + ":" + Print(ms[i].hostId) + ":" + Print(ms[i].size)];
    }
    assert r == Printed(ms);
  }

  method Id(m: Mapping) returns (r: string)
    ensures r == Key(m)
  {
    var uids := PrintAll(m.uids);
    var gids := PrintAll(m.gids);
    r := "uid=" + Join(Sort(uids), ',') + ";gid=" + Join(Sort(gids), ',');
  }

  // ----- the cache -----

  datatype Outcome = Ok(userns: nat) | Err

  /** The cached files, and the mapping of every user namespace ever created. */
  datatype Cache = Cache(maps: map<string, nat>, spawned: seq<Mapping>)

  /** A request, with what the system calls on its way would answer; or a release. */
  datatype Op = Get(m: Mapping, spawns: bool, opens: bool, dups: bool) | Release

  datatype Step = Step(cache: Cache, outcome: Outcome)

  function Apply(c: Cache, op: Op): Step {
    match op
    case Release => Step(c.(maps := map[]), Err)
    case Get(m, spawns, opens, dups) =>
      var key := Key(m);
      if key in c.maps then Step(c, if dups then Ok(c.maps[key]) else Err)
      else if !spawns then Step(c, Err)
      else
        var grown := c.(spawned := c.spawned + [m]);
        if !opens then Step(grown, Err)
        else Step(grown.(maps := c.maps[key := |c.spawned|]), if dups then Ok(|c.spawned|) else Err)
  }

  ghost predicate CacheInv(c: Cache) {
    forall k <- c.maps :: c.maps[k] < |c.spawned| && Key(c.spawned[c.maps[k]]) == k
  }

  lemma ApplyInv(c: Cache, op: Op)
    requires CacheInv(c)
    ensures CacheInv(Apply(c, op).cache)
  {
    hide Key;
  }

  /** A request that succeeds caches its answer, which has the requested mapping up to order. */
  predicate Serves(s: Step, op: Op) {
    s.outcome.Ok? ==>
      && op.Get?
      && s.outcome.userns < |s.cache.spawned| && Equivalent(s.cache.spawned[s.outcome.userns], op.m)
      && Key(op.m) in s.cache.maps && s.cache.maps[Key(op.m)] == s.outcome.userns
  }

  lemma ApplyServes(c: Cache, op: Op)
    requires CacheInv(c)
    ensures Serves(Apply(c, op), op)
  {
    if op.Get? {
      var k := Key(op.m);
      if k in c.maps { KeyEquivalent(c.spawned[c.maps[k]], op.m); }
    }
    hide Key;
  }

  /** The cache after the first n operations. */
  function After(ops: seq<Op>, n: nat): Cache
    requires n <= |ops|
  {
    if n == 0 then Cache(map[], []) else Apply(After(ops, n - 1), ops[n - 1]).cache
  }

  function Result(ops: seq<Op>, n: nat): Outcome
    requires n < |ops|
  {
    Apply(After(ops, n), ops[n]).outcome
  }

  lemma EmptyInv()
    ensures CacheInv(Cache(map[], []))
  {
  }

  lemma {:induction false} AfterInv(ops: seq<Op>, n: nat)
    requires n <= |ops|
    ensures CacheInv(After(ops, n))
  {
    hide Apply, CacheInv;
    if n > 0 {
      AfterInv(ops, n - 1);
      ApplyInv(After(ops, n - 1), ops[n - 1]);
    } else {
      EmptyInv();
    }
  }

  /**
   A namespace that is handed out has the requested mapping, as if it had been created afresh, and is
   cached under the request's key.
   */
  lemma GetAgreesWithSpawn(ops: seq<Op>, n: nat)
    requires n < |ops| && Result(ops, n).Ok?
    ensures var c := After(ops, n + 1); var ns := Result(ops, n).userns;
      && ops[n].Get? && ns < |c.spawned| && Equivalent(c.spawned[ns], ops[n].m)
      && Key(ops[n].m) in c.maps && c.maps[Key(ops[n].m)] == ns
  {
    AfterInv(ops, n);
    ApplyServes(After(ops, n), ops[n]);
    hide Apply, CacheInv, Equivalent, Key;
  }

  /** A user namespace keeps its mapping. */
  lemma {:induction false} SpawnedStays(ops: seq<Op>, i: nat, j: nat, ns: nat)
    requires i <= j <= |ops| && ns < |After(ops, i).spawned|
    ensures ns < |After(ops, j).spawned| && After(ops, j).spawned[ns] == After(ops, i).spawned[ns]
  {
    hide Key;
    if i < j { SpawnedStays(ops, i, j - 1, ns); }
  }

  lemma {:induction false} SpawnedGrows(ops: seq<Op>, i: nat, j: nat)
    requires i <= j <= |ops|
    ensures |After(ops, i).spawned| <= |After(ops, j).spawned|
  {
    hide Key;
    if i < j { SpawnedGrows(ops, i, j - 1); }
  }

  /** Without a release, what is cached stays cached. */
  lemma {:induction false} CachedStays(ops: seq<Op>, i: nat, j: nat, key: string)
    requires i <= j <= |ops| && key in After(ops, i).maps && forall r :: i <= r < j ==> !ops[r].Release?
    ensures key in After(ops, j).maps && After(ops, j).maps[key] == After(ops, i).maps[key]
  {
    hide Key;
    if i < j { CachedStays(ops, i, j - 1, key); }
  }

  /** After a release, only namespaces that are created later are cached. */
  lemma {:induction false} CachedIsNew(ops: seq<Op>, r: nat, j: nat, key: string)
    requires r < j <= |ops| && ops[r].Release? && key in After(ops, j).maps
    ensures After(ops, j).maps[key] >= |After(ops, r).spawned|
  {
    hide Key;
    if r + 1 < j {
      SpawnedGrows(ops, r, j - 1);
      if key in After(ops, j - 1).maps { CachedIsNew(ops, r, j - 1, key); }
    }
  }

  lemma NotSharedAfterRelease(ops: seq<Op>, i: nat, r: nat, j: nat)
    requires i < r < j < |ops| && Result(ops, i).Ok? && Result(ops, j).Ok? && ops[r].Release?
    ensures Result(ops, i) != Result(ops, j)
  {
    hide *;
    GetAgreesWithSpawn(ops, i);
    GetAgreesWithSpawn(ops, j);
    SpawnedGrows(ops, i + 1, r);
    CachedIsNew(ops, r, j + 1, Key(ops[j].m));
  }

  lemma SharedWithoutRelease(ops: seq<Op>, i: nat, j: nat)
    requires i < j < |ops| && Result(ops, i).Ok? && Result(ops, j).Ok?
    requires forall r :: i < r < j ==> !ops[r].Release?
    ensures ops[i].Get? && ops[j].Get?
    ensures Result(ops, i) == Result(ops, j) <==> Equivalent(ops[i].m, ops[j].m)
  {
    hide *;
    GetAgreesWithSpawn(ops, i);
    GetAgreesWithSpawn(ops, j);
    SpawnedStays(ops, i + 1, j + 1, Result(ops, i).userns);
    CachedStays(ops, i + 1, j + 1, Key(ops[i].m));
    KeyEquivalent(ops[i].m, ops[j].m);
    if !Equivalent(ops[i].m, ops[j].m) {
      SpawnedKeys(After(ops, j + 1), ops[i].m, ops[j].m, Result(ops, i).userns, Result(ops, j).userns);
    }
  }

  /**
   Two requests get the same user namespace if and only if nothing was released between them and
   their mappings are the same up to order; over any sequence of operations, whatever fails.
   */
  lemma SharedIff(ops: seq<Op>, i: nat, j: nat)
    requires i < j < |ops| && Result(ops, i).Ok? && Result(ops, j).Ok?
    ensures ops[i].Get? && ops[j].Get?
    ensures Result(ops, i) == Result(ops, j) <==>
      Equivalent(ops[i].m, ops[j].m) && forall r :: i < r < j ==> !ops[r].Release?
  {
    hide *;
    GetAgreesWithSpawn(ops, i);
    GetAgreesWithSpawn(ops, j);
    if r :| i < r < j && ops[r].Release? {
      NotSharedAfterRelease(ops, i, r, j);
    } else {
      SharedWithoutRelease(ops, i, j);
    }
  }

  /** The key of a namespace's mapping tells it from others. */
  lemma SpawnedKeys(c: Cache, m: Mapping, m': Mapping, a: nat, b: nat)
    requires a < |c.spawned| && b < |c.spawned|
    requires Equivalent(c.spawned[a], m) && Equivalent(c.spawned[b], m') && !Equivalent(m, m')
    ensures a != b
  {
  }

  // ----- when a request succeeds -----

  /** An earlier request for the mapping created a namespace and opened it, and nothing was released since. */
  ghost predicate MadeAt(ops: seq<Op>, i: nat, n: nat, m: Mapping)
    requires i < n <= |ops|
  {
    && ops[i].Get? && Equivalent(ops[i].m, m) && ops[i].spawns && ops[i].opens
    && forall r :: i < r < n ==> !ops[r].Release?
  }

  ghost predicate Made(ops: seq<Op>, n: nat, m: Mapping)
    requires n <= |ops|
  {
    exists i :: 0 <= i < n && MadeAt(ops, i, n, m)
  }

  lemma MadeNext(ops: seq<Op>, n: nat, m: Mapping)
    requires n < |ops|
    ensures Made(ops, n + 1, m) <==>
      && !ops[n].Release?
      && (Made(ops, n, m) || (ops[n].Get? && Equivalent(ops[n].m, m) && ops[n].spawns && ops[n].opens))
  {
    hide Equivalent;
    var n' := n + 1;
    if i :| 0 <= i < n' && MadeAt(ops, i, n', m) {
      if i < n { assert MadeAt(ops, i, n, m); }
    }
    if !ops[n].Release? {
      if i :| 0 <= i < n && MadeAt(ops, i, n, m) { assert MadeAt(ops, i, n + 1, m); }
      if ops[n].Get? && Equivalent(ops[n].m, m) && ops[n].spawns && ops[n].opens { assert MadeAt(ops, n, n + 1, m); }
    }
  }

  lemma {:induction false} CachedIff(ops: seq<Op>, n: nat, m: Mapping)
    requires n <= |ops|
    ensures Key(m) in After(ops, n).maps <==> Made(ops, n, m)
  {
    hide Key, Equivalent;
    if n > 0 {
      CachedIff(ops, n - 1, m);
      MadeNext(ops, n - 1, m);
      if ops[n - 1].Get? {
        KeyEquivalent(ops[n - 1].m, m);
        hide Made;
      }
    }
  }

  /**
   Exactly when a request succeeds, over any sequence of operations: its duplicate can be made, and either an
   earlier request for the same mapping left a namespace that was not released since, or one can be created
   and opened now. Only in the latter case a namespace is created.
   */
  lemma SucceedsIff(ops: seq<Op>, n: nat)
    requires n < |ops| && ops[n].Get?
    ensures Result(ops, n).Ok? <==> ops[n].dups && (Made(ops, n, ops[n].m) || (ops[n].spawns && ops[n].opens))
    ensures After(ops, n + 1).spawned ==
      After(ops, n).spawned + if !Made(ops, n, ops[n].m) && ops[n].spawns then [ops[n].m] else []
  {
    hide Key, Made;
    CachedIff(ops, n, ops[n].m);
  }

  /** The handles as the program keeps them. */
  class Handles {
    var maps: map<string, nat>
    ghost var spawned: seq<Mapping>

    ghost function State(): Cache
      reads this
    {
      Cache(maps, spawned)
    }

    constructor ()
      ensures State() == Cache(map[], [])
    {
      maps, spawned := map[], [];
    }

    /** `next` is the user namespace that a spawned process would have. */
    method GetHandle(m: Mapping, spawns: bool, opens: bool, dups: bool, next: nat) returns (r: Outcome)
      requires CacheInv(State()) && next == |spawned|
      modifies this
      ensures CacheInv(State())
      ensures Apply(old(State()), Get(m, spawns, opens, dups)) == Step(State(), r)
    {
      ApplyInv(State(), Get(m, spawns, opens, dups));
      var id := Id(m);
      var file;
      if id in maps {
        file := maps[id];
      } else {
        if !spawns {
          return Err;
        }
        spawned := spawned + [m];
        if !opens {
          return Err;
        }
        file := next;
        maps := maps[id := file];
      }
      r := if dups then Ok(file) else Err;
    }

    method ReleaseAll()
      modifies this
      ensures maps == map[] && spawned == old(spawned)
    {
      maps := map[];
    }
  }
}
