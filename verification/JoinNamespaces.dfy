/**
 Joining the listed namespaces (__join_namespaces, __close_namespaces and join_namespaces in
 libcontainer/nsenter/nsexec.c): first every namespace but the user namespace, then the user
 namespace, then what the first pass was not permitted to join. What setns(2) answers may depend on
 everything that happened before.
 */
module JoinNamespaces {
  import Bootstrap
  type NsType = Bootstrap.NsType

  const USER: NsType := Bootstrap.NEWUSER

  datatype Outcome = Joined | NotPermitted | Failure

  /** A call of setns on the descriptor of an entry. */
  datatype Attempt = Attempt(entry: nat, outcome: Outcome)

  /** The answers of the k-th call of setns, and of setresuid after it. */
  datatype Kernel = Kernel(setns: nat -> Outcome, setresuid: nat -> bool) {
    /** The k-th call, for an entry of this type, makes the process give up. */
    predicate Gives(k: nat, t: NsType) {
      setns(k) == Failure || (setns(k) == Joined && t == USER && !setresuid(k))
    }
  }

  // ----- one pass over the list -----

  datatype Pass = Pass(log: seq<Attempt>, gaveUp: bool)

  /** The calls of one pass from entry i on, the next call being the k-th. */
  function PassFrom(types: seq<NsType>, allow: set<NsType>, i: nat, k: nat, kernel: Kernel): Pass
    requires i <= |types|
    decreases |types| - i
  {
    if i == |types| then Pass([], false)
    else if types[i] !in allow then PassFrom(types, allow, i + 1, k, kernel)
    else
      var a := Attempt(i, kernel.setns(k));
      if kernel.Gives(k, types[i]) then Pass([a], true)
      else
        var rest := PassFrom(types, allow, i + 1, k + 1, kernel);
        Pass([a] + rest.log, rest.gaveUp)
  }

  /** The entries of the given types, in order. */
  function Entries(types: seq<NsType>, allow: set<NsType>, i: nat): seq<nat>
    requires i <= |types|
    decreases |types| - i
  {
    if i == |types| then []
    else if types[i] in allow then [i] + Entries(types, allow, i + 1)
    else Entries(types, allow, i + 1)
  }

  function EntriesOf(log: seq<Attempt>): seq<nat> {
    seq(|log|, j requires 0 <= j < |log| => log[j].entry)
  }

  /** How often an entry was joined. */
  function Joins(log: seq<Attempt>, e: nat): nat {
    if log == [] then 0 else (if log[0] == Attempt(e, Joined) then 1 else 0) + Joins(log[1..], e)
  }

  lemma {:induction false} JoinsAppend(a: seq<Attempt>, b: seq<Attempt>, e: nat)
    ensures Joins(a + b, e) == Joins(a, e) + Joins(b, e)
  {
    if a == [] {
      assert a + b == b;
    } else {
      assert (a + b)[1..] == a[1..] + b;
      JoinsAppend(a[1..], b, e);
    }
  }

  /** A pass tries exactly the allowed entries in order, up to where it gives up. */
  lemma {:induction false} PassTries(types: seq<NsType>, allow: set<NsType>, i: nat, k: nat, kernel: Kernel)
    requires i <= |types|
    ensures var p := PassFrom(types, allow, i, k, kernel);
      && EntriesOf(p.log) <= Entries(types, allow, i)
      && (!p.gaveUp ==> EntriesOf(p.log) == Entries(types, allow, i))
    decreases |types| - i
  {
    if i < |types| {
      if types[i] in allow {
        PassTries(types, allow, i + 1, k + 1, kernel);
        var p := PassFrom(types, allow, i, k, kernel);
        if !kernel.Gives(k, types[i]) {
          var rest := PassFrom(types, allow, i + 1, k + 1, kernel);
          assert EntriesOf(p.log) == [i] + EntriesOf(rest.log);
        }
      } else {
        PassTries(types, allow, i + 1, k, kernel);
      }
    }
  }

  /** A pass joins an entry at most once, and only entries that are allowed and not yet passed. */
  lemma {:induction false} PassJoins(types: seq<NsType>, allow: set<NsType>, i: nat, k: nat, kernel: Kernel, e: nat)
    requires i <= |types|
    ensures var p := PassFrom(types, allow, i, k, kernel);
      && Joins(p.log, e) <= 1
      && (Joins(p.log, e) == 1 ==> i <= e < |types| && types[e] in allow)
    decreases |types| - i
  {
    if i < |types| {
      if types[i] in allow {
        PassJoins(types, allow, i + 1, k + 1, kernel, e);
        var p := PassFrom(types, allow, i, k, kernel);
        if !kernel.Gives(k, types[i]) {
          assert p.log[1..] == PassFrom(types, allow, i + 1, k + 1, kernel).log;
        }
      } else {
        PassJoins(types, allow, i + 1, k, kernel, e);
      }
    }
  }

  // ----- the three passes -----

  /** The types that some call joined. */
  function JoinedTypes(types: seq<NsType>, log: seq<Attempt>): set<NsType> {
    set e | 0 <= e < |types| && Joins(log, e) > 0 :: types[e]
  }

  function TypesOf(types: seq<NsType>): set<NsType> { set t | t in types }

  datatype Run = Run(first: Pass, user: Pass, last: Pass) {
    function Log(): seq<Attempt> { first.log + user.log + last.log }

    predicate GaveUp() { first.gaveUp || user.gaveUp || last.gaveUp }
  }

  /** All calls; a pass that is not reached is empty. */
  function AllPasses(types: seq<NsType>, kernel: Kernel): Run {
    var others := TypesOf(types) - {USER};
    var first := PassFrom(types, others, 0, 0, kernel);
    if first.gaveUp then Run(first, Pass([], false), Pass([], false))
    else
      var user := PassFrom(types, {USER}, 0, |first.log|, kernel);
      if user.gaveUp then Run(first, user, Pass([], false))
      else
        var again := others - JoinedTypes(types, first.log) - JoinedTypes(types, user.log);
        Run(first, user, PassFrom(types, again, 0, |first.log| + |user.log|, kernel))
  }

  /** The process goes on only if no call made it give up and every entry was joined. */
  predicate Succeeds(types: seq<NsType>, kernel: Kernel) {
    var run := AllPasses(types, kernel);
    !run.GaveUp() && AllJoined(types, run.Log())
  }

  predicate AllJoined(types: seq<NsType>, log: seq<Attempt>) {
    forall e :: 0 <= e < |types| ==> Joins(log, e) > 0
  }

  /** No entry is joined twice, whatever setns permits and however the list repeats types. */
  lemma JoinedAtMostOnce(types: seq<NsType>, kernel: Kernel, e: nat)
    requires e < |types|
    ensures Joins(AllPasses(types, kernel).Log(), e) <= 1
  {
    var run := AllPasses(types, kernel);
    JoinsAppend(run.first.log + run.user.log, run.last.log, e);
    JoinsAppend(run.first.log, run.user.log, e);
    var others := TypesOf(types) - {USER};
    PassJoins(types, others, 0, 0, kernel, e);
    if !run.first.gaveUp {
      PassJoins(types, {USER}, 0, |run.first.log|, kernel, e);
      if !run.user.gaveUp {
        var again := others - JoinedTypes(types, run.first.log) - JoinedTypes(types, run.user.log);
        PassJoins(types, again, 0, |run.first.log| + |run.user.log|, kernel, e);
        if Joins(run.first.log, e) > 0 { assert types[e] in JoinedTypes(types, run.first.log); }
      }
    }
  }

  /** The j-th of these calls is the (k + j)-th of all, and the last one is the only one to give up at. */
  ghost predicate Answered(types: seq<NsType>, p: Pass, k: nat, kernel: Kernel) {
    forall j :: 0 <= j < |p.log| ==>
      && p.log[j].entry < |types| && p.log[j].outcome == kernel.setns(k + j)
      && (GivesUpAt(types, p.log[j], kernel.setresuid(k + j)) <==> p.gaveUp && j == |p.log| - 1)
  }

  /** A call that fails, other than for want of permission, or joins a user namespace without becoming root. */
  predicate GivesUpAt(types: seq<NsType>, a: Attempt, becameRoot: bool)
    requires a.entry < |types|
  {
    a.outcome == Failure || (a.outcome == Joined && types[a.entry] == USER && !becameRoot)
  }

  lemma {:induction false} PassAnswered(types: seq<NsType>, allow: set<NsType>, i: nat, k: nat, kernel: Kernel)
    requires i <= |types|
    ensures var p := PassFrom(types, allow, i, k, kernel); Answered(types, p, k, kernel) && (p.gaveUp ==> p.log != [])
    decreases |types| - i
  {
    if i < |types| {
      if types[i] in allow {
        PassAnswered(types, allow, i + 1, k + 1, kernel);
        var p := PassFrom(types, allow, i, k, kernel);
        if !kernel.Gives(k, types[i]) {
          var rest := PassFrom(types, allow, i + 1, k + 1, kernel);
          forall j | 0 < j < |p.log| ensures p.log[j] == rest.log[j - 1] && k + 1 + (j - 1) == k + j {}
        }
      } else {
        PassAnswered(types, allow, i + 1, k, kernel);
      }
    }
  }

  /**
   The k-th call gets the kernel's k-th answer; and the process gives up if and only if some call fails other
   than for want of permission, or joins a user namespace without becoming root in it. It is the last call.
   */
  lemma GivesUpIff(types: seq<NsType>, kernel: Kernel)
    ensures var run := AllPasses(types, kernel); var log := run.Log();
      forall k :: 0 <= k < |log| ==>
        && log[k].entry < |types| && log[k].outcome == kernel.setns(k)
        && (GivesUpAt(types, log[k], kernel.setresuid(k)) <==> run.GaveUp() && k == |log| - 1)
  {
    hide PassFrom, JoinedTypes, TypesOf;
    var run := AllPasses(types, kernel);
    var others := TypesOf(types) - {USER};
    PassAnswered(types, others, 0, 0, kernel);
    var a, b := |run.first.log|, |run.first.log| + |run.user.log|;
    PassAnswered(types, {USER}, 0, a, kernel);
    var again := others - JoinedTypes(types, run.first.log) - JoinedTypes(types, run.user.log);
    PassAnswered(types, again, 0, b, kernel);
    var log := run.Log();
    forall k | 0 <= k < |log|
      ensures && log[k].entry < |types| && log[k].outcome == kernel.setns(k)
              && (GivesUpAt(types, log[k], kernel.setresuid(k)) <==> run.GaveUp() && k == |log| - 1)
    {
      if k < a {
        assert log[k] == run.first.log[k];
      } else if k < b {
        assert log[k] == run.user.log[k - a] && a + (k - a) == k;
      } else {
        assert log[k] == run.last.log[k - b] && b + (k - b) == k;
      }
    }
  }

  /**
   The order of the calls: every entry that is not a user namespace is tried once, then the user
   namespace, and then only entries whose type has not been joined yet are tried once more.
   */
  lemma OrderOfCalls(types: seq<NsType>, kernel: Kernel)
    ensures var run := AllPasses(types, kernel);
      var others := TypesOf(types) - {USER};
      var again := others - JoinedTypes(types, run.first.log);
      && EntriesOf(run.first.log) <= Entries(types, others, 0)
      && (run.user.log != [] || run.last.log != [] ==> EntriesOf(run.first.log) == Entries(types, others, 0))
      && EntriesOf(run.user.log) <= Entries(types, {USER}, 0)
      && (run.last.log != [] ==> EntriesOf(run.user.log) == Entries(types, {USER}, 0))
      && EntriesOf(run.last.log) <= Entries(types, again, 0)
      && (!run.GaveUp() ==> EntriesOf(run.last.log) == Entries(types, again, 0))
  {
    var run := AllPasses(types, kernel);
    var others := TypesOf(types) - {USER};
    PassTries(types, others, 0, 0, kernel);
    if !run.first.gaveUp {
      PassTries(types, {USER}, 0, |run.first.log|, kernel);
      if !run.user.gaveUp {
        UserPassJoinsUser(types, |run.first.log|, kernel);
        var again := others - JoinedTypes(types, run.first.log);
        assert again == again - JoinedTypes(types, run.user.log);
        PassTries(types, again, 0, |run.first.log| + |run.user.log|, kernel);
      }
    }
  }

  lemma UserPassJoinsUser(types: seq<NsType>, k: nat, kernel: Kernel)
    ensures JoinedTypes(types, PassFrom(types, {USER}, 0, k, kernel).log) <= {USER}
  {
    var log := PassFrom(types, {USER}, 0, k, kernel).log;
    forall e | 0 <= e < |types| && Joins(log, e) > 0
      ensures types[e] == USER
    {
      PassJoins(types, {USER}, 0, k, kernel, e);
    }
  }

  // ----- the code, with its descriptors -----

  /** A descriptor is closed, and set to -1, exactly when its entry has been joined. */
  ghost predicate Tracks(fds: array<int>, types: seq<NsType>, log: seq<Attempt>)
    reads fds
  {
    fds.Length == |types| && forall e :: 0 <= e < |types| ==> (fds[e] < 0 <==> Joins(log, e) > 0)
  }

  /** The calls that a pass has dealt with: the one at which it gives up leaves its descriptor open. */
  function Settled(p: Pass): seq<Attempt> { if p.gaveUp && p.log != [] then p.log[..|p.log| - 1] else p.log }

  lemma JoinsOne(log: seq<Attempt>, a: Attempt, e: nat)
    ensures Joins(log + [a], e) == Joins(log, e) + if a == Attempt(e, Joined) then 1 else 0
  {
    JoinsAppend(log, [a], e);
    assert Joins([a], e) == (if a == Attempt(e, Joined) then 1 else 0) + Joins([a][1..], e);
  }

  lemma JoinedTypesOne(types: seq<NsType>, log: seq<Attempt>, a: Attempt)
    requires a.entry < |types|
    ensures JoinedTypes(types, log + [a]) ==
      JoinedTypes(types, log) + if a.outcome == Joined then {types[a.entry]} else {}
  {
    forall e: nat ensures Joins(log + [a], e) == Joins(log, e) + if a == Attempt(e, Joined) then 1 else 0 {
      JoinsOne(log, a, e);
    }
    hide Joins;
    var after, before := JoinedTypes(types, log + [a]), JoinedTypes(types, log);
    forall t | t in before
      ensures t in after
    {
      var e :| 0 <= e < |types| && Joins(log, e) > 0 && types[e] == t;
      assert Joins(log + [a], e) > 0;
    }
    if a.outcome == Joined { assert Joins(log + [a], a.entry) > 0; }
  }

  lemma JoinsMore(done: seq<Attempt>, log: seq<Attempt>, a: Attempt)
    ensures forall e: nat ::
      Joins(done + (log + [a]), e) == Joins(done + log, e) + if a == Attempt(e, Joined) then 1 else 0
  {
    hide Joins;
    forall e: nat
      ensures Joins(done + (log + [a]), e) == Joins(done + log, e) + if a == Attempt(e, Joined) then 1 else 0
    {
      assert done + (log + [a]) == (done + log) + [a];
      JoinsOne(done + log, a, e);
    }
  }

  lemma PassStart(types: seq<NsType>, allow: set<NsType>, k: nat, kernel: Kernel)
    ensures JoinedTypes(types, []) == {}
    ensures var all := PassFrom(types, allow, 0, k, kernel); [] + all.log == all.log
  {
  }

  lemma PassEnd(types: seq<NsType>, allow: set<NsType>, k: nat, kernel: Kernel)
    ensures PassFrom(types, allow, |types|, k, kernel) == Pass([], false)
  {
  }

  lemma PassSkips(types: seq<NsType>, allow: set<NsType>, i: nat, k: nat, kernel: Kernel)
    requires i < |types| && types[i] !in allow
    ensures PassFrom(types, allow, i, k, kernel) == PassFrom(types, allow, i + 1, k, kernel)
  {
  }

  lemma PassNext(types: seq<NsType>, allow: set<NsType>, i: nat, k: nat, kernel: Kernel, log: seq<Attempt>)
    requires i < |types| && types[i] in allow
    ensures var pass, rest := PassFrom(types, allow, i, k, kernel), PassFrom(types, allow, i + 1, k + 1, kernel);
      var a := Attempt(i, kernel.setns(k));
      if kernel.Gives(k, types[i]) then log + pass.log == log + [a] && pass.gaveUp
      else log + pass.log == log + [a] + rest.log && pass.gaveUp == rest.gaveUp
  {
  }

  /** One pass; the descriptor of an entry that is tried is still open. */
  method JoinPass(
    allow: set<NsType>, types: seq<NsType>, fds: array<int>, ghost done: seq<Attempt>, k: nat, kernel: Kernel)
    returns (joined: set<NsType>, gaveUp: bool, calls: nat, ghost log: seq<Attempt>)
    requires Tracks(fds, types, done)
    requires forall e :: 0 <= e < |types| && types[e] in allow ==> fds[e] >= 0
    modifies fds
    ensures PassFrom(types, allow, 0, k, kernel) == Pass(log, gaveUp) && calls == k + |log|
    ensures Tracks(fds, types, done + Settled(Pass(log, gaveUp))) && joined == JoinedTypes(types, log)
  {
    hide PassFrom, Joins, JoinedTypes;
    joined, calls, log := {}, k, [];
    PassStart(types, allow, k, kernel);
    ghost var all := PassFrom(types, allow, 0, k, kernel);
    assert done + log == done;
    var i := 0;
    while i < |types|
      invariant i <= |types| && calls == k + |log|
      invariant forall e :: i <= e < |types| && types[e] in allow ==> fds[e] >= 0
      invariant Tracks(fds, types, done + log) && joined == JoinedTypes(types, log)
      invariant var rest := PassFrom(types, allow, i, calls, kernel); all == Pass(log + rest.log, rest.gaveUp)
    {
      if types[i] in allow {
        assert fds[i] >= 0;
        var outcome := kernel.setns(calls);
        ghost var a := Attempt(i, outcome);
        JoinsMore(done, log, a);
        JoinedTypesOne(types, log, a);
        PassNext(types, allow, i, calls, kernel, log);
        ghost var before := log;
        log := log + [a];
        assert log[..|log| - 1] == before;
        calls := calls + 1;
        if outcome == Failure {
          return joined, true, calls, log;
        }
        if outcome == Joined {
          joined := joined + {types[i]};
          if types[i] == USER && !kernel.setresuid(calls - 1) {
            return joined, true, calls, log;
          }
          fds[i] := -1;
        }
      } else {
        PassSkips(types, allow, i, calls, kernel);
      }
      i := i + 1;
    }
    PassEnd(types, allow, calls, kernel);
    gaveUp := false;
  }

  /** The check at the end: no type and no descriptor may be left over. */
  method CloseNamespaces(toJoin: set<NsType>, joined: set<NsType>, types: seq<NsType>, fds: array<int>)
    returns (ok: bool)
    requires fds.Length == |types|
    modifies fds
    ensures ok <==> toJoin <= joined && forall e :: 0 <= e < |types| ==> old(fds[e]) < 0
    ensures forall e :: 0 <= e < |types| ==> fds[e] < 0
  {
    var failed := toJoin - joined;
    ghost var left := false;
    var i := 0;
    while i < |types|
      invariant i <= |types|
      invariant forall e :: 0 <= e < i ==> fds[e] < 0
      invariant forall e :: i <= e < |types| ==> fds[e] == old(fds[e])
      invariant left <==> exists e :: 0 <= e < i && old(fds[e]) >= 0
      invariant left ==> failed != {}
      invariant !left ==> failed == toJoin - joined
    {
      if fds[i] >= 0 {
        failed := failed + {types[i]};
        assert types[i] in failed;
        left := true;
        fds[i] := -1;
      }
      i := i + 1;
    }
    assert toJoin <= (toJoin - joined) + joined;
    ok := failed == {};
  }

  /** The run up to and including its first pass that gives up. */
  lemma EarlyEnd(types: seq<NsType>, kernel: Kernel)
    ensures var others := TypesOf(types) - {USER};
      var first := PassFrom(types, others, 0, 0, kernel);
      var user := PassFrom(types, {USER}, 0, |first.log|, kernel);
      && (first.gaveUp ==> AllPasses(types, kernel).Log() == first.log && !Succeeds(types, kernel))
      && (!first.gaveUp && user.gaveUp ==>
            AllPasses(types, kernel).Log() == first.log + user.log && !Succeeds(types, kernel))
  {
    hide PassFrom;
  }

  lemma LateEnd(types: seq<NsType>, kernel: Kernel, first: seq<Attempt>, user: seq<Attempt>)
    requires var others := TypesOf(types) - {USER};
      && PassFrom(types, others, 0, 0, kernel) == Pass(first, false)
      && PassFrom(types, {USER}, 0, |first|, kernel) == Pass(user, false)
    ensures var joined := JoinedTypes(types, first) + JoinedTypes(types, user);
      var again := TypesOf(types) - joined - {USER};
      var last := PassFrom(types, again, 0, |first| + |user|, kernel);
      && AllPasses(types, kernel).Log() == first + user + last.log
      && (Succeeds(types, kernel) <==>
            !last.gaveUp && AllJoined(types, first + user + last.log))
  {
    hide PassFrom;
    assert TypesOf(types) - (JoinedTypes(types, first) + JoinedTypes(types, user)) - {USER}
        == (TypesOf(types) - {USER}) - JoinedTypes(types, first) - JoinedTypes(types, user);
    var run := AllPasses(types, kernel);
    assert run.first == Pass(first, false) && run.user == Pass(user, false);
    assert run.Log() == first + user + run.last.log && run.GaveUp() == run.last.gaveUp;
  }

  /** What may be tried again has not been joined. */
  lemma RetryIsOpen(types: seq<NsType>, first: seq<Attempt>, user: seq<Attempt>)
    ensures var joined := JoinedTypes(types, first) + JoinedTypes(types, user);
      forall e :: 0 <= e < |types| && types[e] !in joined ==> Joins(first + user, e) == 0
  {
    forall e | 0 <= e < |types| && types[e] !in JoinedTypes(types, first) + JoinedTypes(types, user)
      ensures Joins(first + user, e) == 0
    {
      JoinsAppend(first, user, e);
    }
  }

  lemma NothingJoined()
    ensures forall e: nat :: Joins([], e) == 0
  {
  }

  lemma SuccessJoinsOnce(types: seq<NsType>, kernel: Kernel)
    ensures Succeeds(types, kernel) ==>
      forall e :: 0 <= e < |types| ==> Joins(AllPasses(types, kernel).Log(), e) == 1
  {
    hide AllPasses;
    forall e | 0 <= e < |types|
      ensures Joins(AllPasses(types, kernel).Log(), e) <= 1
    {
      JoinedAtMostOnce(types, kernel, e);
    }
  }

  /** The process goes on exactly if no call made it give up and every entry was joined. */
  method Join(types: seq<NsType>, kernel: Kernel) returns (ok: bool, ghost log: seq<Attempt>)
    ensures ok <==> Succeeds(types, kernel)
    ensures log == AllPasses(types, kernel).Log()
    ensures ok ==> forall e :: 0 <= e < |types| ==> Joins(log, e) == 1
  {
    hide PassFrom, Joins, JoinedTypes, TypesOf, AllPasses, Succeeds;
    var fds := new int[|types|](i => i);
    var toJoin := TypesOf(types);
    NothingJoined();
    EarlyEnd(types, kernel);
    FirstPassLeavesUser(types, kernel);
    SuccessJoinsOnce(types, kernel);
    var joined, gaveUp, calls;
    joined, gaveUp, calls, log := JoinPass(toJoin - {USER}, types, fds, [], 0, kernel);
    ghost var first := log;
    assert [] + first == first;
    if gaveUp {
      return false, log;
    }
    var more;
    ghost var user;
    more, gaveUp, calls, user := JoinPass({USER}, types, fds, first, calls, kernel);
    joined, log := joined + more, log + user;
    if gaveUp {
      return false, log;
    }
    LateEnd(types, kernel, first, user);
    RetryIsOpen(types, first, user);
    ghost var last;
    more, gaveUp, calls, last := JoinPass(toJoin - joined - {USER}, types, fds, log, calls, kernel);
    joined, log := joined + more, log + last;
    if gaveUp {
      return false, log;
    }
    JoinedTypesOfAll(types, first, user, last);
    ok := CloseNamespaces(toJoin, joined, types, fds);
  }

  /** The first pass joins no user namespace. */
  lemma FirstPassLeavesUser(types: seq<NsType>, kernel: Kernel)
    ensures var log := PassFrom(types, TypesOf(types) - {USER}, 0, 0, kernel).log;
      forall e :: 0 <= e < |types| && types[e] == USER ==> Joins(log, e) == 0
  {
    var log := PassFrom(types, TypesOf(types) - {USER}, 0, 0, kernel).log;
    forall e | 0 <= e < |types| && types[e] == USER
      ensures Joins(log, e) == 0
    {
      PassJoins(types, TypesOf(types) - {USER}, 0, 0, kernel, e);
    }
  }

  /** If every entry was joined then so was every type. */
  lemma JoinedTypesOfAll(types: seq<NsType>, a: seq<Attempt>, b: seq<Attempt>, c: seq<Attempt>)
    ensures AllJoined(types, a + b + c) ==>
      TypesOf(types) <= JoinedTypes(types, a) + JoinedTypes(types, b) + JoinedTypes(types, c)
  {
    if AllJoined(types, a + b + c) {
      forall t | t in types
        ensures t in JoinedTypes(types, a) + JoinedTypes(types, b) + JoinedTypes(types, c)
      {
        var e :| 0 <= e < |types| && types[e] == t;
        JoinsAppend(a + b, c, e);
        JoinsAppend(a, b, e);
      }
    }
  }
}
