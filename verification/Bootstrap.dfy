/**
 What runc tells the C side of `runc init` (bootstrapData and orderNamespacePaths in
 libcontainer/container_linux.go), and how that side takes the namespace list apart
 (__open_namespaces in libcontainer/nsenter/nsexec.c).
 */
module Bootstrap {
  import opened Wrappers
  import opened Netlink
  import opened Separated

  // ----- namespace types -----

  datatype NsType = NEWUSER | NEWIPC | NEWUTS | NEWNET | NEWPID | NEWNS | NEWCGROUP | NEWTIME

  const NS_TYPES: seq<NsType> := [NEWUSER, NEWIPC, NEWUTS, NEWNET, NEWPID, NEWNS, NEWCGROUP, NEWTIME]

  const COMMA: byte := 44
  const COLON: byte := 58

  /** The names user, ipc, uts, net, pid, mnt, cgroup and time in ASCII. */
  function NsName(t: NsType): (r: seq<byte>)
    ensures r != [] && COMMA !in r && COLON !in r && 0 !in r
  {
    match t
    case NEWUSER => [117, 115, 101, 114]
    case NEWIPC => [105, 112, 99]
    case NEWUTS => [117, 116, 115]
    case NEWNET => [110, 101, 116]
    case NEWPID => [112, 105, 100]
    case NEWNS => [109, 110, 116]
    case NEWCGROUP => [99, 103, 114, 111, 117, 112]
    case NEWTIME => [116, 105, 109, 101]
  }

  /** The clone flag of a type on the Go side. */
  function CloneFlag(t: NsType): nat {
    match t
    case NEWUSER => 0x1000_0000
    case NEWIPC => 0x0800_0000
    case NEWUTS => 0x0400_0000
    case NEWNET => 0x4000_0000
    case NEWPID => 0x2000_0000
    case NEWNS => 0x0002_0000
    case NEWCGROUP => 0x0200_0000
    case NEWTIME => 0x80
  }

  datatype NsEntry = NsEntry(flag: nat, name: seq<byte>)

  /** The table of the C side, in its order. */
  const ALL_NS_TYPES: seq<NsEntry> := [
    NsEntry(0x0200_0000, [99, 103, 114, 111, 117, 112]),
    NsEntry(0x0800_0000, [105, 112, 99]),
    NsEntry(0x0002_0000, [109, 110, 116]),
    NsEntry(0x4000_0000, [110, 101, 116]),
    NsEntry(0x2000_0000, [112, 105, 100]),
    NsEntry(0x80, [116, 105, 109, 101]),
    NsEntry(0x1000_0000, [117, 115, 101, 114]),
    NsEntry(0x0400_0000, [117, 116, 115])]

  predicate InTable(name: seq<byte>, flag: nat) { NsEntry(flag, name) in ALL_NS_TYPES }

  /** The C side knows exactly the names that the Go side writes, with the same flags. */
  lemma TablesAgree(name: seq<byte>, flag: nat)
    ensures InTable(name, flag) <==> exists t :: NsName(t) == name && CloneFlag(t) == flag
  {
    if InTable(name, flag) {
      var i :| 0 <= i < |ALL_NS_TYPES| && ALL_NS_TYPES[i] == NsEntry(flag, name);
      var t := [NEWCGROUP, NEWIPC, NEWNS, NEWNET, NEWPID, NEWTIME, NEWUSER, NEWUTS][i];
      assert NsName(t) == name && CloneFlag(t) == flag;
    }
    if t :| NsName(t) == name && CloneFlag(t) == flag {
      var i := match t
        case NEWCGROUP => 0 case NEWIPC => 1 case NEWNS => 2 case NEWNET => 3
        case NEWPID => 4 case NEWTIME => 5 case NEWUSER => 6 case NEWUTS => 7;
      assert ALL_NS_TYPES[i] == NsEntry(flag, name);
    }
  }

  /** The search of nstype. */
  method NsTypeOf(name: seq<byte>) returns (r: Option<nat>)
    ensures r.Some? ==> exists t :: NsName(t) == name && CloneFlag(t) == r.value
    ensures r.None? ==> forall t :: NsName(t) != name
  {
    for i := 0 to |ALL_NS_TYPES|
      invariant forall k :: 0 <= k < i ==> ALL_NS_TYPES[k].name != name
    {
      if ALL_NS_TYPES[i].name == name {
        TablesAgree(name, ALL_NS_TYPES[i].flag);
        return Some(ALL_NS_TYPES[i].flag);
      }
    }
    forall t ensures NsName(t) != name { TablesAgree(name, CloneFlag(t)); }
    r := None;
  }

  // ----- the list that runc writes -----

  /** The namespace types the kernel supports, and the paths that exist and can be opened. */
  datatype Env = Env(supported: set<NsType>, exist: seq<byte> -> bool, opens: seq<byte> -> bool) {
    /** No file has a path with a zero byte. */
    ghost predicate Valid() { forall p :: exist(p) ==> 0 !in p }
  }

  predicate Joins(contained: set<NsType>, nsMaps: map<NsType, seq<byte>>, t: NsType) {
    t in contained && t in nsMaps && nsMaps[t] != []
  }

  predicate Joinable(env: Env, t: NsType, path: seq<byte>) {
    t in env.supported && env.exist(path) && COMMA !in path
  }

  function EntryOf(t: NsType, path: seq<byte>): seq<byte> { NsName(t) + [COLON] + path }

  datatype Pair = Pair(t: NsType, path: seq<byte>)

  /** The namespaces to join, in the order of NS_TYPES, among the first n types. */
  function Pairs(contained: set<NsType>, nsMaps: map<NsType, seq<byte>>, n: nat): (r: seq<Pair>)
    requires n <= |NS_TYPES|
    ensures forall p <- r :: Joins(contained, nsMaps, p.t) && p.path == nsMaps[p.t]
    ensures forall i :: 0 <= i < n && Joins(contained, nsMaps, NS_TYPES[i]) ==>
      Pair(NS_TYPES[i], nsMaps[NS_TYPES[i]]) in r
  {
    if n == 0 then []
    else
      var t := NS_TYPES[n - 1];
      var first := Pairs(contained, nsMaps, n - 1);
      if Joins(contained, nsMaps, t) then first + [Pair(t, nsMaps[t])] else first
  }

  /** The user namespace comes first, then ipc, uts, net, pid, mnt, cgroup and time. */
  function Position(t: NsType): nat {
    match t
    case NEWUSER => 0
    case NEWIPC => 1
    case NEWUTS => 2
    case NEWNET => 3
    case NEWPID => 4
    case NEWNS => 5
    case NEWCGROUP => 6
    case NEWTIME => 7
  }

  predicate Ascending(pairs: seq<Pair>, n: nat) {
    && (forall i :: 0 <= i < |pairs| ==> Position(pairs[i].t) < n)
    && (forall i, j :: 0 <= i < j < |pairs| ==> Position(pairs[i].t) < Position(pairs[j].t))
  }

  lemma {:induction false} PairsInOrder(contained: set<NsType>, nsMaps: map<NsType, seq<byte>>, n: nat)
    requires n <= |NS_TYPES|
    ensures Ascending(Pairs(contained, nsMaps, n), n)
  {
    if n > 0 {
      PairsInOrder(contained, nsMaps, n - 1);
      PositionOf(n - 1);
      var first, pairs := Pairs(contained, nsMaps, n - 1), Pairs(contained, nsMaps, n);
      forall i | 0 <= i < |pairs|
        ensures if i < |first| then pairs[i] == first[i] && Position(pairs[i].t) < n - 1
                else i == |first| && Position(pairs[i].t) == n - 1
      {
        if i < |first| { assert Position(first[i].t) < n - 1; }
      }
      forall i, j | 0 <= i < j < |pairs|
        ensures Position(pairs[i].t) < Position(pairs[j].t)
      {
        assert Position(first[i].t) < n - 1;
      }
    }
  }

  lemma PositionOf(i: nat)
    requires i < |NS_TYPES|
    ensures Position(NS_TYPES[i]) == i
  {
    assert NS_TYPES[0] == NEWUSER && NS_TYPES[1] == NEWIPC && NS_TYPES[2] == NEWUTS && NS_TYPES[3] == NEWNET;
    assert NS_TYPES[4] == NEWPID && NS_TYPES[5] == NEWNS && NS_TYPES[6] == NEWCGROUP && NS_TYPES[7] == NEWTIME;
  }

  /** To join are exactly the configured namespaces that have a path, in the fixed order. */
  lemma PairsAre(contained: set<NsType>, nsMaps: map<NsType, seq<byte>>, t: NsType, path: seq<byte>)
    ensures var pairs := Pairs(contained, nsMaps, |NS_TYPES|);
      && (Pair(t, path) in pairs <==> t in contained && t in nsMaps && nsMaps[t] == path && path != [])
      && (forall i, j :: 0 <= i < j < |pairs| ==> Position(pairs[i].t) < Position(pairs[j].t))
  {
    PairsInOrder(contained, nsMaps, |NS_TYPES|);
    TypeIndex(t);
    hide Pairs, Position;
  }

  lemma TypeIndex(t: NsType)
    ensures exists i :: 0 <= i < |NS_TYPES| && NS_TYPES[i] == t
  {
    PositionOf(Position(t));
    assert NS_TYPES[Position(t)] == t;
  }

  function Written(pairs: seq<Pair>): seq<seq<byte>> {
    if pairs == [] then []
    else Written(pairs[..|pairs| - 1]) + [EntryOf(pairs[|pairs| - 1].t, pairs[|pairs| - 1].path)]
  }

  predicate AllJoinable(env: Env, pairs: seq<Pair>) {
    forall i :: 0 <= i < |pairs| ==> Joinable(env, pairs[i].t, pairs[i].path)
  }

  method OrderNamespacePaths(contained: set<NsType>, nsMaps: map<NsType, seq<byte>>, env: Env)
    returns (r: Option<seq<seq<byte>>>)
    ensures var pairs := Pairs(contained, nsMaps, |NS_TYPES|);
      && (r.Some? <==> AllJoinable(env, pairs))
      && (r.Some? ==> r.value == Written(pairs))
  {
    var paths: seq<seq<byte>> := [];
    ghost var pairs: seq<Pair> := [];
    for n := 0 to |NS_TYPES|
      invariant pairs == Pairs(contained, nsMaps, n) && AllJoinable(env, pairs) && paths == Written(pairs)
    {
      var t := NS_TYPES[n];
      if t in contained && t in nsMaps && nsMaps[t] != [] {
        if t !in env.supported || !env.exist(nsMaps[t]) || COMMA in nsMaps[t] {
          NotJoinable(contained, nsMaps, env, n, |NS_TYPES|);
          return None;
        }
        ghost var more := pairs + [Pair(t, nsMaps[t])];
        assert more[..|more| - 1] == pairs;
        paths := paths + [NsName(t) + [COLON] + nsMaps[t]];
        pairs := more;
      }
    }
    r := Some(paths);
  }

  lemma NotJoinable(contained: set<NsType>, nsMaps: map<NsType, seq<byte>>, env: Env, i: nat, n: nat)
    requires i < n <= |NS_TYPES| && Joins(contained, nsMaps, NS_TYPES[i])
    requires !Joinable(env, NS_TYPES[i], nsMaps[NS_TYPES[i]])
    ensures !AllJoinable(env, Pairs(contained, nsMaps, n))
  {
    var pairs := Pairs(contained, nsMaps, n);
    var k :| 0 <= k < |pairs| && pairs[k] == Pair(NS_TYPES[i], nsMaps[NS_TYPES[i]]);
  }

  // ----- the list as the C side reads it -----

  /** A C string ends at its first zero byte. */
  function CString(s: seq<byte>): seq<byte> { s[..IndexOf(s, 0)] }

  datatype Namespace = Namespace(typ: seq<byte>, path: seq<byte>)

  datatype OpenError = Empty | NoColon | CannotOpen | UnknownType

  datatype Opened = Failed(e: OpenError) | Namespaces(list: seq<Namespace>)

  predicate IsName(name: seq<byte>) { exists t: NsType :: NsName(t) == name }

  /** One token: split at the first colon, open the path, look up the type. */
  function OpenToken(token: seq<byte>, env: Env): Opened {
    var k := IndexOf(token, COLON);
    if k == |token| then Failed(NoColon)
    else if !env.opens(token[k + 1..]) then Failed(CannotOpen)
    else if !IsName(token[..k]) then Failed(UnknownType)
    else Namespaces([Namespace(token[..k], token[k + 1..])])
  }

  function OpenTokens(tokens: seq<seq<byte>>, env: Env): Opened {
    if tokens == [] then Namespaces([])
    else
      var first := OpenToken(tokens[0], env);
      if first.Failed? then first
      else
        var rest := OpenTokens(tokens[1..], env);
        if rest.Failed? then rest else Namespaces(first.list + rest.list)
  }

  /** The entries of a list, or why the C side gives up on it. */
  function OpenAll(nsspec: seq<byte>, env: Env): Opened {
    var tokens := Tokens(nsspec, COMMA);
    if tokens == [] then Failed(Empty) else OpenTokens(tokens, env)
  }

  /** A token that the C side accepts: a known type, a colon, and a path that opens. */
  predicate Accepted(token: seq<byte>, env: Env) {
    && COLON in token
    && IsName(token[..IndexOf(token, COLON)]) && env.opens(token[IndexOf(token, COLON)..][1..])
  }

  ghost predicate AllAccepted(tokens: seq<seq<byte>>, env: Env) {
    forall i :: 0 <= i < |tokens| ==> Accepted(tokens[i], env)
  }

  /** The entries are the tokens, cut at their first colon. */
  ghost predicate Entries(tokens: seq<seq<byte>>, env: Env, list: seq<Namespace>) {
    && |list| == |tokens|
    && forall i :: 0 <= i < |tokens| ==>
        && tokens[i] == list[i].typ + [COLON] + list[i].path && COLON !in list[i].typ
        && IsName(list[i].typ) && env.opens(list[i].path)
  }

  lemma AllAcceptedNext(tokens: seq<seq<byte>>, env: Env)
    requires tokens != []
    ensures AllAccepted(tokens, env) <==> Accepted(tokens[0], env) && AllAccepted(tokens[1..], env)
  {
    hide Accepted;
    if AllAccepted(tokens, env) {
      forall i | 0 <= i < |tokens[1..]| ensures Accepted(tokens[1..][i], env) {
        assert tokens[1..][i] == tokens[i + 1];
      }
    } else if Accepted(tokens[0], env) {
      var i :| 0 <= i < |tokens| && !Accepted(tokens[i], env);
      assert tokens[i] == tokens[1..][i - 1];
    }
  }

  lemma EntriesNext(tokens: seq<seq<byte>>, env: Env, first: seq<Namespace>, rest: seq<Namespace>)
    requires tokens != [] && Entries([tokens[0]], env, first) && Entries(tokens[1..], env, rest)
    ensures Entries(tokens, env, first + rest)
  {
    hide IsName;
    forall i | 0 < i < |tokens| ensures tokens[i] == tokens[1..][i - 1] && (first + rest)[i] == rest[i - 1] {}
    assert [tokens[0]][0] == tokens[0];
  }

  lemma {:induction false} OpenTokensIff(tokens: seq<seq<byte>>, env: Env)
    ensures var r := OpenTokens(tokens, env);
      (r.Namespaces? <==> AllAccepted(tokens, env)) && (r.Namespaces? ==> Entries(tokens, env, r.list))
  {
    hide Accepted, OpenToken, IsName;
    if tokens != [] {
      OpenTokensIff(tokens[1..], env);
      OpenTokenIff(tokens[0], env);
      AllAcceptedNext(tokens, env);
      var r := OpenTokens(tokens, env);
      if r.Namespaces? {
        var first, rest := OpenToken(tokens[0], env).list, OpenTokens(tokens[1..], env).list;
        assert Entries([tokens[0]], env, first);
        EntriesNext(tokens, env, first, rest);
      }
    }
  }

  lemma OpenTokenIff(token: seq<byte>, env: Env)
    ensures var r := OpenToken(token, env);
      && (r.Namespaces? <==> Accepted(token, env))
      && (r.Namespaces? ==>
            && |r.list| == 1 && token == r.list[0].typ + [COLON] + r.list[0].path && COLON !in r.list[0].typ
            && IsName(r.list[0].typ) && env.opens(r.list[0].path))
  {
    hide IsName;
    var k := IndexOf(token, COLON);
    assert k < |token| ==> token == token[..k] + [COLON] + token[k + 1..] && token[k..][1..] == token[k + 1..];
    assert token[..|token|] == token;
  }

  /** Exactly the lists with at least one token, all of them accepted, are opened; and as they are written. */
  lemma OpenAllIff(nsspec: seq<byte>, env: Env)
    ensures var r, tokens := OpenAll(nsspec, env), Tokens(nsspec, COMMA);
      && (r.Namespaces? <==> tokens != [] && forall i :: 0 <= i < |tokens| ==> Accepted(tokens[i], env))
      && (r.Namespaces? ==>
            && |r.list| == |tokens|
            && forall i :: 0 <= i < |tokens| ==> tokens[i] == r.list[i].typ + [COLON] + r.list[i].path)
  {
    hide Accepted, OpenTokens;
    OpenTokensIff(Tokens(nsspec, COMMA), env);
  }

  lemma TokensFrom(s: seq<byte>, i: nat, j: nat)
    requires i < j <= |s| && COMMA !in s[i..j] && (j < |s| ==> s[j] == COMMA)
    ensures Tokens(s[i..], COMMA) == [s[i..j]] + Tokens(if j < |s| then s[j + 1..] else [], COMMA)
  {
    var t := s[i..];
    assert t[..j - i] == s[i..j] && t[0] == s[i..j][0];
    IndexOfIs(t, COMMA, j - i);
    if j < |s| { assert t[j - i + 1..] == s[j + 1..]; }
  }

  lemma TokensSkip(s: seq<byte>, i: nat)
    requires i < |s| && s[i] == COMMA
    ensures Tokens(s[i..], COMMA) == Tokens(s[i + 1..], COMMA)
  {
    assert s[i..][1..] == s[i + 1..];
  }

  method SkipCommas(s: seq<byte>) returns (i: nat)
    ensures i <= |s| && (i < |s| ==> s[i] != COMMA) && Tokens(s, COMMA) == Tokens(s[i..], COMMA)
  {
    i := 0;
    assert s[0..] == s;
    hide Tokens;
    while i < |s| && s[i] == COMMA
      invariant i <= |s| && Tokens(s, COMMA) == Tokens(s[i..], COMMA)
    {
      TokensSkip(s, i);
      i := i + 1;
    }
  }

  method FindComma(s: seq<byte>, i: nat) returns (j: nat)
    requires i < |s| && s[i] != COMMA
    ensures i < j <= |s| && COMMA !in s[i..j] && (j < |s| ==> s[j] == COMMA)
  {
    j := i;
    while j < |s| && s[j] != COMMA
      invariant i <= j <= |s| && forall k :: i <= k < j ==> s[k] != COMMA
    {
      j := j + 1;
    }
  }

  /** One call of strtok_r. */
  method Strtok(s: seq<byte>) returns (token: Option<seq<byte>>, rest: seq<byte>)
    ensures token.None? ==> Tokens(s, COMMA) == []
    ensures token.Some? ==> Tokens(s, COMMA) == [token.value] + Tokens(rest, COMMA) && |rest| < |s|
  {
    var i := SkipCommas(s);
    if i == |s| {
      assert s[i..] == [];
      return None, [];
    }
    var j := FindComma(s, i);
    TokensFrom(s, i, j);
    hide Tokens;
    token, rest := Some(s[i..j]), if j < |s| then s[j + 1..] else [];
  }

  /** The loop over the tokens, which grows the array of namespaces. */
  method OpenNamespaces(nsspec: seq<byte>, env: Env) returns (r: Opened)
    ensures r == OpenAll(nsspec, env)
  {
    var token, rest := Strtok(nsspec);
    if token.None? {
      return Failed(Empty);
    }
    ghost var all := OpenTokens(Tokens(nsspec, COMMA), env);
    ghost var left := Tokens(nsspec, COMMA);
    var list: seq<Namespace> := [];
    while token.Some?
      invariant token.Some? ==> left == [token.value] + Tokens(rest, COMMA)
      invariant token.None? ==> left == []
      invariant all == Extend(list, OpenTokens(left, env))
      decreases token.Some?, |rest|
    {
      var one := OpenToken(token.value, env);
      assert left[1..] == Tokens(rest, COMMA);
      if one.Failed? {
        return one;
      }
      list := list + one.list;
      left := Tokens(rest, COMMA);
      token, rest := Strtok(rest);
    }
    r := Namespaces(list);
  }

  function Extend(list: seq<Namespace>, o: Opened): Opened {
    if o.Failed? then o else Namespaces(list + o.list)
  }

  // ----- the list comes back -----

  lemma {:induction false} WrittenAt(pairs: seq<Pair>, i: nat)
    requires i < |pairs|
    ensures |Written(pairs)| == |pairs| && Written(pairs)[i] == EntryOf(pairs[i].t, pairs[i].path)
  {
    var front := pairs[..|pairs| - 1];
    if i < |front| {
      WrittenAt(front, i);
    } else if front != [] {
      WrittenAt(front, 0);
    }
  }

  lemma WrittenTail(pairs: seq<Pair>)
    requires pairs != []
    ensures |Written(pairs)| == |pairs|
    ensures Written(pairs)[0] == EntryOf(pairs[0].t, pairs[0].path) && Written(pairs)[1..] == Written(pairs[1..])
  {
    hide Written;
    WrittenAt(pairs, 0);
    var tail := pairs[1..];
    if tail == [] { assert Written(tail) == [] by { WrittenEmpty(); } } else { WrittenAt(tail, 0); }
    forall i | 0 <= i < |tail|
      ensures Written(pairs)[1..][i] == Written(tail)[i]
    {
      WrittenAt(pairs, i + 1);
      WrittenAt(tail, i);
    }
  }

  lemma WrittenEmpty()
    ensures Written([]) == []
  {
  }

  lemma EntrySplits(t: NsType, path: seq<byte>)
    ensures var e := EntryOf(t, path); var k := IndexOf(e, COLON);
      k < |e| && e[..k] == NsName(t) && e[k + 1..] == path
    ensures COMMA !in path ==> Clean(EntryOf(t, path), COMMA)
    ensures 0 !in path ==> 0 !in EntryOf(t, path)
  {
    var e := EntryOf(t, path);
    assert e[..|NsName(t)|] == NsName(t);
    IndexOfIs(e, COLON, |NsName(t)|);
  }

  function Expected(pairs: seq<Pair>): seq<Namespace> {
    if pairs == [] then [] else [Namespace(NsName(pairs[0].t), pairs[0].path)] + Expected(pairs[1..])
  }

  predicate AllOpen(env: Env, pairs: seq<Pair>) {
    forall i :: 0 <= i < |pairs| ==> env.opens(pairs[i].path)
  }

  lemma {:induction false} OpenWritten(pairs: seq<Pair>, env: Env)
    requires AllOpen(env, pairs)
    ensures OpenTokens(Written(pairs), env) == Namespaces(Expected(pairs))
  {
    if pairs != [] {
      WrittenTail(pairs);
      EntrySplits(pairs[0].t, pairs[0].path);
      hide Written, EntryOf;
      OpenWritten(pairs[1..], env);
    }
  }

  /**
   The C side gets the same types and paths in the same order, colons in paths included; a list
   without entries is the one that it refuses.
   */
  lemma NamespaceListRoundTrip(pairs: seq<Pair>, env: Env)
    requires AllJoinable(env, pairs) && AllOpen(env, pairs)
    ensures OpenAll(Join(Written(pairs), COMMA), env) ==
      if pairs == [] then Failed(Empty) else Namespaces(Expected(pairs))
  {
    if pairs != [] { WrittenAt(pairs, 0); }
    hide Written;
    if pairs == [] {
      WrittenEmpty();
    } else {
      forall i | 0 <= i < |pairs|
        ensures Clean(Written(pairs)[i], COMMA)
      {
        WrittenAt(pairs, i);
        EntrySplits(pairs[i].t, pairs[i].path);
      }
      TokensOfJoin(Written(pairs), COMMA);
      OpenWritten(pairs, env);
    }
  }

  // ----- the message -----

  /** What of a container's configuration goes into the message; maps and offsets are already printed. */
  datatype Container = Container(
    namespaces: set<NsType>, uidMap: Option<seq<byte>>, gidMap: Option<seq<byte>>,
    rootlessEuid: bool, needsMappingTool: bool,
    newuidmap: Option<seq<byte>>, newgidmap: Option<seq<byte>>,
    oomScoreAdj: Option<seq<byte>>, timeOffsets: Option<seq<byte>>)

  function Terminated(v: Option<seq<byte>>): Option<seq<byte>> {
    if v.Some? then Some(v.value + [0]) else None
  }

  /** The value, if the condition holds. */
  function When(cond: bool, v: Option<seq<byte>>): Option<seq<byte>> { if cond then v else None }

  /** What the C side is meant to know, field by field. */
  function Meant(c: Container, cloneFlags: nat, nsMaps: map<NsType, seq<byte>>, big: bool): NlConfig {
    var newUser := NEWUSER !in nsMaps;
    var list := Join(Written(Pairs(c.namespaces, nsMaps, |NS_TYPES|)), COMMA);
    NlConfig(
      cloneFlags % (UINT32_MAX + 1),
      SeenFlag(newUser && c.gidMap.Some? && c.needsMappingTool, big),
      SeenFlag(c.rootlessEuid, big),
      Terminated(c.oomScoreAdj),
      Terminated(When(|nsMaps| > 0, Some(list))),
      Terminated(When(newUser, c.uidMap)),
      Terminated(When(newUser, c.gidMap)),
      Terminated(When(newUser && c.uidMap.Some? && c.rootlessEuid, c.newuidmap)),
      Terminated(When(newUser && c.gidMap.Some? && c.rootlessEuid, c.newgidmap)),
      Terminated(When(NEWTIME !in nsMaps, c.timeOffsets)))
  }

  /** What the C side learns from the message, from the container alone. */
  ghost predicate Arrives(c: Container, cloneFlags: nat, nsMaps: map<NsType, seq<byte>>, big: bool, m: NlConfig) {
    && m.cloneflags == cloneFlags % 0x1_0000_0000
    // the maps of a new user namespace, and the programs that write them without privileges
    && m.uidmap == (if NEWUSER !in nsMaps && c.uidMap.Some? then Some(c.uidMap.value + [0]) else None)
    && m.gidmap == (if NEWUSER !in nsMaps && c.gidMap.Some? then Some(c.gidMap.value + [0]) else None)
    && m.uidmappath == (if NEWUSER !in nsMaps && c.uidMap.Some? && c.rootlessEuid && c.newuidmap.Some?
                        then Some(c.newuidmap.value + [0]) else None)
    && m.gidmappath == (if NEWUSER !in nsMaps && c.gidMap.Some? && c.rootlessEuid && c.newgidmap.Some?
                        then Some(c.newgidmap.value + [0]) else None)
    && (!big ==> (m.isSetgroup != 0 <==> NEWUSER !in nsMaps && c.gidMap.Some? && c.needsMappingTool))
    // whether this is a rootless runc, and the OOM score
    && (!big ==> (m.isRootlessEuid != 0 <==> c.rootlessEuid))
    && m.oomScoreAdj == (if c.oomScoreAdj.Some? then Some(c.oomScoreAdj.value + [0]) else None)
    // the offsets of a new time namespace
    && m.timensoffset == (if NEWTIME !in nsMaps && c.timeOffsets.Some? then Some(c.timeOffsets.value + [0]) else None)
    // a list of namespaces exactly if there are paths
    && (m.namespaces.Some? <==> |nsMaps| > 0)
  }

  lemma MeantArrives(c: Container, cloneFlags: nat, nsMaps: map<NsType, seq<byte>>, big: bool)
    ensures Arrives(c, cloneFlags, nsMaps, big, Meant(c, cloneFlags, nsMaps, big))
  {
    hide Pairs, Written, Join;
  }

  lemma {:induction false} StoreAppend(c: NlConfig, attrs: seq<Attr>, i: nat, a: Attr, big: bool)
    requires i <= |attrs|
    ensures StoreFrom(c, attrs + [a], i, big) == Store(StoreFrom(c, attrs, i, big), a, big)
    decreases |attrs| - i
  {
    if i < |attrs| { StoreAppend(Store(c, attrs[i], big), attrs, i + 1, a, big); }
  }

  predicate Small(v: Option<seq<byte>>) { v.Some? ==> |v.value| <= UINT16_MAX - NLA_HDRLEN }

  /** Every value fits the 16-bit length of its attribute. */
  predicate Fits(c: NlConfig) {
    && Small(c.oomScoreAdj) && Small(c.namespaces) && Small(c.uidmap) && Small(c.gidmap)
    && Small(c.uidmappath) && Small(c.gidmappath) && Small(c.timensoffset)
  }

  /** Nothing of this kind has been stored yet. */
  predicate Unset(c: NlConfig, typ: nat) {
    && (typ == NS_PATHS_ATTR ==> c.namespaces == None)
    && (typ == UIDMAP_ATTR ==> c.uidmap == None)
    && (typ == GIDMAP_ATTR ==> c.gidmap == None)
    && (typ == OOM_SCORE_ADJ_ATTR ==> c.oomScoreAdj == None)
    && (typ == UIDMAPPATH_ATTR ==> c.uidmappath == None)
    && (typ == GIDMAPPATH_ATTR ==> c.gidmappath == None)
    && (typ == TIMENSOFFSET_ATTR ==> c.timensoffset == None)
  }

  lemma StoreFits(c: NlConfig, a: Attr, big: bool)
    requires a.Valid() && Known(a) && Unset(c, a.typ)
    ensures Fits(Store(c, a, big)) <==> Fits(c) && Sendable(a)
  {
  }

  /** The attributes so far, and what they mean. */
  ghost predicate Means(attrs: seq<Attr>, seen: NlConfig, big: bool) {
    && AllKnown(attrs) && seen == StoreFrom(NOTHING, attrs, 0, big)
    && (forall i :: 0 <= i < |attrs| ==> attrs[i].Valid())
    && (AllSendable(attrs) <==> Fits(seen))
  }

  lemma SendableAppend(attrs: seq<Attr>, a: Attr)
    ensures AllSendable(attrs + [a]) <==> AllSendable(attrs) && Sendable(a)
  {
    var more := attrs + [a];
    assert more[|attrs|] == a;
    assert forall i :: 0 <= i < |attrs| ==> more[i] == attrs[i];
  }

  /** Adds an optional byte attribute. */
  method AddBytes(attrs: seq<Attr>, ghost seen: NlConfig, typ: nat, v: Option<seq<byte>>, ghost big: bool)
    returns (r: seq<Attr>, ghost now: NlConfig)
    requires Means(attrs, seen, big) && typ <= UINT16_MAX && Known(Bytemsg(typ, [])) && Unset(seen, typ)
    ensures Means(r, now, big) && |r| <= |attrs| + 1
    ensures now == if v.Some? then Store(seen, Bytemsg(typ, v.value), big) else seen
  {
    if v.Some? {
      r, now := Add(attrs, seen, Bytemsg(typ, v.value), big);
    } else {
      r, now := attrs, seen;
    }
  }

  method Add(attrs: seq<Attr>, ghost seen: NlConfig, a: Attr, ghost big: bool)
    returns (r: seq<Attr>, ghost now: NlConfig)
    requires Means(attrs, seen, big) && a.Valid() && Known(a) && Unset(seen, a.typ)
    ensures Means(r, now, big) && r == attrs + [a] && now == Store(seen, a, big)
  {
    r, now := attrs + [a], Store(seen, a, big);
    StoreAppend(NOTHING, attrs, 0, a, big);
    StoreFits(seen, a, big);
    SendableAppend(attrs, a);
    hide Known, Store, Fits, Sendable, AllSendable, Unset;
  }

  /** The user namespace's maps, and the programs that write them. */
  method AddUidMaps(attrs: seq<Attr>, ghost seen: NlConfig, c: Container, newUser: bool, ghost big: bool)
    returns (r: seq<Attr>, ghost now: NlConfig)
    requires Means(attrs, seen, big) && seen.uidmap == None && seen.uidmappath == None
    ensures Means(r, now, big) && |r| <= |attrs| + 2
    ensures now == seen.(
      uidmap := Terminated(When(newUser, c.uidMap)),
      uidmappath := Terminated(When(newUser && c.uidMap.Some? && c.rootlessEuid, c.newuidmap)))
  {
    r, now := attrs, seen;
    hide Means, Known;
    if newUser && c.uidMap.Some? {
      if c.rootlessEuid {
        r, now := AddBytes(r, now, UIDMAPPATH_ATTR, c.newuidmap, big);
      }
      r, now := AddBytes(r, now, UIDMAP_ATTR, c.uidMap, big);
    }
  }

  method AddGidMaps(attrs: seq<Attr>, ghost seen: NlConfig, c: Container, newUser: bool, ghost big: bool)
    returns (r: seq<Attr>, ghost now: NlConfig)
    requires Means(attrs, seen, big) && seen.gidmap == None && seen.gidmappath == None && seen.isSetgroup == 0
    ensures Means(r, now, big) && |r| <= |attrs| + 3
    ensures now == seen.(
      gidmap := Terminated(When(newUser, c.gidMap)),
      gidmappath := Terminated(When(newUser && c.gidMap.Some? && c.rootlessEuid, c.newgidmap)),
      isSetgroup := SeenFlag(newUser && c.gidMap.Some? && c.needsMappingTool, big))
  {
    r, now := attrs, seen;
    hide Means;
    if newUser && c.gidMap.Some? {
      r, now := AddBytes(r, now, GIDMAP_ATTR, c.gidMap, big);
      if c.rootlessEuid {
        r, now := AddBytes(r, now, GIDMAPPATH_ATTR, c.newgidmap, big);
      }
      if c.needsMappingTool {
        r, now := Add(r, now, Boolmsg(SETGROUP_ATTR, true), big);
      }
    }
  }

  /** The clone flags and the namespaces to join. */
  method AddNamespaces(c: Container, cloneFlags: nat, nsMaps: map<NsType, seq<byte>>, env: Env, ghost big: bool)
    returns (r: Option<seq<Attr>>, ghost now: NlConfig)
    ensures r.Some? <==> (|nsMaps| > 0 ==> AllJoinable(env, Pairs(c.namespaces, nsMaps, |NS_TYPES|)))
    ensures r.Some? ==> Means(r.value, now, big) && |r.value| <= 2
    ensures r.Some? ==> now == NOTHING.(
      cloneflags := cloneFlags % (UINT32_MAX + 1),
      namespaces := Terminated(When(|nsMaps| > 0, Some(Join(Written(Pairs(c.namespaces, nsMaps, |NS_TYPES|)), COMMA)))))
  {
    var attrs: seq<Attr> := [];
    now := NOTHING;
    assert Means(attrs, now, big);
    hide Means, Pairs, Written, Join, AllJoinable;
    attrs, now := Add(attrs, now, Int32msg(CLONE_FLAGS_ATTR, cloneFlags % (UINT32_MAX + 1)), big);
    if |nsMaps| > 0 {
      var paths := OrderNamespacePaths(c.namespaces, nsMaps, env);
      if paths.None? {
        return None, now;
      }
      attrs, now := AddBytes(attrs, now, NS_PATHS_ATTR, Some(Join(paths.value, COMMA)), big);
    }
    r := Some(attrs);
  }

  /** What is left. */
  method AddRest(attrs: seq<Attr>, ghost seen: NlConfig, c: Container, newTime: bool, ghost big: bool)
    returns (r: seq<Attr>, ghost now: NlConfig)
    requires Means(attrs, seen, big) && seen.oomScoreAdj == None && seen.timensoffset == None
    ensures Means(r, now, big) && |r| <= |attrs| + 3
    ensures now == seen.(
      oomScoreAdj := Terminated(c.oomScoreAdj),
      isRootlessEuid := SeenFlag(c.rootlessEuid, big),
      timensoffset := Terminated(When(newTime, c.timeOffsets)))
  {
    hide Means;
    r, now := AddBytes(attrs, seen, OOM_SCORE_ADJ_ATTR, c.oomScoreAdj, big);
    r, now := Add(r, now, Boolmsg(ROOTLESS_EUID_ATTR, c.rootlessEuid), big);
    if newTime {
      r, now := AddBytes(r, now, TIMENSOFFSET_ATTR, c.timeOffsets, big);
    }
  }

  /** Builds the message; the result parses, to its very end, to what the C side is meant to know. */
  method BootstrapData(
    c: Container, cloneFlags: nat, nsMaps: map<NsType, seq<byte>>, env: Env, sequence: nat, big: bool)
    returns (r: Option<seq<byte>>)
    requires sequence <= UINT32_MAX
    ensures r.Some? ==> ParseMessage(r.value, big) == Good(Meant(c, cloneFlags, nsMaps, big), 0)
    ensures r.Some? ==> Arrives(c, cloneFlags, nsMaps, big, ParseMessage(r.value, big).config)
    ensures r.Some? <==>
      && (|nsMaps| > 0 ==> AllJoinable(env, Pairs(c.namespaces, nsMaps, |NS_TYPES|)))
      && Fits(Meant(c, cloneFlags, nsMaps, big))
  {
    hide Pairs, Written, Join, AllJoinable, Terminated, When, SeenFlag, Fits, AllSendable;
    var first, seen0 := AddNamespaces(c, cloneFlags, nsMaps, env, big);
    if first.None? {
      return None;
    }
    var attrs, seen1 := AddUidMaps(first.value, seen0, c, NEWUSER !in nsMaps, big);
    var attrs2, seen2 := AddGidMaps(attrs, seen1, c, NEWUSER !in nsMaps, big);
    var attrs3, seen3 := AddRest(attrs2, seen2, c, NEWTIME !in nsMaps, big);
    assert seen3 == Meant(c, cloneFlags, nsMaps, big);
    MeantArrives(c, cloneFlags, nsMaps, big);
    hide Meant, ParseMessage, Message, Arrives;
    r := SerializeRequest(attrs3, sequence, big);
    if r.Some? {
      MessageRoundTrip(attrs3, sequence, big);
    }
  }

  // ----- both sides together -----

  /** What the C side makes of the namespace list of a message that runc built. */
  lemma NamespacesArrive(c: Container, cloneFlags: nat, nsMaps: map<NsType, seq<byte>>, env: Env, big: bool)
    requires env.Valid() && |nsMaps| > 0
    requires var pairs := Pairs(c.namespaces, nsMaps, |NS_TYPES|); AllJoinable(env, pairs) && AllOpen(env, pairs)
    ensures var pairs := Pairs(c.namespaces, nsMaps, |NS_TYPES|);
      var v := Meant(c, cloneFlags, nsMaps, big).namespaces;
      && v.Some?
      && OpenAll(CString(v.value), env) == if pairs == [] then Failed(Empty) else Namespaces(Expected(pairs))
  {
    var pairs := Pairs(c.namespaces, nsMaps, |NS_TYPES|);
    var list := Join(Written(pairs), COMMA);
    ListHasNoZero(pairs, env);
    var v := list + [0];
    assert v[..|list|] == list;
    IndexOfIs(v, 0, |list|);
    hide Pairs, Written, Join;
    NamespaceListRoundTrip(pairs, env);
  }

  /** Exactly when the C side refuses the list that runc wrote for it: there was nothing to join. */
  lemma ListRefusedIff(c: Container, cloneFlags: nat, nsMaps: map<NsType, seq<byte>>, env: Env, big: bool)
    requires env.Valid() && |nsMaps| > 0
    requires var pairs := Pairs(c.namespaces, nsMaps, |NS_TYPES|); AllJoinable(env, pairs) && AllOpen(env, pairs)
    ensures var v := Meant(c, cloneFlags, nsMaps, big).namespaces;
      && v.Some?
      && (OpenAll(CString(v.value), env) == Failed(Empty) <==>
          forall i :: 0 <= i < |NS_TYPES| ==> !Joins(c.namespaces, nsMaps, NS_TYPES[i]))
  {
    var pairs := Pairs(c.namespaces, nsMaps, |NS_TYPES|);
    NamespacesArrive(c, cloneFlags, nsMaps, env, big);
    hide Meant, OpenAll, Joins, Pairs;
    if pairs != [] {
      TypeIndex(pairs[0].t);
      assert pairs[0] in pairs;
    }
  }

  lemma {:induction false} NothingPaired(nsMaps: map<NsType, seq<byte>>, n: nat)
    requires n <= |NS_TYPES|
    ensures Pairs({}, nsMaps, n) == []
  {
    if n > 0 { NothingPaired(nsMaps, n - 1); }
  }

  /**
   It happens to every further process in a container without namespaces: the paths of all namespaces
   of its init are given, runc finds nothing wrong with them, and the C side refuses the message.
   */
  lemma NoNamespacesRefused(c: Container, nsMaps: map<NsType, seq<byte>>, env: Env, big: bool)
    requires env.Valid() && |nsMaps| > 0 && c.namespaces == {}
    ensures AllJoinable(env, Pairs(c.namespaces, nsMaps, |NS_TYPES|))
    ensures var v := Meant(c, 0, nsMaps, big).namespaces; v.Some? && OpenAll(CString(v.value), env) == Failed(Empty)
  {
    NothingPaired(nsMaps, |NS_TYPES|);
    hide Pairs, Meant, OpenAll;
    ListRefusedIff(c, 0, nsMaps, env, big);
  }

  lemma ListHasNoZero(pairs: seq<Pair>, env: Env)
    requires env.Valid() && AllJoinable(env, pairs)
    ensures 0 !in Join(Written(pairs), COMMA)
  {
    if pairs == [] {
      WrittenEmpty();
    } else {
      WrittenAt(pairs, 0);
      hide Written;
      forall i | 0 <= i < |pairs|
        ensures 0 !in Written(pairs)[i]
      {
        WrittenAt(pairs, i);
        assert Joinable(env, pairs[i].t, pairs[i].path);
        EntrySplits(pairs[i].t, pairs[i].path);
      }
      JoinLacks(Written(pairs), COMMA, 0);
    }
  }

  /** Booleans arrive on a little-endian host, and on a big-endian one only if they are false. */
  lemma BooleansArrive(c: Container, cloneFlags: nat, nsMaps: map<NsType, seq<byte>>, big: bool)
    ensures var m := Meant(c, cloneFlags, nsMaps, big);
      ((m.isRootlessEuid != 0) == c.rootlessEuid) <==> !(big && c.rootlessEuid)
    ensures var m := Meant(c, cloneFlags, nsMaps, big);
      var setgroup := NEWUSER !in nsMaps && c.gidMap.Some? && c.needsMappingTool;
      ((m.isSetgroup != 0) == setgroup) <==> !(big && setgroup)
  {
    hide Pairs, Written, Join;
  }
}
