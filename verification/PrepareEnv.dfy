/**
 Preparing a process's environment (prepareEnv in libcontainer/env.go): one backward loop that keeps
 the last value of each variable, drops an empty HOME, and then adds a HOME if there is none.
 */
module PrepareEnv {
  import opened Separated

  const NUL: char := 0 as char

  predicate WellFormed(kv: string) { 0 < IndexOf(kv, '=') < |kv| }

  function Name(kv: string): string { kv[..IndexOf(kv, '=')] }

  function Value(kv: string): string
    requires WellFormed(kv)
  {
    kv[IndexOf(kv, '=') + 1..]
  }

  /** No later entry has the same name. */
  predicate IsLast(env: seq<string>, i: nat)
    requires i < |env|
  {
    forall j :: i < j < |env| ==> Name(env[j]) != Name(env[i])
  }

  predicate IsEmptyHome(kv: string) { WellFormed(kv) && Name(kv) == "HOME" && Value(kv) == "" }

  /** The entry is the one that counts for its name, and is not an empty HOME. */
  predicate Keeps(env: seq<string>, i: nat)
    requires i < |env|
  {
    IsLast(env, i) && !IsEmptyHome(env[i])
  }

  /** The entries to keep, in order, from position i. */
  function Kept(env: seq<string>, i: nat): seq<string>
    requires i <= |env|
    decreases |env| - i
  {
    if i == |env| then [] else (if Keeps(env, i) then [env[i]] else []) + Kept(env, i + 1)
  }

  /** Something that makes the whole environment invalid, from position i on. */
  predicate Bad(env: seq<string>, i: nat)
    requires i < |env|
  {
    !WellFormed(env[i]) || (IsLast(env, i) && NUL in env[i])
  }

  /** An entry of this name, at or after position n, is kept. */
  predicate KeepsName(env: seq<string>, n: nat, name: string)
    requires n <= |env|
  {
    exists i :: n <= i < |env| && Keeps(env, i) && Name(env[i]) == name
  }

  lemma KeepsNameNext(env: seq<string>, n: nat, name: string)
    requires n < |env|
    ensures KeepsName(env, n, name) <==> KeepsName(env, n + 1, name) || (Keeps(env, n) && Name(env[n]) == name)
    ensures Keeps(env, n) && Name(env[n]) == name ==> !KeepsName(env, n + 1, name)
  {
    hide IsEmptyHome, Name;
  }

  function Reversed(s: seq<string>): seq<string> {
    if s == [] then [] else Reversed(s[1..]) + [s[0]]
  }

  lemma {:induction false} ReversedAppend(s: seq<string>, x: string)
    ensures Reversed(s + [x]) == [x] + Reversed(s)
  {
    if s == [] {
      assert [x][1..] == [];
    } else {
      assert (s + [x])[1..] == s[1..] + [x];
      ReversedAppend(s[1..], x);
    }
  }

  datatype Result = Invalid | Nothing | Prepared(env: seq<string>)

  /** The names at and after position n. */
  function Names(env: seq<string>, n: nat): set<string>
    requires n <= |env|
  {
    set i | n <= i < |env| :: Name(env[i])
  }

  /** `given` is false for a nil slice; `home` is the home directory of the user. */
  method Prepare(given: bool, env: seq<string>, home: string) returns (r: Result)
    ensures r == Nothing <==> !given
    ensures r == Invalid <==> given && exists i :: 0 <= i < |env| && Bad(env, i)
    ensures r.Prepared? ==> r.env == Kept(env, 0) + if KeepsName(env, 0, "HOME") then [] else ["HOME=" + home]
  {
    hide *;
    if !given {
      return Nothing;
    }
    var homeIsSet := false;
    var out: seq<string> := [];
    var saw: set<string> := {};
    var n: nat := |env|;
    AtEnd(env);
    while n > 0
      invariant n <= |env| && saw == Names(env, n)
      invariant Reversed(out) == Kept(env, n)
      invariant homeIsSet <==> KeepsName(env, n, "HOME")
      invariant forall i :: n <= i < |env| ==> !Bad(env, i)
    {
      n := n - 1;
      var kv := env[n];
      var i := IndexOf(kv, '=');
      AtEntry(env, n);
      NamesNext(env, n);
      KeepsNameNext(env, n, "HOME");
      if i == |kv| || i == 0 {
        return Invalid;
      }
      var key, val := kv[..i], kv[i + 1..];
      if key !in saw {
        if NUL in kv {
          return Invalid;
        }
        saw := saw + {key};
        if key != "HOME" || val != "" {
          if key == "HOME" {
            homeIsSet := true;
          }
          ReversedAppend(out, kv);
          out := out + [kv];
        }
      }
    }
    r := Prepared(Reversed(out) + if homeIsSet then [] else ["HOME=" + home]);
  }

  /** One entry, in terms of where its name ends. */
  lemma AtEntry(env: seq<string>, n: nat)
    requires n < |env|
    ensures var kv := env[n]; var i := IndexOf(kv, '=');
      && (Bad(env, n) <==> i == 0 || i == |kv| || (IsLast(env, n) && NUL in kv))
      && Name(kv) == kv[..i]
      && (0 < i < |kv| ==> (Keeps(env, n) <==> IsLast(env, n) && !(kv[..i] == "HOME" && kv[i + 1..] == "")))
      && (Keeps(env, n) ==> Kept(env, n) == [kv] + Kept(env, n + 1))
      && (!Keeps(env, n) ==> Kept(env, n) == Kept(env, n + 1))
  {
    hide IsLast;
  }

  lemma AtEnd(env: seq<string>)
    ensures Names(env, |env|) == {} && Reversed([]) == Kept(env, |env|) && !KeepsName(env, |env|, "HOME")
  {
  }

  lemma NamesNext(env: seq<string>, n: nat)
    requires n < |env|
    ensures Names(env, n) == Names(env, n + 1) + {Name(env[n])}
    ensures IsLast(env, n) <==> Name(env[n]) !in Names(env, n + 1)
  {
  }

  // ----- what the result is -----

  /** Exactly the entries to keep are kept. */
  lemma {:induction false} KeptMembers(env: seq<string>, n: nat, x: string)
    requires n <= |env|
    ensures x in Kept(env, n) <==> exists i :: n <= i < |env| && env[i] == x && Keeps(env, i)
    decreases |env| - n
  {
    hide Keeps, Name;
    if n < |env| {
      KeptMembers(env, n + 1, x);
      if x == env[n] && Keeps(env, n) { assert Kept(env, n)[0] == x; }
    }
  }

  /** They are in the order in which they were given. */
  lemma {:induction false} KeptInOrder(env: seq<string>, n: nat, a: nat, b: nat) returns (i: nat, j: nat)
    requires n <= |env| && a < b < |Kept(env, n)|
    ensures n <= i < j < |env| && Keeps(env, i) && Keeps(env, j)
    ensures Kept(env, n)[a] == env[i] && Kept(env, n)[b] == env[j]
    decreases |env| - n
  {
    hide Keeps;
    if !Keeps(env, n) {
      i, j := KeptInOrder(env, n + 1, a, b);
    } else if a > 0 {
      i, j := KeptInOrder(env, n + 1, a - 1, b - 1);
    } else {
      var rest := Kept(env, n + 1);
      KeptMembers(env, n + 1, rest[b - 1]);
      i := n;
      j :| n + 1 <= j < |env| && env[j] == rest[b - 1] && Keeps(env, j);
    }
  }

  /** No name occurs twice among them. */
  lemma {:induction false} KeptNamesDiffer(env: seq<string>, n: nat, a: nat, b: nat)
    requires n <= |env| && a < b < |Kept(env, n)|
    ensures Name(Kept(env, n)[a]) != Name(Kept(env, n)[b])
    decreases |env| - n
  {
    hide IsEmptyHome, Name;
    var rest := Kept(env, n + 1);
    if !Keeps(env, n) {
      KeptNamesDiffer(env, n + 1, a, b);
    } else if a > 0 {
      KeptNamesDiffer(env, n + 1, a - 1, b - 1);
    } else {
      KeptMembers(env, n + 1, rest[b - 1]);
      var i :| n + 1 <= i < |env| && env[i] == rest[b - 1] && Keeps(env, i);
      assert Name(env[i]) != Name(env[n]);
    }
  }

  function Count(env: seq<string>, name: string): nat {
    if env == [] then 0 else (if Name(env[0]) == name then 1 else 0) + Count(env[1..], name)
  }

  lemma {:induction false} CountAppend(a: seq<string>, b: seq<string>, name: string)
    ensures Count(a + b, name) == Count(a, name) + Count(b, name)
  {
    if a == [] {
      assert a + b == b;
    } else {
      assert (a + b)[1..] == a[1..] + b;
      CountAppend(a[1..], b, name);
    }
  }

  lemma KeptNext(env: seq<string>, n: nat, name: string)
    requires n < |env|
    ensures Count(Kept(env, n), name) ==
      Count(Kept(env, n + 1), name) + if Keeps(env, n) && Name(env[n]) == name then 1 else 0
  {
    hide Keeps, Name;
    if Keeps(env, n) {
      assert Kept(env, n)[0] == env[n] && Kept(env, n)[1..] == Kept(env, n + 1);
    } else {
      assert Kept(env, n) == Kept(env, n + 1);
    }
  }

  lemma KeptNone(env: seq<string>, name: string)
    ensures Count(Kept(env, |env|), name) == 0 && !KeepsName(env, |env|, name)
  {
  }

  /** A kept name occurs once, any other name not at all. */
  lemma {:induction false} KeptCount(env: seq<string>, n: nat, name: string)
    requires n <= |env|
    ensures Count(Kept(env, n), name) == if KeepsName(env, n, name) then 1 else 0
    decreases |env| - n
  {
    hide *;
    if n == |env| {
      KeptNone(env, name);
    } else {
      KeptCount(env, n + 1, name);
      KeptNext(env, n, name);
      KeepsNameNext(env, n, name);
    }
  }

  lemma HomeEntry(home: string)
    ensures Name("HOME=" + home) == "HOME" && WellFormed("HOME=" + home)
    ensures Count(["HOME=" + home], "HOME") == 1
    ensures forall name :: name != "HOME" ==> Count(["HOME=" + home], name) == 0
  {
    var kv := "HOME=" + home;
    assert kv[..4] == "HOME";
    IndexOfIs(kv, '=', 4);
    assert [kv][1..] == [];
  }

  /**
   The prepared environment has every name at most once; a name other than HOME is there if and only
   if it was given, and HOME always is.
   */
  lemma PreparedNames(env: seq<string>, home: string, name: string)
    ensures var r := Kept(env, 0) + if KeepsName(env, 0, "HOME") then [] else ["HOME=" + home];
      && Count(r, "HOME") == 1
      && (name != "HOME" ==> Count(r, name) == if name in Names(env, 0) then 1 else 0)
  {
    var extra := if KeepsName(env, 0, "HOME") then [] else ["HOME=" + home];
    CountAppend(Kept(env, 0), extra, "HOME");
    CountAppend(Kept(env, 0), extra, name);
    KeptCount(env, 0, "HOME");
    KeptCount(env, 0, name);
    HomeEntry(home);
    if name != "HOME" { GivenIsKept(env, 0, name); }
    hide Kept, KeepsName, Name;
  }

  /** The last entry of a name other than HOME is kept. */
  lemma {:induction false} GivenIsKept(env: seq<string>, n: nat, name: string)
    requires n <= |env| && name != "HOME"
    ensures name in Names(env, n) <==> KeepsName(env, n, name)
    decreases |env| - n
  {
    if n < |env| {
      GivenIsKept(env, n + 1, name);
      NamesNext(env, n);
      KeepsNameNext(env, n, name);
      hide Name, Names, KeepsName, IsLast;
    }
  }
}
