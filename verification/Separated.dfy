/** Lists written with a separator between their parts, and how they come apart again. */
module Separated {
  /** The position of the first occurrence, or the length if there is none. */
  function IndexOf<T(==)>(s: seq<T>, b: T): (r: nat)
    ensures r <= |s| && b !in s[..r] && (r < |s| ==> s[r] == b)
  {
    if s == [] || s[0] == b then 0 else 1 + IndexOf(s[1..], b)
  }

  lemma IndexOfIs<T>(s: seq<T>, b: T, i: nat)
    requires i <= |s| && b !in s[..i] && (i < |s| ==> s[i] == b)
    ensures IndexOf(s, b) == i
  {
  }

  function Join<T>(parts: seq<seq<T>>, sep: T): seq<T> {
    if parts == [] then []
    else if |parts| == 1 then parts[0]
    else parts[0] + [sep] + Join(parts[1..], sep)
  }

  /** What strtok_r gives on repeated calls: empty tokens are skipped. */
  function Tokens<T(==)>(s: seq<T>, sep: T): (r: seq<seq<T>>)
    decreases |s|
  {
    if s == [] then []
    else if s[0] == sep then Tokens(s[1..], sep)
    else
      var j := IndexOf(s, sep);
      [s[..j]] + if j == |s| then [] else Tokens(s[j + 1..], sep)
  }

  predicate Clean<T(==)>(p: seq<T>, sep: T) { p != [] && sep !in p }

  predicate AllClean<T(==)>(parts: seq<seq<T>>, sep: T) {
    forall i :: 0 <= i < |parts| ==> Clean(parts[i], sep)
  }

  /** Splitting a joined list gives back its parts. */
  lemma {:induction false} TokensOfJoin<T>(parts: seq<seq<T>>, sep: T)
    requires AllClean(parts, sep)
    ensures Tokens(Join(parts, sep), sep) == parts
  {
    if |parts| == 1 {
      var s := Join(parts, sep);
      IndexOfIs(s, sep, |s|);
      assert s[..|s|] == s;
    } else if |parts| > 1 {
      var first, rest := parts[0], Join(parts[1..], sep);
      var s := first + [sep] + rest;
      assert s[..|first|] == first && s[|first| + 1..] == rest && s[0] == first[0];
      IndexOfIs(s, sep, |first|);
      TokensOfJoin(parts[1..], sep);
    }
  }

  /** A value that is in no part, and is not the separator, is not in the joined list. */
  lemma {:induction false} JoinLacks<T>(parts: seq<seq<T>>, sep: T, b: T)
    requires b != sep && forall i :: 0 <= i < |parts| ==> b !in parts[i]
    ensures b !in Join(parts, sep)
  {
    if |parts| > 1 { JoinLacks(parts[1..], sep, b); }
  }

  /** Text up to a separator that it does not contain determines what is before and after. */
  lemma SplitAt<T>(a: seq<T>, b: seq<T>, c: seq<T>, d: seq<T>, sep: T)
    requires sep !in a && sep !in c && a + [sep] + b == c + [sep] + d
    ensures a == c && b == d
  {
    var s := a + [sep] + b;
    assert s[..|a|] == a && s[|a| + 1..] == b;
    IndexOfIs(s, sep, |a|);
    assert s[..|c|] == c && s[|c| + 1..] == d;
    IndexOfIs(s, sep, |c|);
  }
}
