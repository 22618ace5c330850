/**
 The AppArmor profile that the scanner grows (src/scanner_apparmor_linux.go): rules built from audit
 records, and a marked block of them that is put before the profile's closing brace or replaced.
 */
module AppArmor {
  import opened Wrappers
  import opened Separated
  import opened SortedStrings

  // ----- finding text -----

  predicate OccursAt(s: string, pat: string, i: nat) {
    i + |pat| <= |s| && forall k :: 0 <= k < |pat| ==> s[i + k] == pat[k]
  }

  /** The first occurrence at or after position i. */
  function FindFrom(s: string, pat: string, i: nat): (r: Option<nat>)
    ensures r.Some? ==>
      i <= r.value && OccursAt(s, pat, r.value) && forall k :: i <= k < r.value ==> !OccursAt(s, pat, k)
    ensures r.None? ==> forall k :: i <= k ==> !OccursAt(s, pat, k)
    decreases |s| - i
  {
    if i + |pat| > |s| then None
    else if OccursAt(s, pat, i) then Some(i)
    else FindFrom(s, pat, i + 1)
  }

  ghost predicate Has(s: string, pat: string) { exists i :: OccursAt(s, pat, i) }

  lemma FindIs(s: string, pat: string, i: nat, j: nat)
    requires i <= j && OccursAt(s, pat, j) && forall k :: i <= k < j ==> !OccursAt(s, pat, k)
    ensures FindFrom(s, pat, i) == Some(j)
  {
  }

  lemma Mismatch(s: string, pat: string, i: nat, j: nat)
    requires j < |pat| && (i + j < |s| ==> s[i + j] != pat[j])
    ensures !OccursAt(s, pat, i)
  {
  }

  /** Where something does not occur, some character differs. */
  lemma Differs(s: string, pat: string, i: nat) returns (j: nat)
    requires !Has(s, pat) && i + |pat| <= |s|
    ensures j < |pat| && s[i + j] != pat[j]
  {
    assert !OccursAt(s, pat, i);
    j :| 0 <= j < |pat| && s[i + j] != pat[j];
  }

  // ----- the code -----

  /** The marker lines, and what about them matters. */
  datatype Markers = Markers(begin: string, end: string) {
    ghost predicate Valid() {
      && |begin| > 1 && |end| > 0 && begin[0] != ' ' && end[0] != ' '
      && '\n' !in begin && '\n' !in end
      && begin[|begin| - 1] != ' ' && (forall i :: 0 < i < |begin| ==> !(begin[i - 1] == ' ' && begin[i] == ' '))
      && !Has(begin, end)
    }
  }

  /** The words of the scanner's markers; a marker is its words with single spaces between them. */
  const TAIL: seq<string> := ["runc-scan", "audit-collected", "rules", "---"]
  const BEGIN: seq<string> := ["#", "---", "BEGIN"] + TAIL
  const END: seq<string> := ["#", "---", "END"] + TAIL
  const MARKERS: Markers := Markers(Join(BEGIN, ' '), Join(END, ' '))

  ghost predicate Plain(s: string) {
    && s != "" && '\n' !in s && s[0] != ' ' && s[|s| - 1] != ' '
    && forall i :: 0 < i < |s| ==> !(s[i - 1] == ' ' && s[i] == ' ')
  }

  lemma {:induction false} JoinIsPlain(words: seq<string>)
    requires words != [] && forall w <- words :: w != "" && '\n' !in w && ' ' !in w
    ensures Plain(Join(words, ' '))
  {
    if |words| > 1 {
      var first, rest := words[0], Join(words[1..], ' ');
      assert forall w <- words[1..] :: w in words;
      JoinIsPlain(words[1..]);
      assert words[0] in words && first[0] in first;
      var s := first + [' '] + rest;
      forall i | 0 < i < |s|
        ensures !(s[i - 1] == ' ' && s[i] == ' ')
      {
        if i < |first| {
          assert s[i] in first;
        } else if i == |first| {
          assert s[i - 1] in first;
        } else if i > |first| + 1 {
          assert s[i - 1] == rest[i - |first| - 2] && s[i] == rest[i - |first| - 1];
        }
      }
    } else {
      assert words[0] in words;
      var w := words[0];
      assert w[0] in w && w[|w| - 1] in w && forall i :: 0 <= i < |w| ==> w[i] in w;
    }
  }

  lemma JoinFirst(w: string, words: seq<string>)
    requires words != []
    ensures Join([w] + words, ' ') == w + [' '] + Join(words, ' ')
  {
    assert ([w] + words)[1..] == words;
  }

  lemma JoinThree(a: string, b: string, c: string, words: seq<string>)
    requires words != []
    ensures Join([a, b, c] + words, ' ') == a + [' '] + (b + [' '] + (c + [' '] + Join(words, ' ')))
  {
    hide Join;
    assert [a, b, c] + words == [a] + ([b] + ([c] + words));
    JoinFirst(a, [b] + ([c] + words));
    JoinFirst(b, [c] + words);
    JoinFirst(c, words);
  }

  lemma WordsAreProper()
    ensures forall w <- BEGIN :: w != "" && '\n' !in w && ' ' !in w
    ensures forall w <- END :: w != "" && '\n' !in w && ' ' !in w
  {
    assert forall w <- TAIL :: w != "" && '\n' !in w && ' ' !in w;
  }

  lemma MarkersAreValid()
    ensures MARKERS.Valid() && MARKERS.begin[0] == '#' && MARKERS.end[0] == '#'
  {
    hide Join;
    WordsAreProper();
    JoinIsPlain(BEGIN);
    JoinIsPlain(END);
    var rest := Join(TAIL, ' ');
    JoinThree("#", "---", "BEGIN", TAIL);
    JoinThree("#", "---", "END", TAIL);
    NotInEachOther(MARKERS.begin, MARKERS.end, rest);
  }

  lemma NotInEachOther(begin: string, end: string, rest: string)
    requires begin == "#" + [' '] + ("---" + [' '] + ("BEGIN" + [' '] + rest))
    requires end == "#" + [' '] + ("---" + [' '] + ("END" + [' '] + rest))
    ensures !Has(begin, end)
  {
    forall i: nat
      ensures !OccursAt(begin, end, i)
    {
      Mismatch(begin, end, i, if i == 0 then 6 else if i <= 2 then 0 else |end| - 1);
    }
  }

  /** The start of the line that position i is on. */
  function LineStart(s: string, i: nat): (r: nat)
    requires i <= |s|
    ensures r <= i && (r > 0 ==> s[r - 1] == '\n') && forall k :: r <= k < i ==> s[k] != '\n'
  {
    if i == 0 || s[i - 1] == '\n' then i else LineStart(s, i - 1)
  }

  function Strip(raw: string, m: Markers): string {
    match FindFrom(raw, m.begin, 0)
    case None => raw
    case Some(b) =>
      match FindFrom(raw, m.end, b)
      case None => raw
      case Some(e) =>
        var afterEnd := e + |m.end|;
        var lineEnd := if afterEnd < |raw| && raw[afterEnd] == '\n' then afterEnd + 1 else afterEnd;
        raw[..LineStart(raw, b)] + raw[lineEnd..]
  }

  /**
   What stripping does: from the line of the first begin marker to the first end marker after it, and the line
   break that follows, if there is one, the text goes.
   */
  lemma StripMeans(raw: string, m: Markers, b: nat, e: nat, start: nat)
    requires OccursAt(raw, m.begin, b) && forall k :: 0 <= k < b ==> !OccursAt(raw, m.begin, k)
    requires b <= e && OccursAt(raw, m.end, e) && forall k :: b <= k < e ==> !OccursAt(raw, m.end, k)
    requires start <= b && (start == 0 || raw[start - 1] == '\n') && forall k :: start <= k < b ==> raw[k] != '\n'
    ensures Strip(raw, m) == raw[..start] +
      var after := raw[e + |m.end|..]; if after != "" && after[0] == '\n' then after[1..] else after
  {
    FindIs(raw, m.begin, 0, b);
    FindIs(raw, m.end, b, e);
    var r := LineStart(raw, b);
    assert r > 0 ==> raw[r - 1] == '\n';
    assert start > 0 ==> raw[start - 1] == '\n';
    assert start == r;
  }

  /** Without an end marker after a begin marker nothing goes. */
  lemma NothingToStrip(raw: string, m: Markers)
    requires forall b: nat, e: nat :: OccursAt(raw, m.begin, b) && b <= e ==> !OccursAt(raw, m.end, e)
    ensures Strip(raw, m) == raw
  {
  }

  const SPACES: set<char> := {' ', '\t', '\n', '\r'}

  predicate IsSpace(c: char) { c == ' ' || c == '\t' || c == '\n' || c == '\r' }

  /** The brace that is the last thing in the text but space. */
  ghost predicate IsClose(raw: string, i: nat) {
    i < |raw| && raw[i] == '}' && forall k :: i < k < |raw| ==> raw[k] in SPACES
  }

  /** The backward scan for the closing brace. */
  method FindProfileBodyClose(raw: string) returns (r: Option<nat>)
    ensures r.Some? ==> IsClose(raw, r.value)
    ensures r.None? ==> forall i :: !IsClose(raw, i)
  {
    var i := |raw|;
    while i > 0
      invariant 0 <= i <= |raw| && forall k :: i <= k < |raw| ==> IsSpace(raw[k])
    {
      i := i - 1;
      if !IsSpace(raw[i]) {
        if raw[i] == '}' {
          return Some(i);
        }
        return None;
      }
    }
    r := None;
  }

  lemma CloseIsUnique(raw: string, i: nat, j: nat)
    requires IsClose(raw, i) && IsClose(raw, j)
    ensures i == j
  {
  }

  /** The lines of the rules. */
  function Lines(rules: seq<string>): string {
    if rules == [] then "" else rules[0] + ['\n'] + Lines(rules[1..])
  }

  function Block(rules: seq<string>, m: Markers): string {
    "  " + m.begin + ['\n'] + Lines(rules) + "  " + m.end + ['\n']
  }

  function Inserted(p: string, close: nat, rules: seq<string>, m: Markers): string
    requires close <= |p|
  {
    p[..close] + Block(rules, m) + p[close..]
  }

  datatype Written = Unchanged | NoBrace | Text(s: string)

  lemma LinesAppend(rules: seq<string>, r: string)
    ensures Lines(rules + [r]) == Lines(rules) + r + ['\n']
  {
    if rules == [] {
      assert [r][1..] == [];
    } else {
      assert (rules + [r])[1..] == rules[1..] + [r];
      LinesAppend(rules[1..], r);
    }
  }

  /** What becomes of a profile: the old block goes, the new one is put before the brace. */
  method AppendAuditRules(raw: string, rules: seq<string>, m: Markers) returns (r: Written)
    ensures r == Unchanged <==> rules == []
    ensures rules != [] ==> var p := Strip(raw, m);
      && (r == NoBrace <==> forall i :: !IsClose(p, i))
      && (r.Text? ==> exists close: nat ::
            && IsClose(p, close)
            && r.s == p[..close] + "  " + m.begin + "\n" + Lines(rules) + "  " + m.end + "\n" + p[close..])
  {
    if rules == [] {
      return Unchanged;
    }
    var stripped := Strip(raw, m);
    var close := FindProfileBodyClose(stripped);
    if close.None? {
      return NoBrace;
    }
    var block := "  " + m.begin + ['\n'];
    ghost var head := block;
    assert Lines([]) == "";
    hide Lines;
    for i := 0 to |rules|
      invariant block == head + Lines(rules[..i])
    {
      assert rules[..i + 1] == rules[..i] + [rules[i]];
      LinesAppend(rules[..i], rules[i]);
      block := block + rules[i] + ['\n'];
    }
    assert rules[..|rules|] == rules;
    block := block + "  " + m.end + ['\n'];
    r := Text(stripped[..close.value] + block + stripped[close.value..]);
    assert r.s == Inserted(stripped, close.value, rules, m);
    InsertedIs(stripped, close.value, rules, m);
  }

  lemma InsertedIs(p: string, close: nat, rules: seq<string>, m: Markers)
    requires close <= |p|
    ensures Inserted(p, close, rules, m) ==
      p[..close] + "  " + m.begin + "\n" + Lines(rules) + "  " + m.end + "\n" + p[close..]
  {
    hide Lines;
  }

  /** The lines hold the rules in their order. */
  lemma {:induction false} LinesAreRules(rules: seq<string>)
    requires rules != []
    ensures Lines(rules) == Join(rules, '\n') + "\n"
  {
    if |rules| > 1 {
      LinesAreRules(rules[1..]);
    } else {
      assert rules[1..] == [];
    }
  }

  // ----- stripping what was appended -----

  lemma InsertedParts(p: string, close: nat, rules: seq<string>, m: Markers)
    requires close <= |p|
    ensures var t := Inserted(p, close, rules, m); var b, n := |m.begin|, |Lines(rules)|;
      && |t| == |p| + |Block(rules, m)| && |Block(rules, m)| == 6 + b + n + |m.end|
      && t[..close] == p[..close] && t[close] == ' ' && t[close + 1] == ' '
      && OccursAt(t, m.begin, close + 2) && t[close + 2..close + 2 + b] == m.begin && t[close + 2 + b] == '\n'
      && t[close + 3 + b..close + 3 + b + n] == Lines(rules)
      && t[close + 3 + b + n] == ' ' && t[close + 4 + b + n] == ' '
      && OccursAt(t, m.end, close + 5 + b + n) && t[close + 5 + b + n + |m.end|] == '\n'
      && t[close + |Block(rules, m)|..] == p[close..]
  {
    hide Lines;
  }

  lemma FirstBegin(p: string, close: nat, rules: seq<string>, m: Markers)
    requires m.Valid() && close <= |p| && !Has(p, m.begin)
    ensures FindFrom(Inserted(p, close, rules, m), m.begin, 0) == Some(close + 2)
  {
    hide Inserted, Block, Lines, FindFrom, OccursAt, Has;
    var t := Inserted(p, close, rules, m);
    InsertedParts(p, close, rules, m);
    forall k | 0 <= k < close + 2
      ensures !OccursAt(t, m.begin, k)
    {
      if k + |m.begin| <= close {
        var j := Differs(p, m.begin, k);
        assert t[..close][k + j] == p[..close][k + j];
        Mismatch(t, m.begin, k, j);
      } else if k < close {
        Mismatch(t, m.begin, k, if m.begin[close - k] != ' ' then close - k else close - k + 1);
      } else {
        Mismatch(t, m.begin, k, 0);
      }
    }
    FindIs(t, m.begin, 0, close + 2);
  }

  /** Text up to the end of a line does not contain what the text does not and what has no line break. */
  lemma AvoidsLine(t: string, i: nat, a: string, pat: string)
    requires i + |a| < |t| && t[i..i + |a|] == a && t[i + |a|] == '\n'
    requires pat != "" && '\n' !in pat && !Has(a, pat)
    ensures forall k :: i <= k <= i + |a| ==> !OccursAt(t, pat, k)
  {
    forall k | i <= k <= i + |a|
      ensures !OccursAt(t, pat, k)
    {
      if k + |pat| <= i + |a| {
        var j := Differs(a, pat, k - i);
        assert t[i..i + |a|][k - i + j] == a[k - i + j];
        Mismatch(t, pat, k, j);
      } else {
        Mismatch(t, pat, k, i + |a| - k);
      }
    }
  }

  lemma {:induction false} AvoidsLines(t: string, i: nat, rules: seq<string>, pat: string)
    requires i + |Lines(rules)| <= |t| && t[i..i + |Lines(rules)|] == Lines(rules)
    requires pat != "" && '\n' !in pat && forall r <- rules :: !Has(r, pat)
    ensures forall k :: i <= k < i + |Lines(rules)| ==> !OccursAt(t, pat, k)
    decreases rules
  {
    if rules != [] {
      hide OccursAt, Has;
      var first, rest := rules[0], Lines(rules[1..]);
      var all := first + ['\n'] + rest;
      assert t[i..i + |all|] == all;
      assert t[i..i + |first|] == all[..|first|] == first && t[i + |first|] == all[|first|];
      assert t[i + |first| + 1..i + |all|] == all[|first| + 1..] == rest;
      AvoidsLine(t, i, first, pat);
      AvoidsLines(t, i + |first| + 1, rules[1..], pat);
    }
  }

  lemma FirstEnd(p: string, close: nat, rules: seq<string>, m: Markers)
    requires m.Valid() && close <= |p| && forall r <- rules :: !Has(r, m.end)
    ensures FindFrom(Inserted(p, close, rules, m), m.end, close + 2) == Some(close + 5 + |m.begin| + |Lines(rules)|)
  {
    hide Inserted, Block, Lines, FindFrom, OccursAt, Has;
    var t := Inserted(p, close, rules, m);
    InsertedParts(p, close, rules, m);
    AvoidsLine(t, close + 2, m.begin, m.end);
    AvoidsLines(t, close + 3 + |m.begin|, rules, m.end);
    var e := close + 5 + |m.begin| + |Lines(rules)|;
    forall k | close + 2 <= k < e
      ensures !OccursAt(t, m.end, k)
    {
      if k >= e - 2 { Mismatch(t, m.end, k, 0); }
    }
    FindIs(t, m.end, close + 2, e);
  }

  lemma {:induction false} SameLineStart(p: string, t: string, close: nat, i: nat)
    requires close <= i <= |t| && close <= |p| && t[..close] == p[..close]
    requires forall k :: close <= k < i ==> t[k] != '\n'
    ensures LineStart(t, i) == LineStart(p, close)
    decreases i
  {
    if i > close {
      SameLineStart(p, t, close, i - 1);
    } else if i > 0 {
      assert t[..close][i - 1] == p[..close][i - 1];
      if t[i - 1] != '\n' {
        assert t[..close - 1] == t[..close][..close - 1] && p[..close - 1] == p[..close][..close - 1];
        SameLineStart(p, t, close - 1, i - 1);
      }
    }
  }

  lemma StripInserted(p: string, close: nat, rules: seq<string>, m: Markers)
    requires m.Valid() && close <= |p| && !Has(p, m.begin) && forall r <- rules :: !Has(r, m.end)
    ensures Strip(Inserted(p, close, rules, m), m) == p[..LineStart(p, close)] + p[close..]
  {
    hide Inserted, Block, Lines, Has, FindFrom, OccursAt, LineStart;
    var t := Inserted(p, close, rules, m);
    FirstBegin(p, close, rules, m);
    FirstEnd(p, close, rules, m);
    InsertedParts(p, close, rules, m);
    SameLineStart(p, t, close, close + 2);
    var ls := LineStart(p, close);
    assert t[..ls] == t[..close][..ls] == p[..ls];
  }

  /**
   Stripping what was appended to a profile without markers gives the profile back if and only if the
   closing brace starts its own line.
   */
  lemma StripUndoesAppend(p: string, close: nat, rules: seq<string>, m: Markers)
    requires m.Valid() && IsClose(p, close) && !Has(p, m.begin) && forall r <- rules :: !Has(r, m.end)
    ensures Strip(Inserted(p, close, rules, m), m) == p <==> close == 0 || p[close - 1] == '\n'
  {
    hide Strip, Inserted, Has, LineStart;
    StripInserted(p, close, rules, m);
    var ls := LineStart(p, close);
    if ls == close {
      assert p[..close] + p[close..] == p;
    } else {
      assert |p[..ls] + p[close..]| < |p|;
    }
  }

  /** What a profile becomes, given that rules are appended: a value that the code computes. */
  ghost predicate Becomes(raw: string, rules: seq<string>, m: Markers, s: string) {
    exists close :: IsClose(Strip(raw, m), close) && s == Inserted(Strip(raw, m), close, rules, m)
  }

  /** Appending twice to a profile whose brace starts its own line is the same as appending the second time only. */
  lemma AppendReplaces(p: string, close: nat, first: seq<string>, second: seq<string>, m: Markers, s: string)
    requires m.Valid() && IsClose(p, close) && (close == 0 || p[close - 1] == '\n') && !Has(p, m.begin)
    requires forall r <- first :: !Has(r, m.end)
    ensures Becomes(p, first, m, Inserted(p, close, first, m))
    ensures Becomes(Inserted(p, close, first, m), second, m, s) <==> Becomes(p, second, m, s)
    ensures Becomes(p, second, m, s) <==> s == Inserted(p, close, second, m)
  {
    StripUndoesAppend(p, close, first, m);
    NothingToStrip(p, m);
    hide Strip, Inserted, Has;
    forall i | IsClose(p, i) ensures i == close { CloseIsUnique(p, i, close); }
  }

  /** A brace that does not start its line loses what is before it. */
  lemma BraceOnSharedLine()
    ensures var p := "profile x { }"; var rules := ["  /x r,"];
      IsClose(p, 12) && !Has(p, MARKERS.begin) && Strip(Inserted(p, 12, rules, MARKERS), MARKERS) != p
  {
    hide Strip, Inserted, FindFrom, Join;
    MarkersAreValid();
    var p := "profile x { }";
    var rule := "  /x r,";
    forall i: nat ensures !OccursAt(p, MARKERS.begin, i) { Mismatch(p, MARKERS.begin, i, 0); }
    forall i: nat ensures !OccursAt(rule, MARKERS.end, i) { Mismatch(rule, MARKERS.end, i, 0); }
    StripUndoesAppend(p, 12, [rule], MARKERS);
  }

  // ----- rules -----

  datatype Denial = Denial(operation: string, name: string, requested: string, denied: string, capname: string)

  /** The letters of a mode, in the order in which they are written. */
  datatype Letters = Letters(r: bool, w: bool, l: bool, k: bool, m: bool, x: bool)

  function LettersOf(mask: string): Letters {
    Letters('r' in mask, 'w' in mask || 'a' in mask || 'c' in mask || 'd' in mask,
            'l' in mask, 'k' in mask, 'm' in mask, 'x' in mask)
  }

  function Put(s: string, b: bool, c: char): string { if b then s + [c] else s }

  function Spell(w: Letters): string {
    var rwl := Put(Put(Put("", w.r, 'r'), w.w, 'w'), w.l, 'l');
    Put(Put(Put(Put(rwl, w.k, 'k'), w.m, 'm'), w.x, 'i'), w.x, 'x')
  }

  /** The mask to go by, if any. */
  function MaskOf(d: Denial): string {
    if d.requested != "" then d.requested
    else if d.denied != "" then d.denied
    else if d.operation == "open" then "r"
    else if d.operation == "mknod" || d.operation == "create" || d.operation == "unlink" || d.operation == "rmdir"
         || d.operation == "rename_src" || d.operation == "rename_dest" || d.operation == "truncate" then "w"
    else if d.operation == "link" then "l"
    else if d.operation == "exec" then "ix"
    else ""
  }

  /** Where a letter stands in a mode. */
  ghost function Place(c: char): nat {
    if c == 'r' then 0 else if c == 'w' then 1 else if c == 'l' then 2 else if c == 'k' then 3
    else if c == 'm' then 4 else if c == 'i' then 5 else 6
  }

  ghost predicate InOrder(mode: string) {
    forall i, j :: 0 <= i < j < |mode| ==> Place(mode[i]) < Place(mode[j])
  }

  /** The letters of the mask, each once; appending, creating and deleting are writing, and exec inherits. */
  ghost predicate Spells(mode: string, mask: string) {
    && InOrder(mode)
    && ('r' in mode <==> 'r' in mask)
    && ('w' in mode <==> 'w' in mask || 'a' in mask || 'c' in mask || 'd' in mask)
    && ('l' in mode <==> 'l' in mask) && ('k' in mode <==> 'k' in mask) && ('m' in mode <==> 'm' in mask)
    && ('i' in mode <==> 'x' in mask) && ('x' in mode <==> 'x' in mask)
    && forall c <- mode :: c in {'r', 'w', 'l', 'k', 'm', 'i', 'x'}
  }

  const WRITES: set<string> := {"mknod", "create", "unlink", "rmdir", "rename_src", "rename_dest", "truncate"}

  /** The mode of a record: from the mask asked for, or else the mask denied, or else the operation. */
  ghost predicate IsMode(d: Denial, mode: string) {
    if d.requested != "" then Spells(mode, d.requested)
    else if d.denied != "" then Spells(mode, d.denied)
    else
      && (d.operation == "open" ==> mode == "r") && (d.operation in WRITES ==> mode == "w")
      && (d.operation == "link" ==> mode == "l") && (d.operation == "exec" ==> mode == "ix")
      && (d.operation !in WRITES + {"open", "link", "exec"} ==> mode == "")
  }

  ghost predicate Below(mode: string, n: nat) { forall c <- mode :: Place(c) < n }

  lemma Extend(s: string, b: bool, c: char)
    requires InOrder(s) && Below(s, Place(c))
    ensures InOrder(Put(s, b, c)) && Below(Put(s, b, c), Place(c) + 1)
    ensures forall x :: x in Put(s, b, c) <==> x in s || (b && x == c)
  {
    hide Place;
  }

  lemma SpellIsInOrder(w: Letters)
    ensures InOrder(Spell(w))
    ensures forall c :: c in Spell(w) <==>
      (c == 'r' && w.r) || (c == 'w' && w.w) || (c == 'l' && w.l) || (c == 'k' && w.k) || (c == 'm' && w.m)
      || (c == 'i' && w.x) || (c == 'x' && w.x)
  {
    hide InOrder, Below, Put;
    StartsEmpty();
    Extend("", w.r, 'r');
    var r := Put("", w.r, 'r');
    Extend(r, w.w, 'w');
    var rw := Put(r, w.w, 'w');
    Extend(rw, w.l, 'l');
    var rwl := Put(rw, w.l, 'l');
    Extend(rwl, w.k, 'k');
    var rwlk := Put(rwl, w.k, 'k');
    Extend(rwlk, w.m, 'm');
    var rwlkm := Put(rwlk, w.m, 'm');
    Extend(rwlkm, w.x, 'i');
    Extend(Put(rwlkm, w.x, 'i'), w.x, 'x');
  }

  lemma StartsEmpty()
    ensures InOrder("") && Below("", 0)
  {
  }

  lemma SpellSpells(mask: string)
    ensures Spells(Spell(LettersOf(mask)), mask)
  {
    hide InOrder, Spell;
    SpellIsInOrder(LettersOf(mask));
  }

  lemma SpellOne(mask: string)
    ensures mask == "r" || mask == "w" || mask == "l" || mask == "ix" || mask == "" ==> Spell(LettersOf(mask)) == mask
  {
    if mask == "r" || mask == "w" || mask == "l" {
      assert mask == [mask[0]];
      assert forall c :: c in mask <==> c == mask[0];
    } else if mask == "ix" {
      assert mask[1] == 'x';
      assert forall c :: c in mask <==> c == 'i' || c == 'x';
    }
  }

  lemma ModeIs(d: Denial)
    ensures IsMode(d, Spell(LettersOf(MaskOf(d))))
  {
    hide Spell, LettersOf, Spells;
    SpellSpells(MaskOf(d));
    SpellOne(MaskOf(d));
  }

  method CanonicalFileMode(d: Denial) returns (mode: string)
    ensures IsMode(d, mode)
  {
    hide MaskOf, IsMode, Spell;
    var mask := MaskOf(d);
    var want := Letters(false, false, false, false, false, false);
    for i := 0 to |mask|
      invariant want == LettersOf(mask[..i])
    {
      var c := mask[i];
      assert mask[..i + 1] == mask[..i] + [c];
      if c == 'r' {
        want := want.(r := true);
      } else if c == 'w' || c == 'a' || c == 'c' || c == 'd' {
        want := want.(w := true);
      } else if c == 'l' {
        want := want.(l := true);
      } else if c == 'k' {
        want := want.(k := true);
      } else if c == 'm' {
        want := want.(m := true);
      } else if c == 'x' {
        want := want.(x := true);
      }
    }
    assert mask[..|mask|] == mask;
    mode := Spell(want);
    ModeIs(d);
  }

  /** The rule for a record; `quote` is Go's strconv.Quote, applied to unusual paths. */
  function RuleOf(d: Denial, quote: string -> string): string {
    if d.operation == "capable" && d.capname != "" then "  capability " + d.capname + ","
    else if d.name != "" then
      var mode := Spell(LettersOf(MaskOf(d)));
      if mode == "" then "  # unhandled: operation=" + d.operation + " name=" + d.name
      else "  " + QuotePath(d.name, quote) + " " + mode + ","
    else "  # unhandled: operation=" + d.operation
  }

  function QuotePath(p: string, quote: string -> string): string {
    if ' ' in p || '\t' in p || '"' in p || '\\' in p then quote(p) else p
  }

  /** The rule of a record, case by case. */
  lemma RuleMeans(d: Denial, quote: string -> string) returns (mode: string)
    ensures IsMode(d, mode)
    ensures d.operation == "capable" && d.capname != "" ==> RuleOf(d, quote) == "  capability " + d.capname + ","
    ensures !(d.operation == "capable" && d.capname != "") && d.name == "" ==>
      RuleOf(d, quote) == "  # unhandled: operation=" + d.operation
    ensures !(d.operation == "capable" && d.capname != "") && d.name != "" && mode == "" ==>
      RuleOf(d, quote) == "  # unhandled: operation=" + d.operation + " name=" + d.name
    ensures !(d.operation == "capable" && d.capname != "") && d.name != "" && mode != "" ==>
      RuleOf(d, quote) ==
        "  " + (if exists c <- d.name :: c in " \t\"\\" then quote(d.name) else d.name) + " " + mode + ","
  {
    hide IsMode, Spell, LettersOf, MaskOf;
    mode := Spell(LettersOf(MaskOf(d)));
    ModeIs(d);
    PathIs(d.name, quote);
  }

  lemma PathIs(p: string, quote: string -> string)
    ensures QuotePath(p, quote) == if exists c <- p :: c in " \t\"\\" then quote(p) else p
  {
    forall c | c in " \t\"\\" ensures c == ' ' || c == '\t' || c == '"' || c == '\\' {}
    assert ' ' in " \t\"\\" by { assert " \t\"\\"[0] == ' '; }
    assert '\t' in " \t\"\\" by { assert " \t\"\\"[1] == '\t'; }
    assert '"' in " \t\"\\" by { assert " \t\"\\"[2] == '"'; }
    assert '\\' in " \t\"\\" by { assert " \t\"\\"[3] == '\\'; }
  }

  predicate Distinct(s: seq<string>) { forall i, j :: 0 <= i < j < |s| ==> s[i] != s[j] }

  /** The rules of the records, each once, in order. */
  ghost predicate AreRules(records: seq<Denial>, quote: string -> string, rules: seq<string>) {
    && Sorted(rules) && Distinct(rules)
    && forall x :: x in rules <==> exists d <- records :: RuleOf(d, quote) == x
  }

  /** The loop over the records, and the sort. */
  method BuildRules(records: seq<Denial>, quote: string -> string) returns (rules: seq<string>)
    ensures AreRules(records, quote, rules)
  {
    var seen: set<string> := {};
    var list: seq<string> := [];
    hide RuleOf;
    for i := 0 to |records|
      invariant forall x :: x in seen <==> x in list
      invariant forall x :: x in list <==> exists k :: 0 <= k < i && RuleOf(records[k], quote) == x
      invariant Distinct(list)
    {
      var rule := RuleOf(records[i], quote);
      if rule !in seen {
        seen := seen + {rule};
        list := list + [rule];
      }
    }
    rules := Sort(list);
    SortKeeps(list);
    SortedDistinct(list, rules);
    forall x ensures x in rules <==> x in list { assert x in multiset(rules) <==> x in multiset(list); }
  }

  /** Sorting keeps elements distinct. */
  lemma SortedDistinct(a: seq<string>, b: seq<string>)
    requires Distinct(a) && multiset(a) == multiset(b)
    ensures Distinct(b)
  {
    DistinctCounts(a);
    forall i, j | 0 <= i < j < |b|
      ensures b[i] != b[j]
    {
      if b[i] == b[j] { TwiceCounted(b, i, j); }
    }
  }

  lemma {:induction false} DistinctCounts(a: seq<string>)
    requires Distinct(a)
    ensures forall x :: multiset(a)[x] <= 1
  {
    if a != [] {
      DistinctCounts(a[1..]);
      assert a == [a[0]] + a[1..];
      assert a[0] !in a[1..];
    }
  }

  lemma TwiceCounted(b: seq<string>, i: nat, j: nat)
    requires i < j < |b| && b[i] == b[j]
    ensures multiset(b)[b[i]] >= 2
  {
    assert b == b[..j] + [b[j]] + b[j + 1..];
    assert b[i] in b[..j];
  }

  lemma SortedDistinctUnique(a: seq<string>, b: seq<string>)
    requires Sorted(a) && Distinct(a) && Sorted(b) && Distinct(b) && forall x :: x in a <==> x in b
    ensures a == b
  {
    DistinctCounts(a);
    DistinctCounts(b);
    forall x
      ensures multiset(a)[x] == multiset(b)[x]
    {
      assert x in a <==> x in multiset(a);
      assert x in b <==> x in multiset(b);
    }
    SortedUnique(a, b);
  }

  /** The rules do not depend on the order of the records or on repetitions of them. */
  lemma RulesIgnoreOrder(
    records: seq<Denial>, others: seq<Denial>, quote: string -> string, a: seq<string>, b: seq<string>)
    requires forall d :: d in records <==> d in others
    requires AreRules(records, quote, a) && AreRules(others, quote, b)
    ensures a == b
  {
    hide RuleOf;
    SortedDistinctUnique(a, b);
  }
}
