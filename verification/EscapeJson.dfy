/**
 Escaping a C string for JSON (libcontainer/nsenter/escape.c): a pass that counts the extra space and
 a pass that writes. Plain `char` may be signed or unsigned; both are covered.
 */
module EscapeJson {
  import opened Wrappers

  const QUOTE: byte := 34
  const BACKSLASH: byte := 92
  const SPACE: byte := 32
  const DEL: byte := 127

  /** The value of a byte as a C char. */
  function CharOf(b: byte, signed: bool): int { if signed && b >= 128 then b - 256 else b }

  function Hex(i: int): byte {
    if 0 <= i < 10 then 48 + i
    else if 10 <= i < 16 then 97 + i - 10
    else 63
  }

  /** How many extra bytes a character needs. */
  function NeedEscape(c: int): nat {
    if c == 92 || c == 34 || c == 8 || c == 10 || c == 13 || c == 9 || c == 12 then 1
    else if c == 127 then 5
    else if 0 < c < 32 then 5
    else 0
  }

  // ----- what is written for one byte, and how it is read -----

  /** The letter of a two-character escape of a control character, or 0. */
  function Letter(b: byte): byte {
    if b == 8 then 98 else if b == 10 then 110 else if b == 13 then 114 else if b == 9 then 116
    else if b == 12 then 102 else 0
  }

  function Escape(b: byte): seq<byte> {
    if b == QUOTE || b == BACKSLASH then [BACKSLASH, b]
    else if b >= SPACE && b != DEL then [b]
    else if Letter(b) != 0 then [BACKSLASH, Letter(b)]
    else [BACKSLASH, 117, 48, 48, Hex(b / 16), Hex(b % 16)]
  }

  function Escaped(s: seq<byte>): seq<byte> {
    if s == [] then [] else Escape(s[0]) + Escaped(s[1..])
  }

  function HexValue(h: byte): Option<int> {
    if 48 <= h <= 57 then Some(h - 48)
    else if 97 <= h <= 102 then Some(h - 87)
    else if 65 <= h <= 70 then Some(h - 55)
    else None
  }

  /** The bytes that an escape stands for, by its letter; section 2.5 of RFC 4627. */
  function LetterMeaning(l: byte): Option<byte> {
    if l == QUOTE || l == BACKSLASH || l == 47 then Some(l)
    else if l == 98 then Some(8)
    else if l == 102 then Some(12)
    else if l == 110 then Some(10)
    else if l == 114 then Some(13)
    else if l == 116 then Some(9)
    else None
  }

  /**
   Reading the inside of a JSON string. A raw quote or control character is an error; so is DEL,
   which the writer promises not to leave in. Of \u escapes only those of one byte are read.
   */
  function Unescape(t: seq<byte>): Option<seq<byte>>
    decreases |t|
  {
    if t == [] then Some([])
    else if t[0] == QUOTE || t[0] < SPACE || t[0] == DEL then None
    else if t[0] != BACKSLASH then Prepend(t[0], Unescape(t[1..]))
    else if |t| < 2 then None
    else if t[1] == 117 then
      if |t| < 6 || t[2] != 48 || t[3] != 48 || HexValue(t[4]).None? || HexValue(t[5]).None? then None
      else Prepend(HexValue(t[4]).value * 16 + HexValue(t[5]).value, Unescape(t[6..]))
    else if LetterMeaning(t[1]).None? then None
    else Prepend(LetterMeaning(t[1]).value, Unescape(t[2..]))
  }

  function Prepend(b: byte, s: Option<seq<byte>>): Option<seq<byte>> {
    if s.None? then None else Some([b] + s.value)
  }

  lemma HexRoundTrip(i: nat)
    requires i < 16
    ensures HexValue(Hex(i)) == Some(i)
  {
  }

  /** Which bytes are written as they are, which as a letter, and which as a number. */
  lemma EscapeKinds(b: byte)
    ensures Escape(b) == [b] <==> b >= 32 && b != 34 && b != 92 && b != 127
    ensures |Escape(b)| == 2 <==> b in {8, 9, 10, 12, 13, 34, 92}
    ensures |Escape(b)| == 6 <==> (b < 32 || b == 127) && b !in {8, 9, 10, 12, 13}
    ensures |Escape(b)| in {1, 2, 6}
  {
  }

  /** The count is the length of what is written, whatever the signedness of char. */
  lemma CountIsLength(b: byte, signed: bool)
    requires b != 0
    ensures |Escape(b)| == 1 + NeedEscape(CharOf(b, signed))
  {
  }

  lemma UnescapeOne(b: byte, rest: seq<byte>)
    ensures Unescape(Escape(b) + rest) == Prepend(b, Unescape(rest))
  {
    hide Hex, HexValue;
    if |Escape(b)| == 6 {
      UnescapeHex(b, rest);
    } else if |Escape(b)| == 2 {
      UnescapeLetter(b, rest);
    } else {
      assert (Escape(b) + rest)[1..] == rest;
    }
  }

  lemma UnescapeLetter(b: byte, rest: seq<byte>)
    requires b == QUOTE || b == BACKSLASH || Letter(b) != 0
    ensures Unescape([BACKSLASH, Escape(b)[1]] + rest) == Prepend(b, Unescape(rest))
  {
    hide Hex, HexValue, Prepend;
    var t := [BACKSLASH, Escape(b)[1]] + rest;
    assert t[2..] == rest && t[0] == BACKSLASH && t[1] == Escape(b)[1];
    assert t[1] != 117 && LetterMeaning(t[1]) == Some(b);
  }

  lemma UnescapeHex(b: byte, rest: seq<byte>)
    ensures Unescape([BACKSLASH, 117, 48, 48, Hex(b / 16), Hex(b % 16)] + rest) == Prepend(b, Unescape(rest))
  {
    hide Hex, HexValue, LetterMeaning, Prepend;
    HexRoundTrip(b / 16);
    HexRoundTrip(b % 16);
    var t := [BACKSLASH, 117, 48, 48, Hex(b / 16), Hex(b % 16)] + rest;
    assert t[6..] == rest && t[4] == Hex(b / 16) && t[5] == Hex(b % 16);
    assert t[0] == BACKSLASH && t[1] == 117 && t[2] == 48 && t[3] == 48;
  }

  /** Reading what was written gives back the string. */
  lemma {:induction false} EscapeRoundTrip(s: seq<byte>)
    ensures Unescape(Escaped(s)) == Some(s)
  {
    hide Escape, Unescape;
    if s == [] {
      UnescapeNothing();
    } else {
      EscapeRoundTrip(s[1..]);
      UnescapeOne(s[0], Escaped(s[1..]));
      assert s == [s[0]] + s[1..];
    }
  }

  lemma UnescapeNothing()
    ensures Unescape([]) == Some([])
  {
  }

  // ----- the two passes -----

  function Extra(s: seq<byte>, signed: bool): nat {
    if s == [] then 0 else NeedEscape(CharOf(s[0], signed)) + Extra(s[1..], signed)
  }

  lemma {:induction false} EscapedLength(s: seq<byte>, signed: bool)
    requires 0 !in s
    ensures |Escaped(s)| == |s| + Extra(s, signed)
  {
    hide Escape, NeedEscape, CharOf;
    if s != [] {
      CountIsLength(s[0], signed);
      EscapedLength(s[1..], signed);
    }
  }

  lemma ShortEscape(b: byte)
    ensures |Escape(b)| == 1 ==> Escape(b) == [b]
  {
  }

  lemma {:induction false} NothingToEscape(s: seq<byte>, signed: bool)
    requires 0 !in s && Extra(s, signed) == 0
    ensures Escaped(s) == s
  {
    hide Escape, NeedEscape, CharOf;
    if s != [] {
      CountIsLength(s[0], signed);
      ShortEscape(s[0]);
      NothingToEscape(s[1..], signed);
      assert s == [s[0]] + s[1..];
    }
  }

  lemma EscapedStep(s: seq<byte>, i: nat)
    requires i < |s|
    ensures Escaped(s[i..]) == Escape(s[i]) + Escaped(s[i + 1..])
  {
    assert s[i..][1..] == s[i + 1..];
  }

  lemma ExtraStep(s: seq<byte>, i: nat, signed: bool)
    requires i < |s|
    ensures Extra(s[i..], signed) == NeedEscape(CharOf(s[i], signed)) + Extra(s[i + 1..], signed)
  {
    assert s[i..][1..] == s[i + 1..];
  }

  /** The first pass. */
  method Count(s: seq<byte>, signed: bool) returns (j: nat)
    ensures j == Extra(s, signed)
  {
    j := 0;
    assert s[0..] == s;
    hide NeedEscape;
    for i := 0 to |s|
      invariant Extra(s, signed) == j + Extra(s[i..], signed)
    {
      ExtraStep(s, i, signed);
      j := j + NeedEscape(CharOf(s[i], signed));
    }
  }

  /** Writes what one character needs. */
  method Write(out: array<byte>, at: nat, b: byte, signed: bool) returns (j: nat)
    requires b != 0 && at + |Escape(b)| <= out.Length
    modifies out
    ensures j == at + |Escape(b)| && out[at..j] == Escape(b)
    ensures forall k :: 0 <= k < at ==> out[k] == old(out[k])
  {
    j := at;
    var c := CharOf(b, signed);
    if c == 34 || c == 92 {
      out[j], out[j + 1] := BACKSLASH, b;
      return j + 2;
    }
    if (c < 0 || c >= 32) && c != 127 {
      out[j] := b;
      return j + 1;
    }
    out[j] := BACKSLASH;
    if c == 8 {
      out[j + 1] := 98;
    } else if c == 10 {
      out[j + 1] := 110;
    } else if c == 13 {
      out[j + 1] := 114;
    } else if c == 9 {
      out[j + 1] := 116;
    } else if c == 12 {
      out[j + 1] := 102;
    } else {
      out[j + 1], out[j + 2], out[j + 3] := 117, 48, 48;
      out[j + 4], out[j + 5] := Hex(c / 16), Hex(c % 16);
      return j + 6;
    }
    return j + 2;
  }

  /** The second pass fills the buffer exactly, up to the terminating zero. */
  method WriteAll(s: seq<byte>, out: array<byte>, signed: bool)
    requires 0 !in s && out.Length == |Escaped(s)| + 1
    modifies out
    ensures out[..] == Escaped(s) + [0]
  {
    hide *;
    EscapedEnds(s);
    var i, j := 0, 0;
    while i < |s|
      invariant i <= |s| && j < out.Length
      invariant Escaped(s) == out[..j] + Escaped(s[i..])
    {
      EscapedStep(s, i);
      ghost var before := out[..j];
      var next := Write(out, j, s[i], signed);
      assert out[..next] == before + out[j..next];
      i, j := i + 1, next;
    }
    assert j + 1 == out.Length;
    out[j] := 0;
    assert out[..] == out[..j] + [0];
  }

  /** Escapes a string, given without its terminating zero; the first pass sizes the buffer. */
  method EscapeJsonString(s: seq<byte>, signed: bool) returns (r: seq<byte>)
    requires 0 !in s
    ensures r == Escaped(s) && Unescape(r) == Some(s)
  {
    EscapeRoundTrip(s);
    EscapedLength(s, signed);
    var extra := Count(s, signed);
    if extra == 0 {
      NothingToEscape(s, signed);
      return s;
    }
    var len := |s| + extra + 1;
    var out := new byte[len];
    WriteAll(s, out, signed);
    r := out[..len - 1];
  }

  lemma EscapedEnds(s: seq<byte>)
    ensures s[0..] == s && Escaped(s[|s|..]) == []
  {
  }
}
