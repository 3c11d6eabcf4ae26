/** The JavaScript string operations the core relies on: `split`/`join` on one separator
    character, `trim`, `toLowerCase`, `includes` and `startsWith`. */
module Text {
  import opened Wrappers

  predicate StartsWith(s: string, prefix: string) {
    |prefix| <= |s| && s[..|prefix|] == prefix
  }

  /** `needle` occurs in `hay` starting at position `i`. */
  predicate OccursAt(hay: string, needle: string, i: int) {
    0 <= i && i + |needle| <= |hay| && hay[i..i + |needle|] == needle
  }

  /** `hay.includes(needle)`: `needle` occurs somewhere in `hay` (the empty string always does). */
  function Includes(hay: string, needle: string): (r: bool)
    ensures r <==> exists i :: OccursAt(hay, needle, i)
  {
    if StartsWith(hay, needle) then
      assert OccursAt(hay, needle, 0);
      true
    else if hay == [] then false
    else
      var r := Includes(hay[1..], needle);
      assert r ==> exists i :: OccursAt(hay, needle, i) by {
        if r {
          var i :| OccursAt(hay[1..], needle, i);
          assert hay[i + 1..i + 1 + |needle|] == hay[1..][i..i + |needle|];
          assert OccursAt(hay, needle, i + 1);
        }
      }
      assert (exists i :: OccursAt(hay, needle, i)) ==> r by {
        if exists i :: OccursAt(hay, needle, i) {
          var i :| OccursAt(hay, needle, i);
          assert i != 0;
          assert hay[1..][i - 1..i - 1 + |needle|] == hay[i..i + |needle|];
          assert OccursAt(hay[1..], needle, i - 1);
        }
      }
      r
  }

  /** `toLowerCase` on one character, for the ASCII letters. */
  function LowerChar(c: char): char {
    if 'A' <= c <= 'Z' then (c as int + 32) as char else c
  }

  function ToLower(s: string): string {
    seq(|s|, i requires 0 <= i < |s| => LowerChar(s[i]))
  }

  /** Lower-casing a lower-cased string changes nothing more. */
  lemma ToLowerIdempotent(s: string)
    ensures ToLower(ToLower(s)) == ToLower(s)
  {
  }

  /** The characters `String.prototype.trim` removes: ECMAScript's WhiteSpace and
      LineTerminator code points. */
  const WhiteSpace: set<char> := {
    '\t', '\n', '\U{000B}', '\U{000C}', '\r', ' ', '\U{00A0}', '\U{1680}',
    '\U{2000}', '\U{2001}', '\U{2002}', '\U{2003}', '\U{2004}', '\U{2005}', '\U{2006}',
    '\U{2007}', '\U{2008}', '\U{2009}', '\U{200A}',
    '\U{2028}', '\U{2029}', '\U{202F}', '\U{205F}', '\U{3000}', '\U{FEFF}'
  }

  predicate IsSpace(c: char) {
    c in WhiteSpace
  }

  function TrimStart(s: string): (r: string)
    ensures |r| <= |s|
  {
    if s != [] && IsSpace(s[0]) then TrimStart(s[1..]) else s
  }

  function TrimEnd(s: string): (r: string)
    ensures |r| <= |s|
  {
    if s != [] && IsSpace(s[|s| - 1]) then TrimEnd(s[..|s| - 1]) else s
  }

  /** `TrimStart` drops white space only, and all of it: what it keeps is a suffix of `s`
      that does not start with white space. */
  lemma {:induction false} TrimStartSpec(s: string)
    ensures var r := TrimStart(s);
      r == s[|s| - |r|..] && (forall i :: 0 <= i < |s| - |r| ==> IsSpace(s[i])) && (r == [] || !IsSpace(r[0]))
  {
    if s != [] && IsSpace(s[0]) {
      TrimStartSpec(s[1..]);
      var r := TrimStart(s[1..]);
      assert s[1..][|s| - 1 - |r|..] == s[|s| - |r|..];
      forall i | 1 <= i < |s| - |r| ensures IsSpace(s[i]) {
        assert s[i] == s[1..][i - 1];
      }
    }
  }

  /** `TrimEnd` drops white space only, and all of it: what it keeps is a prefix of `s`
      that does not end with white space. */
  lemma {:induction false} TrimEndSpec(s: string)
    ensures var r := TrimEnd(s);
      r == s[..|r|] && (forall i :: |r| <= i < |s| ==> IsSpace(s[i])) && (r == [] || !IsSpace(r[|r| - 1]))
  {
    if s != [] && IsSpace(s[|s| - 1]) {
      var s' := s[..|s| - 1];
      TrimEndSpec(s');
      var r := TrimEnd(s');
      assert s'[..|r|] == s[..|r|];
      forall i | |r| <= i < |s| - 1 ensures IsSpace(s[i]) {
        assert s[i] == s'[i];
      }
    }
  }

  /** `r` is `s` with the `i` characters before it and whatever follows it all white space. */
  predicate TrimmedAt(s: string, r: string, i: int) {
    0 <= i <= i + |r| <= |s| && r == s[i..i + |r|]
    && (forall k :: 0 <= k < i ==> IsSpace(s[k]))
    && (forall k :: i + |r| <= k < |s| ==> IsSpace(s[k]))
  }

  /** `s.trim()`: the infix of `s` left after removing leading and trailing white space. */
  function Trim(s: string): (r: string)
    ensures |r| <= |s|
    ensures r == [] || (!IsSpace(r[0]) && !IsSpace(r[|r| - 1]))
  {
    var t := TrimStart(s);
    TrimStartSpec(s);
    TrimEndSpec(t);
    assert TrimEnd(t) == [] || TrimEnd(t)[0] == t[0];
    TrimEnd(t)
  }

  /** Where `Trim(s)` starts in `s`. */
  lemma TrimOffset(s: string) returns (i: int)
    ensures TrimmedAt(s, Trim(s), i)
  {
    var t := TrimStart(s);
    TrimStartSpec(s);
    TrimEndSpec(t);
    i := |s| - |t|;
    TrimmedAtCompose(s, t, TrimEnd(t), i);
  }

  /** A suffix of `s` after white space, cut before trailing white space, is trimmed at `i`. */
  lemma TrimmedAtCompose(s: string, t: string, r: string, i: int)
    requires 0 <= i <= |s| && t == s[i..] && forall k :: 0 <= k < i ==> IsSpace(s[k])
    requires |r| <= |t| && r == t[..|r|] && forall k :: |r| <= k < |t| ==> IsSpace(t[k])
    ensures TrimmedAt(s, r, i)
  {
    assert r == s[i..i + |r|];
    forall k | i + |r| <= k < |s|
      ensures IsSpace(s[k])
    {
      assert s[k] == t[k - i];
    }
  }

  /** `Trim` removes exactly the white space at both ends: the result is a stretch of `s`
      with only white space around it, it neither starts nor ends with white space, and it
      is empty exactly when `s` is all white space. */
  lemma TrimSpec(s: string)
    ensures exists i :: TrimmedAt(s, Trim(s), i)
    ensures var r := Trim(s); r == [] || (!IsSpace(r[0]) && !IsSpace(r[|r| - 1]))
    ensures Trim(s) == [] <==> forall k :: 0 <= k < |s| ==> IsSpace(s[k])
  {
    var i := TrimOffset(s);
  }

  /** The position of the first occurrence of `c` in `s`. */
  function IndexOf(s: string, c: char): (r: Option<nat>)
    ensures r.None? <==> c !in s
    ensures r.Some? ==> r.value < |s| && s[r.value] == c && c !in s[..r.value]
  {
    if s == [] then None
    else if s[0] == c then Some(0)
    else
      var r := IndexOf(s[1..], c);
      assert s == [s[0]] + s[1..];
      if r.None? then None
      else
        assert s[..r.value + 1] == [s[0]] + s[1..][..r.value];
        Some(r.value + 1)
  }

  /** `s.split(sep)`: the maximal pieces of `s` between occurrences of `sep`. */
  function Split(s: string, sep: char): (parts: seq<string>)
    ensures |parts| >= 1
    ensures forall k :: 0 <= k < |parts| ==> sep !in parts[k]
    ensures |parts| == 1 <==> sep !in s
    decreases |s|
  {
    match IndexOf(s, sep)
    case None => [s]
    case Some(i) => [s[..i]] + Split(s[i + 1..], sep)
  }

  /** `parts.join(sep)`. */
  function Join(parts: seq<string>, sep: char): (r: string)
    ensures |parts| >= 1 ==> parts[0] <= r
    ensures |parts| >= 2 ==> parts[0] + [sep] <= r
  {
    if |parts| == 0 then ""
    else if |parts| == 1 then parts[0]
    else parts[0] + [sep] + Join(parts[1..], sep)
  }

  /** Joining a piece in front of a non-empty list of pieces. */
  lemma JoinCons(a: string, rest: seq<string>, sep: char)
    requires |rest| >= 1
    ensures Join([a] + rest, sep) == a + [sep] + Join(rest, sep)
  {
    assert ([a] + rest)[1..] == rest;
  }

  /** A string cut at one of its separators. */
  lemma CutAt(s: string, i: nat, sep: char)
    requires i < |s| && s[i] == sep
    ensures s == s[..i] + [sep] + s[i + 1..]
  {
    assert s[..i + 1] == s[..i] + [sep];
    assert s == s[..i + 1] + s[i + 1..];
  }

  /** A prefix of a string cut at one of its separators. */
  lemma CutPrefix(s: string, i: nat, m: nat, sep: char)
    requires i < m <= |s| && s[i] == sep
    ensures s[..m] == s[..i] + [sep] + s[i + 1..][..m - i - 1]
  {
    var r := s[..i] + [sep] + s[i + 1..][..m - i - 1];
    assert |r| == m;
    forall j | 0 <= j < m
      ensures s[..m][j] == r[j]
    {
      if j > i {
        assert r[j] == s[i + 1..][..m - i - 1][j - i - 1];
      }
    }
  }

  /** Joining the pieces of a split gives the original string back. */
  lemma {:induction false} JoinSplit(s: string, sep: char)
    ensures Join(Split(s, sep), sep) == s
    decreases |s|
  {
    match IndexOf(s, sep)
    case None =>
    case Some(i) =>
      var rest := Split(s[i + 1..], sep);
      assert Split(s, sep) == [s[..i]] + rest;
      JoinCons(s[..i], rest, sep);
      JoinSplit(s[i + 1..], sep);
      CutAt(s, i, sep);
  }

  /** The position of the last occurrence of `c` in `s`. */
  function LastIndexOf(s: string, c: char): (r: Option<nat>)
    ensures r.None? <==> c !in s
    ensures r.Some? ==> r.value < |s| && s[r.value] == c && c !in s[r.value + 1..]
  {
    if s == [] then None
    else if s[|s| - 1] == c then Some(|s| - 1)
    else
      var r := LastIndexOf(s[..|s| - 1], c);
      assert s == s[..|s| - 1] + [s[|s| - 1]];
      if r.None? then None
      else
        assert s[r.value + 1..] == s[..|s| - 1][r.value + 1..] + [s[|s| - 1]];
        r
  }

  /** The last occurrence is the one with no occurrence after it. */
  lemma LastIndexOfUnique(s: string, c: char, m: nat)
    requires m < |s| && s[m] == c && c !in s[m + 1..]
    ensures LastIndexOf(s, c) == Some(m)
  {
  }

  /** A prefix without `sep`, followed by `sep`, is the first piece of the split. */
  lemma SplitAfter(a: string, rest: string, sep: char)
    requires sep !in a
    ensures Split(a + [sep] + rest, sep) == [a] + Split(rest, sep)
  {
    var s := a + [sep] + rest;
    assert s[..|a|] == a && s[|a|] == sep && s[|a| + 1..] == rest;
    assert sep in s[..|a| + 1];
  }

  /** Splitting the join of pieces free of the separator gives the pieces back. */
  lemma {:induction false} SplitJoin(parts: seq<string>, sep: char)
    requires |parts| >= 1
    requires forall k :: 0 <= k < |parts| ==> sep !in parts[k]
    ensures Split(Join(parts, sep), sep) == parts
  {
    if |parts| == 1 {
      assert IndexOf(parts[0], sep).None?;
    } else {
      var rest := parts[1..];
      assert [parts[0]] + rest == parts;
      JoinCons(parts[0], rest, sep);
      SplitAfter(parts[0], Join(rest, sep), sep);
      SplitJoin(rest, sep);
    }
  }

  /** `Join` of all pieces of `s` but the last one. */
  function JoinAllButLastPiece(s: string, sep: char): string {
    var parts := Split(s, sep);
    Join(parts[..|parts| - 1], sep)
  }

  /** All pieces but the last, joined back: the part of `s` before the last `sep`. */
  lemma {:induction false} JoinAllButLast(s: string, sep: char)
    requires sep in s
    ensures JoinAllButLastPiece(s, sep) == s[..LastIndexOf(s, sep).value]
    decreases |s|
  {
    var i := IndexOf(s, sep).value;
    if sep !in s[i + 1..] {
      JoinAllButLastBase(s, sep, i);
    } else {
      JoinAllButLast(s[i + 1..], sep);
      JoinAllButLastStep(s, sep, i);
    }
  }

  /** `s` has exactly one separator, at `i`. */
  lemma JoinAllButLastBase(s: string, sep: char, i: nat)
    requires IndexOf(s, sep) == Some(i) && sep !in s[i + 1..]
    ensures JoinAllButLastPiece(s, sep) == s[..LastIndexOf(s, sep).value]
  {
    var parts := Split(s, sep);
    assert parts == [s[..i]] + Split(s[i + 1..], sep);
    assert parts[..|parts| - 1] == [s[..i]];
  }

  /** The inductive step: the first piece, a separator, and what the rest of the string gives. */
  lemma JoinAllButLastStep(s: string, sep: char, i: nat)
    requires IndexOf(s, sep) == Some(i) && sep in s[i + 1..]
    requires JoinAllButLastPiece(s[i + 1..], sep) == s[i + 1..][..LastIndexOf(s[i + 1..], sep).value]
    ensures JoinAllButLastPiece(s, sep) == s[..LastIndexOf(s, sep).value]
  {
    var t := s[i + 1..];
    var k := LastIndexOf(t, sep).value;
    JoinAllButLastCons(s, sep, i);
    LastIndexOfShift(s, sep, i, k);
    CutPrefix(s, i, i + 1 + k, sep);
    assert JoinAllButLastPiece(s, sep) == s[..i] + [sep] + t[..k];
  }

  /** Dropping the last piece of a string with a later separator keeps its first piece. */
  lemma JoinAllButLastCons(s: string, sep: char, i: nat)
    requires IndexOf(s, sep) == Some(i) && sep in s[i + 1..]
    ensures JoinAllButLastPiece(s, sep) == s[..i] + [sep] + JoinAllButLastPiece(s[i + 1..], sep)
  {
    var tparts := Split(s[i + 1..], sep);
    assert |tparts| >= 2;
    var init := tparts[..|tparts| - 1];
    var parts := Split(s, sep);
    assert parts == [s[..i]] + tparts;
    assert |init| >= 1;
    assert parts[..|parts| - 1] == [s[..i]] + init;
    JoinCons(s[..i], init, sep);
  }

  /** The last separator of the rest of `s`, found again in `s`. */
  lemma LastIndexOfShift(s: string, sep: char, i: nat, k: nat)
    requires i < |s| && LastIndexOf(s[i + 1..], sep) == Some(k)
    ensures LastIndexOf(s, sep) == Some(i + 1 + k)
  {
    var t := s[i + 1..];
    var m := i + 1 + k;
    assert s[m] == t[k] == sep;
    assert s[m + 1..] == t[k + 1..];
    assert sep !in s[m + 1..];
    LastIndexOfUnique(s, sep, m);
  }
}
