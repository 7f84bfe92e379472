/** The string builtins the validators rely on: character classes, `split('\n')`,
    `strip()`, `lower()`, the `in` substring test, and the collapsing of
    whitespace runs into single blanks.
    Character classes are those of Python 3 restricted to Latin-1 (code points
    below 256); whitespace is Python's complete `str.isspace()` set. */
module Text {

  /** `str.isspace()`, which is also what `\s` and `strip()` use. */
  predicate IsSpace(c: char)
  {
    ('\t' <= c <= '\r') || ('\U{1C}' <= c <= ' ') || c == '\U{85}' || c == '\U{A0}'
    || c == '\U{1680}' || ('\U{2000}' <= c <= '\U{200A}') || c == '\U{2028}' || c == '\U{2029}'
    || c == '\U{202F}' || c == '\U{205F}' || c == '\U{3000}'
  }

  /** `\d` (a decimal digit). */
  predicate IsDigit(c: char)
  {
    '0' <= c <= '9'
  }

  /** `str.isalpha()` on Latin-1: ASCII letters, the Latin-1 letters and
      the ordinal indicators and micro sign. */
  predicate IsAlpha(c: char)
  {
    ('A' <= c <= 'Z') || ('a' <= c <= 'z') || c == '\U{AA}' || c == '\U{B5}' || c == '\U{BA}'
    || ('\U{C0}' <= c <= '\U{FF}' && c != '\U{D7}' && c != '\U{F7}')
  }

  /** `str.isdigit()` on Latin-1: the decimal digits and the superscripts one to three. */
  predicate IsDigitLike(c: char)
  {
    IsDigit(c) || c == '\U{B2}' || c == '\U{B3}' || c == '\U{B9}'
  }

  /** `\w`: alphanumeric (letters, digits, numeric signs such as the vulgar
      fractions) or the underscore. */
  predicate IsWordChar(c: char)
  {
    IsAlpha(c) || IsDigitLike(c) || ('\U{BC}' <= c <= '\U{BE}') || c == '_'
  }

  predicate AllDigits(s: string)
  {
    forall k :: 0 <= k < |s| ==> IsDigit(s[k])
  }

  predicate AllSpace(s: string)
  {
    forall k :: 0 <= k < |s| ==> IsSpace(s[k])
  }

  /** The end of the run of digits starting at `i`. */
  function DigitRunEnd(s: string, i: nat): (e: nat)
    requires i <= |s|
    ensures i <= e <= |s|
    ensures forall k :: i <= k < e ==> IsDigit(s[k])
    ensures e == |s| || !IsDigit(s[e])
    decreases |s| - i
  {
    if i < |s| && IsDigit(s[i]) then DigitRunEnd(s, i + 1) else i
  }

  /** A run end is determined by its two defining facts. */
  lemma {:induction false} DigitRunEndUnique(s: string, i: nat, e: nat)
    requires i <= e <= |s|
    requires forall k :: i <= k < e ==> IsDigit(s[k])
    requires e == |s| || !IsDigit(s[e])
    ensures DigitRunEnd(s, i) == e
    decreases |s| - i
  {
    if i < e {
      DigitRunEndUnique(s, i + 1, e);
    }
  }

  /** Deleting a character class with a regular expression substitution:
      `s` without the characters of `cs`, the others kept in order. */
  function RemoveAll(s: string, cs: set<char>): (r: string)
    ensures |r| <= |s|
    ensures forall c :: c in r <==> c in s && c !in cs
  {
    if s == [] then []
    else
      var init := RemoveAll(s[..|s| - 1], cs);
      assert forall c :: c in s <==> c in s[..|s| - 1] || c == s[|s| - 1] by {
        assert s == s[..|s| - 1] + [s[|s| - 1]];
      }
      init + (if s[|s| - 1] in cs then [] else [s[|s| - 1]])
  }

  lemma {:induction false} RemoveAllAppend(s: string, t: string, cs: set<char>)
    ensures RemoveAll(s + t, cs) == RemoveAll(s, cs) + RemoveAll(t, cs)
  {
    if t == [] {
      assert s + t == s;
    } else {
      assert (s + t)[..|s + t| - 1] == s + t[..|t| - 1];
      RemoveAllAppend(s, t[..|t| - 1], cs);
    }
  }

  lemma {:induction false} RemoveAllKeeps(s: string, cs: set<char>)
    requires forall k :: 0 <= k < |s| ==> s[k] !in cs
    ensures RemoveAll(s, cs) == s
  {
    if s != [] {
      var init := s[..|s| - 1];
      assert forall k :: 0 <= k < |init| ==> init[k] == s[k];
      RemoveAllKeeps(init, cs);
      assert s[|s| - 1] !in cs;
      assert RemoveAll(s, cs) == RemoveAll(init, cs) + [s[|s| - 1]];
      assert s == init + [s[|s| - 1]];
    }
  }

  /** Python's `isdigit` on a string: non-empty and made of digit-like characters only. */
  predicate IsDigitString(s: string)
  {
    |s| > 0 && forall k :: 0 <= k < |s| ==> IsDigitLike(s[k])
  }

  /** `s.split('\n')`: the pieces between newlines, always at least one. */
  function Split(s: string): (r: seq<string>)
    ensures |r| >= 1
  {
    if s == [] then [""]
    else
      var rest := Split(s[1..]);
      if s[0] == '\n' then [""] + rest else [[s[0]] + rest[0]] + rest[1..]
  }

  /** No piece of a split holds a newline. */
  lemma {:induction false} SplitNoNewline(s: string)
    ensures forall k :: 0 <= k < |Split(s)| ==> '\n' !in Split(s)[k]
  {
    if s != [] {
      SplitNoNewline(s[1..]);
    }
  }

  /** Joining the pieces of a split with newlines gives back the text. */
  lemma {:induction false} SplitJoin(s: string)
    ensures Join(Split(s)) == s
  {
    if s != [] {
      SplitJoin(s[1..]);
      var rest := Split(s[1..]);
      if s[0] != '\n' && |rest| > 1 {
        assert ([s[0]] + rest[0]) + "\n" + Join(rest[1..]) == [s[0]] + (rest[0] + "\n" + Join(rest[1..]));
      }
    }
  }

  /** `'\n'.join(pieces)`. */
  function Join(pieces: seq<string>): string
    requires |pieces| >= 1
  {
    if |pieces| == 1 then pieces[0] else pieces[0] + "\n" + Join(pieces[1..])
  }

  /** The end of the run of whitespace that starts at `i`. */
  function SpaceRunEnd(s: string, i: nat): (j: nat)
    requires i <= |s|
    ensures i <= j <= |s|
    ensures forall k :: i <= k < j ==> IsSpace(s[k])
    ensures j == |s| || !IsSpace(s[j])
    decreases |s| - i
  {
    if i < |s| && IsSpace(s[i]) then SpaceRunEnd(s, i + 1) else i
  }

  /** Removes leading whitespace: what is left is a suffix of `s` that is empty
      or starts with a non-space, and everything removed is whitespace. */
  function TrimStart(s: string): (r: string)
    ensures forall k :: 0 <= k < |s| - |r| ==> IsSpace(s[k])
    ensures r == [] || !IsSpace(r[0])
  {
    s[SpaceRunEnd(s, 0)..]
  }

  /** The start of the run of whitespace that ends at `j`. */
  function SpaceRunStart(s: string, j: nat): (i: nat)
    requires j <= |s|
    ensures i <= j
    ensures forall k :: i <= k < j ==> IsSpace(s[k])
    ensures i == 0 || !IsSpace(s[i - 1])
  {
    if j > 0 && IsSpace(s[j - 1]) then SpaceRunStart(s, j - 1) else j
  }

  /** Removes trailing whitespace: a prefix of `s` that is empty or ends in a non-space. */
  function TrimEnd(s: string): (r: string)
    ensures forall k :: |r| <= k < |s| ==> IsSpace(s[k])
    ensures r == [] || !IsSpace(r[|r| - 1])
  {
    s[..SpaceRunStart(s, |s|)]
  }

  /** `r` is `s[a..]` cut to length `|r|`, with only whitespace around it. */
  predicate IsSliceWithinBlanks(s: string, r: string, a: nat)
  {
    a + |r| <= |s| && r == s[a..a + |r|] && AllSpace(s[..a]) && AllSpace(s[a + |r|..])
  }

  /** `s.strip()`: whitespace removed from both ends (what that leaves is
      stated in `StripFacts`). */
  function Strip(s: string): string
  {
    TrimEnd(TrimStart(s))
  }

  /** `s.strip()` is a slice of `s` with whitespace only outside it, that
      neither starts nor ends in whitespace, and is empty exactly when `s` is blank. */
  lemma StripFacts(s: string)
    ensures exists a: nat :: IsSliceWithinBlanks(s, Strip(s), a)
    ensures Strip(s) == [] || (!IsSpace(Strip(s)[0]) && !IsSpace(Strip(s)[|Strip(s)| - 1]))
    ensures Strip(s) == [] <==> AllSpace(s)
  {
    var a := SpaceRunEnd(s, 0);
    var t := s[a..];
    assert TrimStart(s) == t;
    var n := SpaceRunStart(t, |t|);
    var r := t[..n];
    assert Strip(s) == r;
    assert r == s[a..a + n];
    AllSpaceSlice(s, 0, a);
    assert s[a + n..] == t[n..];
    AllSpaceSlice(t, n, |t|);
    assert IsSliceWithinBlanks(s, r, a);
    if r != [] {
      assert r[0] == t[0];
    }
  }

  /** A slice made only of whitespace is blank. */
  lemma AllSpaceSlice(s: string, i: nat, j: nat)
    requires i <= j <= |s|
    requires forall k :: i <= k < j ==> IsSpace(s[k])
    ensures AllSpace(s[i..j])
  {
    forall k | 0 <= k < j - i ensures IsSpace(s[i..j][k]) {
      assert s[i..j][k] == s[i + k];
    }
  }

  function LowerChar(c: char): char
  {
    if 'A' <= c <= 'Z' || ('\U{C0}' <= c <= '\U{DE}' && c != '\U{D7}') then (c as int + 32) as char else c
  }

  /** `s.lower()` on Latin-1: each character mapped by `LowerChar` (see `LowerChars`). */
  function Lower(s: string): (r: string)
    ensures |r| == |s|
  {
    if s == [] then [] else Lower(s[..|s| - 1]) + [LowerChar(s[|s| - 1])]
  }

  /** Lowering maps each character by itself: upper-case letters to lower case. */
  lemma {:induction false} LowerChars(s: string)
    ensures forall k :: 0 <= k < |s| ==> Lower(s)[k] == LowerChar(s[k])
  {
    if s != [] {
      LowerChars(s[..|s| - 1]);
    }
  }

  /** `sub in s`. */
  predicate Contains(s: string, sub: string)
  {
    exists i | 0 <= i <= |s| - |sub| :: OccursAt(s, sub, i)
  }

  predicate OccursAt(s: string, sub: string, i: nat)
  {
    i + |sub| <= |s| && s[i..i + |sub|] == sub
  }

  /** A text that starts with `sub` contains it. */
  lemma ContainsPrefix(s: string, sub: string)
    requires |sub| <= |s| && s[..|sub|] == sub
    ensures Contains(s, sub)
  {
    assert OccursAt(s, sub, 0);
  }

  /** A text in which the first character of `sub` does not occur does not contain `sub`. */
  lemma NotContainsFirst(s: string, sub: string)
    requires |sub| > 0 && sub[0] !in s
    ensures !Contains(s, sub)
  {
    forall i | 0 <= i <= |s| - |sub| ensures !OccursAt(s, sub, i) {
      assert s[i] != sub[0];
      if i + |sub| <= |s| {
        assert s[i..i + |sub|][0] == s[i];
      }
    }
  }

  /** Whitespace collapsing with a regular expression: every maximal run
      of whitespace becomes one blank (what that leaves is stated in `CollapseSpacesFacts`). */
  function CollapseSpaces(s: string): string
    decreases |s|
  {
    if s == [] then []
    else if IsSpace(s[0]) then
      [' '] + CollapseSpaces(TrimStart(s[1..]))
    else
      [s[0]] + CollapseSpaces(s[1..])
  }

  /** The result has no whitespace other than single blanks, never two
      blanks in a row, and keeps its first and last characters when those
      are not whitespace. */
  lemma {:induction false} CollapseSpacesFacts(s: string)
    ensures var r := CollapseSpaces(s);
      && (forall k :: 0 <= k < |r| && IsSpace(r[k]) ==> r[k] == ' ')
      && (forall k :: 0 <= k < |r| - 1 && r[k] == ' ' ==> r[k + 1] != ' ')
      && (s != [] && !IsSpace(s[0]) ==> r != [] && r[0] == s[0])
      && (s != [] && !IsSpace(s[|s| - 1]) ==> r != [] && r[|r| - 1] == s[|s| - 1])
      && (s == [] <==> r == [])
    decreases |s|
  {
    if s != [] {
      var rest := if IsSpace(s[0]) then TrimStart(s[1..]) else s[1..];
      CollapseSpacesFacts(rest);
    }
  }

  /** Collapsing whitespace keeps every other character, in order. */
  lemma {:induction false} CollapseKeepsText(s: string)
    ensures NonSpace(CollapseSpaces(s)) == NonSpace(s)
    decreases |s|
  {
    if s == [] {
    } else if IsSpace(s[0]) {
      var t := TrimStart(s[1..]);
      var blank := s[..|s| - |t|];
      NonSpaceOfBlank(blank);
      assert s == blank + t;
      NonSpaceAppend(blank, t);
      NonSpaceAppend([' '], CollapseSpaces(t));
      CollapseKeepsText(t);
    } else {
      assert s == [s[0]] + s[1..];
      NonSpaceAppend([s[0]], s[1..]);
      NonSpaceAppend([s[0]], CollapseSpaces(s[1..]));
      CollapseKeepsText(s[1..]);
    }
  }

  /** The non-whitespace characters of `s`, in order. */
  function NonSpace(s: string): string
  {
    if s == [] then [] else (if IsSpace(s[0]) then [] else [s[0]]) + NonSpace(s[1..])
  }

  lemma {:induction false} NonSpaceAppend(s: string, t: string)
    ensures NonSpace(s + t) == NonSpace(s) + NonSpace(t)
  {
    if s == [] {
      assert s + t == t;
    } else {
      assert (s + t)[0] == s[0];
      assert (s + t)[1..] == s[1..] + t;
      NonSpaceAppend(s[1..], t);
      var h := if IsSpace(s[0]) then [] else [s[0]];
      assert NonSpace(s + t) == h + (NonSpace(s[1..]) + NonSpace(t));
      assert h + (NonSpace(s[1..]) + NonSpace(t)) == (h + NonSpace(s[1..])) + NonSpace(t);
    }
  }

  lemma {:induction false} NonSpaceOfBlank(s: string)
    requires AllSpace(s)
    ensures NonSpace(s) == []
  {
    if s != [] {
      NonSpaceOfBlank(s[1..]);
    }
  }

  /** Stripping removes only whitespace. */
  lemma StripKeepsText(s: string)
    ensures NonSpace(Strip(s)) == NonSpace(s)
  {
    var r := Strip(s);
    StripFacts(s);
    var a: nat :| IsSliceWithinBlanks(s, r, a);
    BlanksAround(s[..a], r, s[a + |r|..]);
    SliceAround(s, a, |r|);
  }

  lemma SliceAround(s: string, a: nat, n: nat)
    requires a + n <= |s|
    ensures s == s[..a] + s[a..a + n] + s[a + n..]
  {
  }

  /** Whitespace on both sides adds nothing to the non-whitespace text. */
  lemma BlanksAround(before: string, r: string, after: string)
    requires AllSpace(before) && AllSpace(after)
    ensures NonSpace(before + r + after) == NonSpace(r)
  {
    NonSpaceAppend(before + r, after);
    NonSpaceAppend(before, r);
    NonSpaceOfBlank(before);
    NonSpaceOfBlank(after);
    assert NonSpace(before + r + after) == (NonSpace(before) + NonSpace(r)) + NonSpace(after);
  }

  lemma {:induction false} SpaceRunEndUnique(s: string, i: nat, e: nat)
    requires i <= e <= |s|
    requires forall k :: i <= k < e ==> IsSpace(s[k])
    requires e == |s| || !IsSpace(s[e])
    ensures SpaceRunEnd(s, i) == e
    decreases e - i
  {
    if i < e {
      SpaceRunEndUnique(s, i + 1, e);
    }
  }

  lemma {:induction false} SpaceRunStartUnique(s: string, i: nat, j: nat)
    requires i <= j <= |s|
    requires forall k :: i <= k < j ==> IsSpace(s[k])
    requires i == 0 || !IsSpace(s[i - 1])
    ensures SpaceRunStart(s, j) == i
    decreases j - i
  {
    if i < j {
      SpaceRunStartUnique(s, i, j - 1);
    }
  }

  /** Leading whitespace lies inside `a` when `a` ends in a non-space. */
  lemma TrimStartAppend(a: string, b: string)
    requires a != [] && !IsSpace(a[|a| - 1])
    ensures TrimStart(a + b) == TrimStart(a) + b
  {
    var e := SpaceRunEnd(a, 0);
    assert e < |a|;
    SpaceRunEndUnique(a + b, 0, e);
    assert (a + b)[e..] == a[e..] + b;
  }

  /** Trailing whitespace lies inside `b` when `b` starts with a non-space. */
  lemma TrimEndAppend(a: string, b: string)
    requires b != [] && !IsSpace(b[0])
    ensures TrimEnd(a + b) == a + TrimEnd(b)
  {
    var i := SpaceRunStart(b, |b|);
    assert i > 0;
    SpaceRunStartUnique(a + b, |a| + i, |a + b|);
    assert (a + b)[..|a| + i] == a + b[..i];
  }

  /** Whitespace in front of a non-space (or of nothing) is removed entirely. */
  lemma TrimStartOfBlanks(w: string, v: string)
    requires AllSpace(w)
    requires v == [] || !IsSpace(v[0])
    ensures TrimStart(w + v) == v
  {
    SpaceRunEndUnique(w + v, 0, |w|);
    assert (w + v)[|w|..] == v;
  }

  /** Stripping a text whose inner whitespace run `w` sits between a
      non-space and a non-space leaves that run in place. */
  lemma StripAroundRun(u: string, w: string, v: string)
    requires u != [] && !IsSpace(u[|u| - 1])
    requires v != [] && !IsSpace(v[0])
    ensures Strip(u + w + v) == Strip(u) + w + Strip(v)
    ensures Strip(u) != [] && Strip(u)[|Strip(u)| - 1] == u[|u| - 1]
    ensures Strip(v) != [] && Strip(v)[0] == v[0]
  {
    StripEndingInText(u);
    StripStartingWithText(v);
    var a := TrimStart(u);
    ConcatAssoc(u, w, v);
    TrimStartAppend(u, w + v);
    ConcatAssoc(a, w, v);
    TrimEndAppend(a + w, v);
  }

  lemma StripEndingInText(u: string)
    requires u != [] && !IsSpace(u[|u| - 1])
    ensures Strip(u) == TrimStart(u)
    ensures Strip(u) != [] && Strip(u)[|Strip(u)| - 1] == u[|u| - 1]
  {
    var a := TrimStart(u);
    assert a != [] && a[|a| - 1] == u[|u| - 1];
    assert SpaceRunStart(a, |a|) == |a|;
    assert a[..|a|] == a;
  }

  lemma StripStartingWithText(v: string)
    requires v != [] && !IsSpace(v[0])
    ensures Strip(v) == TrimEnd(v)
    ensures Strip(v) != [] && Strip(v)[0] == v[0]
  {
    assert SpaceRunEnd(v, 0) == 0;
    assert v[0..] == v;
    var i := SpaceRunStart(v, |v|);
    assert i > 0;
  }

  /** Every internal run of whitespace, between a non-space and a non-space,
      becomes exactly one blank: the run is neither kept nor deleted. */
  lemma CollapseRun(u: string, w: string, v: string)
    requires u == [] || !IsSpace(u[|u| - 1])
    requires w != [] && AllSpace(w)
    requires v == [] || !IsSpace(v[0])
    ensures CollapseSpaces(u + w + v) == CollapseSpaces(u) + " " + CollapseSpaces(v)
  {
    ConcatAssoc(u, w, v);
    CollapseAfterText(u, w + v);
    CollapseRunAlone(w, v);
    ConcatAssoc(CollapseSpaces(u), " ", CollapseSpaces(v));
  }

  lemma ConcatAssoc(a: string, b: string, c: string)
    ensures a + b + c == a + (b + c)
  {
  }

  /** A text ending in a non-space collapses independently of what follows it. */
  lemma {:induction false} CollapseAfterText(u: string, x: string)
    requires u == [] || !IsSpace(u[|u| - 1])
    ensures CollapseSpaces(u + x) == CollapseSpaces(u) + CollapseSpaces(x)
    decreases |u|
  {
    if u == [] {
      assert u + x == x;
    } else if IsSpace(u[0]) {
      var t := CollapseRunSpaceStep(u, x);
      CollapseAfterText(t, x);
      ConcatAssoc([' '], CollapseSpaces(t), CollapseSpaces(x));
    } else {
      CollapseRunCharStep(u, x);
      assert u[1..] == [] || u[1..][|u[1..]| - 1] == u[|u| - 1];
      CollapseAfterText(u[1..], x);
      ConcatAssoc([u[0]], CollapseSpaces(u[1..]), CollapseSpaces(x));
    }
  }

  lemma CollapseRunAlone(w: string, v: string)
    requires w != [] && AllSpace(w)
    requires v == [] || !IsSpace(v[0])
    ensures CollapseSpaces(w + v) == " " + CollapseSpaces(v)
  {
    var s := w + v;
    assert IsSpace(s[0]);
    assert s[1..] == w[1..] + v;
    TrimStartOfBlanks(w[1..], v);
  }

  /** Collapsing `u + x` where `u` starts with whitespace and ends in a
      non-space: one blank, then the collapse of `u`'s trimmed tail and `x`. */
  lemma CollapseRunSpaceStep(u: string, x: string) returns (t: string)
    requires u != [] && IsSpace(u[0]) && !IsSpace(u[|u| - 1])
    ensures t == TrimStart(u[1..]) && |t| < |u|
    ensures t != [] && t[|t| - 1] == u[|u| - 1]
    ensures CollapseSpaces(u + x) == [' '] + CollapseSpaces(t + x)
    ensures CollapseSpaces(u) == [' '] + CollapseSpaces(t)
  {
    var rest := u[1..];
    assert rest != [] && rest[|rest| - 1] == u[|u| - 1];
    t := TrimStart(rest);
    TrimStartAppend(rest, x);
    assert (u + x)[1..] == rest + x;
    CollapseAtSpace(u + x);
  }

  /** Collapsing `u + x` where `u` starts with a non-space keeps that character. */
  lemma CollapseRunCharStep(u: string, x: string)
    requires u != [] && !IsSpace(u[0])
    ensures CollapseSpaces(u + x) == [u[0]] + CollapseSpaces(u[1..] + x)
    ensures CollapseSpaces(u) == [u[0]] + CollapseSpaces(u[1..])
  {
    assert (u + x)[0] == u[0];
    assert (u + x)[1..] == u[1..] + x;
  }

  lemma CollapseAtSpace(s: string)
    requires s != [] && IsSpace(s[0])
    ensures CollapseSpaces(s) == [' '] + CollapseSpaces(TrimStart(s[1..]))
  {
  }

}
