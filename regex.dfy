/** The three regular expressions the validators pass to `re.findall`, with
    Python's leftmost, non-overlapping, backtracking semantics written out. */
module Regex {
  import opened Util
  import opened Text

  datatype Pattern =
    | Dollar  // r'\$[\d,]+\.?\d*'
    | Plain   // r'\b[\d,]+\.?\d*\b'
    | Signed  // r'-?\d+\.?\d*'

  predicate IsDigitOrComma(c: char)
  {
    IsDigit(c) || c == ','
  }

  /** The end of the run of `[\d,]` starting at `i`. */
  function DigitCommaRunEnd(s: string, i: nat): (e: nat)
    requires i <= |s|
    ensures i <= e <= |s|
    ensures forall k :: i <= k < e ==> IsDigitOrComma(s[k])
    ensures e == |s| || !IsDigitOrComma(s[e])
    decreases |s| - i
  {
    if i < |s| && IsDigitOrComma(s[i]) then DigitCommaRunEnd(s, i + 1) else i
  }

  lemma {:induction false} DigitCommaRunEndUnique(s: string, i: nat, e: nat)
    requires i <= e <= |s|
    requires forall k :: i <= k < e ==> IsDigitOrComma(s[k])
    requires e == |s| || !IsDigitOrComma(s[e])
    ensures DigitCommaRunEnd(s, i) == e
    decreases |s| - i
  {
    if i < e {
      DigitCommaRunEndUnique(s, i + 1, e);
    }
  }

  /** `\b` at position `p`: a word character on exactly one side. */
  predicate Boundary(s: string, p: nat)
    requires p <= |s|
  {
    (p > 0 && IsWordChar(s[p - 1])) != (p < |s| && IsWordChar(s[p]))
  }

  /** The largest position in `[lo, hi]` that is a word boundary, if any. */
  function LastBoundary(s: string, lo: nat, hi: nat): (r: Option<nat>)
    requires lo <= hi <= |s|
    ensures r.Some? ==> lo <= r.value <= hi && Boundary(s, r.value)
    ensures r.Some? ==> forall e :: r.value < e <= hi ==> !Boundary(s, e)
    ensures r.None? ==> forall e :: lo <= e <= hi ==> !Boundary(s, e)
    decreases hi
  {
    if Boundary(s, hi) then Some(hi)
    else if hi == lo then None
    else LastBoundary(s, lo, hi - 1)
  }

  /** Where greedy `\.?\d*` ends when it starts at `a`. */
  function FractionEnd(s: string, a: nat): (e: nat)
    requires a <= |s|
    ensures a <= e <= |s|
  {
    if a < |s| && s[a] == '.' then DigitRunEnd(s, a + 1) else a
  }

  /** The end of the match of pattern `p` that starts at `i`, if there is one.
      For `Plain` the backtracking order of `[\d,]+\.?\d*\b` tries the ends
      inside the dot-and-digits extension from the longest down, then the ends
      inside the `[\d,]` run from the longest down; the first end that is a
      word boundary wins. */
  function MatchAt(p: Pattern, s: string, i: nat): (r: Option<nat>)
    requires i < |s|
    ensures r.Some? ==> i < r.value <= |s|
  {
    match p
    case Dollar =>
      if s[i] == '$' && i + 1 < |s| && IsDigitOrComma(s[i + 1])
      then Some(FractionEnd(s, DigitCommaRunEnd(s, i + 1)))
      else None
    case Signed =>
      var d := if s[i] == '-' then i + 1 else i;
      if d < |s| && IsDigit(s[d]) then Some(FractionEnd(s, DigitRunEnd(s, d))) else None
    case Plain =>
      if IsDigitOrComma(s[i]) && Boundary(s, i) then
        var m := DigitCommaRunEnd(s, i);
        var withDot := if m < |s| && s[m] == '.' then LastBoundary(s, m + 1, DigitRunEnd(s, m + 1)) else None;
        if withDot.Some? then withDot else LastBoundary(s, i + 1, m)
      else None
  }

  /** The match, if any, that starts at each position of `s`. */
  function MatchTable(p: Pattern, s: string): (t: seq<Option<nat>>)
    ensures |t| == |s| && ValidTable(t)
    ensures forall j :: 0 <= j < |s| ==> t[j] == MatchAt(p, s, j)
  {
    seq(|s|, j requires 0 <= j < |s| => MatchAt(p, s, j))
  }

  /** Every match recorded in the table ends after its start and within the text. */
  predicate ValidTable(t: seq<Option<nat>>)
  {
    forall j :: 0 <= j < |t| && t[j].Some? ==> j < t[j].value <= |t|
  }

  /** Position `j` lies inside one of the spans. */
  predicate Covered(spans: seq<(nat, nat)>, j: nat)
  {
    exists k :: 0 <= k < |spans| && spans[k].0 <= j < spans[k].1
  }

  /** The scan `re.findall` makes from position `i` on: take the match at the
      current position and resume at its end, or move one position on. */
  function Scan(t: seq<Option<nat>>, i: nat): (spans: seq<(nat, nat)>)
    requires ValidTable(t) && i <= |t|
    ensures forall k :: 0 <= k < |spans| ==>
      i <= spans[k].0 < |t| && t[spans[k].0] == Some(spans[k].1)
    decreases |t| - i
  {
    if i == |t| then []
    else if t[i].Some? then [(i, t[i].value)] + Scan(t, t[i].value)
    else Scan(t, i + 1)
  }

  /** The spans come in text order and do not overlap. */
  lemma {:induction false} ScanOrdered(t: seq<Option<nat>>, i: nat, k: nat)
    requires ValidTable(t) && i <= |t|
    requires k + 1 < |Scan(t, i)|
    ensures Scan(t, i)[k].1 <= Scan(t, i)[k + 1].0
    decreases |t| - i
  {
    var spans := Scan(t, i);
    if t[i].Some? {
      var rest := Scan(t, t[i].value);
      assert spans == [(i, t[i].value)] + rest;
      if k == 0 {
        assert spans[1] == rest[0];
      } else {
        assert spans[k] == rest[k - 1] && spans[k + 1] == rest[k];
        ScanOrdered(t, t[i].value, k - 1);
      }
    } else {
      ScanOrdered(t, i + 1, k);
    }
  }

  /** Leftmost matching: no match starts at a position none of the spans covers. */
  lemma {:induction false} ScanLeftmost(t: seq<Option<nat>>, i: nat, j: nat)
    requires ValidTable(t) && i <= j < |t|
    requires !Covered(Scan(t, i), j)
    ensures t[j].None?
    decreases |t| - i
  {
    var spans := Scan(t, i);
    if t[i].Some? {
      var e := t[i].value;
      var rest := Scan(t, e);
      assert spans == [(i, e)] + rest;
      assert j >= e by {
        assert spans[0] == (i, e);
      }
      CoveredTail((i, e), rest, j);
      ScanLeftmost(t, e, j);
    } else if j > i {
      ScanLeftmost(t, i + 1, j);
    }
  }

  lemma CoveredTail(first: (nat, nat), rest: seq<(nat, nat)>, j: nat)
    ensures Covered(rest, j) ==> Covered([first] + rest, j)
  {
    if Covered(rest, j) {
      var k :| 0 <= k < |rest| && rest[k].0 <= j < rest[k].1;
      assert ([first] + rest)[k + 1] == rest[k];
    }
  }

  /** The spans of the matches `re.findall(p, s)` reports: each a match of
      `p` at its start, in text order, without overlap, and with no match
      starting at a position they leave uncovered. */
  function FindAll(p: Pattern, s: string): (spans: seq<(nat, nat)>)
    ensures forall k :: 0 <= k < |spans| ==>
      spans[k].0 < |s| && MatchAt(p, s, spans[k].0) == Some(spans[k].1)
    ensures forall k :: 0 <= k < |spans| - 1 ==> spans[k].1 <= spans[k + 1].0
    ensures forall j :: 0 <= j < |s| && !Covered(spans, j) ==> MatchAt(p, s, j).None?
  {
    var t := MatchTable(p, s);
    var spans := Scan(t, 0);
    forall k | 0 <= k < |spans| - 1 ensures spans[k].1 <= spans[k + 1].0 {
      ScanOrdered(t, 0, k);
    }
    forall j | 0 <= j < |s| && !Covered(spans, j) ensures MatchAt(p, s, j).None? {
      ScanLeftmost(t, 0, j);
    }
    spans
  }

  /** `re.findall(p, s)`: the matched texts, in order, one per match span. */
  function Matches(p: Pattern, s: string): (ts: seq<string>)
    ensures |ts| == |FindAll(p, s)|
    ensures forall k :: 0 <= k < |ts| ==>
      FindAll(p, s)[k].0 < FindAll(p, s)[k].1 <= |s| && ts[k] == s[FindAll(p, s)[k].0..FindAll(p, s)[k].1]
    ensures forall k :: 0 <= k < |ts| ==> TokenShape(p, ts[k])
  {
    var spans := FindAll(p, s);
    SpansShaped(p, s, spans);
    seq(|spans|, k requires 0 <= k < |spans| => s[spans[k].0..spans[k].1])
  }

  /** Every span `re.findall` reports lies within the text and covers a
      text shaped like the pattern. */
  lemma SpansShaped(p: Pattern, s: string, spans: seq<(nat, nat)>)
    requires spans == FindAll(p, s)
    ensures forall k :: 0 <= k < |spans| ==>
      spans[k].0 < spans[k].1 <= |s| && TokenShape(p, s[spans[k].0..spans[k].1])
  {
    assert forall k :: 0 <= k < |spans| ==> spans[k].0 < spans[k].1 <= |s|;
    forall k | 0 <= k < |spans| ensures TokenShape(p, s[spans[k].0..spans[k].1]) {
      MatchShape(p, s, spans[k].0);
    }
  }

  /** `[\d,]+\.?\d*` as a whole string: a non-empty run of digits and commas,
      then nothing or a dot followed by digits only. */
  predicate CommaNumberText(t: string)
  {
    var k := DigitCommaRunEnd(t, 0);
    k > 0 && (k == |t| || (t[k] == '.' && AllDigits(t[k + 1..])))
  }

  /** `-?\d+\.?\d*` as a whole string. */
  predicate SignedNumberText(t: string)
  {
    var d := if |t| > 0 && t[0] == '-' then 1 else 0;
    var k := DigitRunEnd(t, d);
    k > d && (k == |t| || (t[k] == '.' && AllDigits(t[k + 1..])))
  }

  predicate TokenShape(p: Pattern, t: string)
  {
    match p
    case Dollar => |t| >= 2 && t[0] == '$' && CommaNumberText(t[1..])
    case Plain => CommaNumberText(t)
    case Signed => SignedNumberText(t)
  }

  /** A `[\d,]` run from `a` to `m`, optionally followed by a dot and digits
      up to `e`, reads as `CommaNumberText`. */
  lemma CommaNumberSlice(s: string, a: nat, m: nat, e: nat)
    requires a < m <= e <= |s|
    requires forall k :: a <= k < m ==> IsDigitOrComma(s[k])
    requires m == e || (s[m] == '.' && forall k :: m < k < e ==> IsDigit(s[k]))
    ensures CommaNumberText(s[a..e])
  {
    var t := s[a..e];
    DigitCommaRunEndUnique(t, 0, m - a);
    if m < e {
      assert t[m - a + 1..] == s[m + 1..e];
    }
  }

  /** Every match has the shape its pattern describes. */
  lemma MatchShape(p: Pattern, s: string, i: nat)
    requires i < |s| && MatchAt(p, s, i).Some?
    ensures TokenShape(p, s[i..MatchAt(p, s, i).value])
  {
    match p
    case Dollar => DollarMatchShape(s, i);
    case Plain => PlainMatchShape(s, i);
    case Signed => SignedMatchShape(s, i);
  }

  lemma DollarMatchShape(s: string, i: nat)
    requires i < |s| && MatchAt(Dollar, s, i).Some?
    ensures TokenShape(Dollar, s[i..MatchAt(Dollar, s, i).value])
  {
    var e := MatchAt(Dollar, s, i).value;
    var m := DigitCommaRunEnd(s, i + 1);
    CommaNumberSlice(s, i + 1, m, e);
    assert s[i..e][1..] == s[i + 1..e];
  }

  lemma PlainMatchShape(s: string, i: nat)
    requires i < |s| && MatchAt(Plain, s, i).Some?
    ensures TokenShape(Plain, s[i..MatchAt(Plain, s, i).value])
  {
    var e := MatchAt(Plain, s, i).value;
    var m := DigitCommaRunEnd(s, i);
    if e <= m {
      CommaNumberSlice(s, i, e, e);
    } else {
      CommaNumberSlice(s, i, m, e);
    }
  }

  lemma SignedMatchShape(s: string, i: nat)
    requires i < |s| && MatchAt(Signed, s, i).Some?
    ensures TokenShape(Signed, s[i..MatchAt(Signed, s, i).value])
  {
    var e := MatchAt(Signed, s, i).value;
    var d := if s[i] == '-' then i + 1 else i;
    var m := DigitRunEnd(s, d);
    var t := s[i..e];
    DigitRunEndUnique(t, d - i, m - i);
    if m < e {
      assert t[m - i + 1..] == s[m + 1..e];
    }
  }

  /** A fallback match is bounded by word boundaries on both sides. */
  lemma PlainMatchBounded(s: string, i: nat)
    requires i < |s| && MatchAt(Plain, s, i).Some?
    ensures Boundary(s, i) && Boundary(s, MatchAt(Plain, s, i).value)
  {
  }
}
