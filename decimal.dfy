/** Python's `float()` on the number texts the validators clean up, as an
    exact real (no IEEE-754 rounding). */
module Decimal {
  import opened Util
  import opened Text
  import opened Regex

  function DigitValue(c: char): (d: nat)
    requires IsDigit(c)
    ensures d < 10
  {
    c as int - '0' as int
  }

  /** The value of a string of decimal digits (0 for the empty string). */
  function NatValue(ds: string): nat
    requires AllDigits(ds)
  {
    if ds == [] then 0 else 10 * NatValue(ds[..|ds| - 1]) + DigitValue(ds[|ds| - 1])
  }

  function Pow10(n: nat): (r: nat)
    ensures r > 0
  {
    if n == 0 then 1 else 10 * Pow10(n - 1)
  }

  predicate HasDigit(t: string)
  {
    exists k :: 0 <= k < |t| && IsDigit(t[k])
  }

  /** `float(t)` for a text of digits with at most one dot and an optional
      leading minus: `None` (Python's ValueError) unless the text is digits,
      optionally a dot and more digits, with at least one digit in all. */
  function ParseFloat(t: string): (r: Option<real>)
    ensures r.Some? ==> HasDigit(t)
    ensures r.Some? && (t == [] || t[0] != '-') ==> r.value >= 0.0
  {
    var neg := |t| > 0 && t[0] == '-';
    var body := if neg then t[1..] else t;
    var k := DigitRunEnd(body, 0);
    assert AllDigits(body[..k]);
    var magnitude :=
      if k == |body| then
        (if k == 0 then None else Some(NatValue(body) as real))
      else if body[k] == '.' && AllDigits(body[k + 1..]) && (k > 0 || k + 1 < |body|) then
        Some(NatValue(body[..k]) as real + NatValue(body[k + 1..]) as real / Pow10(|body| - k - 1) as real)
      else None;
    assert magnitude.Some? ==> HasDigit(t) by {
      if magnitude.Some? {
        var d := if k > 0 then 0 else k + 1;
        assert IsDigit(body[d]);
        assert t[d + (if neg then 1 else 0)] == body[d];
      }
    }
    match magnitude
    case None => None
    case Some(v) => Some(if neg then -v else v)
  }

  /** Digits, then nothing or a dot and digits: the form of a cleaned amount. */
  predicate DecimalForm(a: string, b: string)
  {
    AllDigits(a) && (b == [] || (b[0] == '.' && AllDigits(b[1..])))
  }

  /** Digits, then nothing or a dot and digits, parse exactly when there is a digit. */
  lemma DecimalFormParses(a: string, b: string)
    requires DecimalForm(a, b)
    ensures ParseFloat(a + b).Some? <==> |a| > 0 || |b| > 1
  {
    var c := a + b;
    DigitRunEndUnique(c, 0, |a|);
    if c != [] {
      assert c[0] != '-';
    }
    if b != [] {
      assert c[|a| + 1..] == b[1..];
    }
  }

  /** Removing the commas from a `[\d,]+\.?\d*` text leaves a decimal form
      with a digit exactly when the text had one. */
  lemma CommaNumberCleans(u: string, cs: set<char>) returns (a': string, b: string)
    requires CommaNumberText(u)
    requires ',' in cs && '.' !in cs
    requires forall c :: c in cs ==> !IsDigit(c)
    ensures RemoveAll(u, cs) == a' + b && DecimalForm(a', b)
    ensures HasDigit(u) <==> |a'| > 0 || |b| > 1
  {
    var k := DigitCommaRunEnd(u, 0);
    var a := u[..k];
    b := u[k..];
    assert u == a + b;
    RemoveAllAppend(a, b, cs);
    a' := RemoveAll(a, cs);
    assert AllDigits(a') by {
      forall j | 0 <= j < |a'| ensures IsDigit(a'[j]) {
        assert a'[j] in a';
      }
    }
    if b != [] {
      assert b[1..] == u[k + 1..];
    }
    FractionKept(b, cs);
    DigitsKept(a, cs);
    DigitSplit(u, k);
    DecimalFormDigits(a', b);
  }

  lemma DecimalFormDigits(a: string, b: string)
    requires DecimalForm(a, b)
    ensures HasDigit(a) || HasDigit(b) <==> |a| > 0 || |b| > 1
  {
    if |a| > 0 { assert IsDigit(a[0]); }
    if |b| > 1 { assert IsDigit(b[1..][0]); }
    if HasDigit(b) {
      var j :| 0 <= j < |b| && IsDigit(b[j]);
      assert j > 0;
    }
  }

  lemma FractionKept(b: string, cs: set<char>)
    requires b == [] || (b[0] == '.' && AllDigits(b[1..]))
    requires '.' !in cs
    requires forall c :: c in cs ==> !IsDigit(c)
    ensures RemoveAll(b, cs) == b
  {
    forall j | 0 <= j < |b| ensures b[j] !in cs {
      if j > 0 {
        assert b[j] == b[1..][j - 1];
      }
    }
    RemoveAllKeeps(b, cs);
  }

  lemma DigitsKept(a: string, cs: set<char>)
    requires forall c :: c in cs ==> !IsDigit(c)
    ensures HasDigit(a) <==> HasDigit(RemoveAll(a, cs))
  {
    var a' := RemoveAll(a, cs);
    if HasDigit(a) {
      var j :| 0 <= j < |a| && IsDigit(a[j]);
      assert a[j] in a;
      assert a[j] in a';
      var i :| 0 <= i < |a'| && a'[i] == a[j];
    }
    if HasDigit(a') {
      var j :| 0 <= j < |a'| && IsDigit(a'[j]);
      assert a'[j] in a';
      assert a'[j] in a;
      var i :| 0 <= i < |a| && a[i] == a'[j];
    }
  }

  lemma DigitSplit(u: string, k: nat)
    requires k <= |u|
    requires k < |u| ==> !IsDigit(u[k])
    ensures HasDigit(u) <==> HasDigit(u[..k]) || HasDigit(u[k..])
  {
    if HasDigit(u) {
      var j :| 0 <= j < |u| && IsDigit(u[j]);
      if j < k { assert u[..k][j] == u[j]; } else { assert u[k..][j - k] == u[j]; }
    }
    if HasDigit(u[..k]) {
      var j :| 0 <= j < k && IsDigit(u[..k][j]);
      assert u[j] == u[..k][j];
    }
    if HasDigit(u[k..]) {
      var j :| 0 <= j < |u| - k && IsDigit(u[k..][j]);
      assert u[k + j] == u[k..][j];
    }
  }

  /** A `[\d,]+\.?\d*` text with its commas (and any other non-digit,
      non-dot characters of `cs`) removed parses exactly when it holds a digit. */
  lemma CommaNumberParses(u: string, cs: set<char>)
    requires CommaNumberText(u)
    requires ',' in cs && '.' !in cs
    requires forall c :: c in cs ==> !IsDigit(c)
    ensures ParseFloat(RemoveAll(u, cs)).Some? <==> HasDigit(u)
  {
    var a', b := CommaNumberCleans(u, cs);
    DecimalFormParses(a', b);
  }

  /** Every `-?\d+\.?\d*` text parses. */
  lemma SignedNumberParses(t: string)
    requires SignedNumberText(t)
    ensures ParseFloat(t).Some?
  {
    var neg := |t| > 0 && t[0] == '-';
    var body := if neg then t[1..] else t;
    var d := if neg then 1 else 0;
    var m := DigitRunEnd(t, d);
    DigitRunEndUnique(body, 0, m - d);
    if m < |t| {
      assert body[m - d + 1..] == t[m + 1..];
    }
  }
}
