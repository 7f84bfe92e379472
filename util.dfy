/** Small helpers shared by the validators: an Option type and the
    list builtins the scripts use on amounts (`sum`, `max`, `abs`, `set`). */
module Util {

  datatype Option<T> = None | Some(value: T)

  /** Python's `abs` on a real. */
  function Abs(x: real): (r: real)
    ensures r >= 0.0
    ensures r == x || r == -x
  {
    if x < 0.0 then -x else x
  }

  /** Python's `sum` over a list, defined by peeling off the last element so
      that an accumulating loop keeps `acc == Sum(s[..i])`. */
  function Sum(s: seq<real>): real
  {
    if s == [] then 0.0 else Sum(s[..|s| - 1]) + s[|s| - 1]
  }

  lemma {:induction false} SumAppend(s: seq<real>, t: seq<real>)
    ensures Sum(s + t) == Sum(s) + Sum(t)
  {
    if t == [] {
      assert s + t == s;
    } else {
      assert (s + t)[..|s + t| - 1] == s + t[..|t| - 1];
      SumAppend(s, t[..|t| - 1]);
    }
  }

  lemma {:induction false} SumNonNegative(s: seq<real>)
    requires forall i :: 0 <= i < |s| ==> s[i] >= 0.0
    ensures Sum(s) >= 0.0
  {
    if s != [] {
      SumNonNegative(s[..|s| - 1]);
    }
  }

  /** Python's `max` over a non-empty list: an element that no other element exceeds. */
  function Max(s: seq<real>): (m: real)
    requires |s| > 0
    ensures m in s
    ensures forall i :: 0 <= i < |s| ==> s[i] <= m
  {
    if |s| == 1 then s[0]
    else
      var m := Max(s[..|s| - 1]);
      assert forall i :: 0 <= i < |s| - 1 ==> s[..|s| - 1][i] == s[i];
      if s[|s| - 1] > m then s[|s| - 1] else m
  }

  /** The maximum is determined by being an element that bounds every element. */
  lemma MaxUnique(s: seq<real>, m: real)
    requires m in s
    requires forall i :: 0 <= i < |s| ==> s[i] <= m
    ensures Max(s) == m
  {
    var k :| 0 <= k < |s| && s[k] == Max(s);
  }

  predicate NoDuplicates<T(==)>(s: seq<T>)
  {
    forall i, j :: 0 <= i < j < |s| ==> s[i] != s[j]
  }

  /** Deduplication through a set: the distinct values of `xs`, each once
      (kept in order of first occurrence; Python's order is the set's
      iteration order). */
  function Distinct(s: seq<real>): (r: seq<real>)
    ensures NoDuplicates(r)
    ensures forall x :: x in r <==> x in s
    ensures |r| <= |s|
  {
    if s == [] then []
    else
      var d := Distinct(s[..|s| - 1]);
      assert forall x :: x in s <==> x in s[..|s| - 1] || x == s[|s| - 1] by {
        assert s == s[..|s| - 1] + [s[|s| - 1]];
      }
      if s[|s| - 1] in d then d else d + [s[|s| - 1]]
  }

  /** Concatenation of a list of lists (the `extend` loops). */
  function Flatten(ss: seq<seq<real>>): seq<real>
  {
    if ss == [] then [] else Flatten(ss[..|ss| - 1]) + ss[|ss| - 1]
  }

  lemma {:induction false} FlattenMember(ss: seq<seq<real>>, x: real)
    ensures x in Flatten(ss) <==> exists k :: 0 <= k < |ss| && x in ss[k]
  {
    if ss != [] {
      var init := ss[..|ss| - 1];
      FlattenMember(init, x);
      assert forall k :: 0 <= k < |init| ==> init[k] == ss[k];
      if x in Flatten(ss) && x !in Flatten(init) {
        assert x in ss[|ss| - 1];
      }
    }
  }

  /** The values of the `Some` entries of `vs`, in order: what a loop that
      appends only the successful cases builds. */
  function Somes<T>(vs: seq<Option<T>>): seq<T>
  {
    if vs == [] then []
    else if vs[|vs| - 1].Some? then Somes(vs[..|vs| - 1]) + [vs[|vs| - 1].value]
    else Somes(vs[..|vs| - 1])
  }

  /** `x` is collected exactly when `Some(x)` is one of the entries. */
  lemma {:induction false} SomesMembers<T>(vs: seq<Option<T>>, x: T)
    ensures x in Somes(vs) <==> Some(x) in vs
  {
    if vs != [] {
      var init := vs[..|vs| - 1];
      SomesMembers(init, x);
      assert vs == init + [vs[|vs| - 1]];
    }
  }

  /** Nothing is collected exactly when every entry is `None`. */
  lemma SomesEmpty<T>(vs: seq<Option<T>>)
    ensures Somes(vs) == [] <==> forall k :: 0 <= k < |vs| ==> vs[k].None?
  {
    if Somes(vs) != [] {
      SomesMembers(vs, Somes(vs)[0]);
    }
    if exists k :: 0 <= k < |vs| && vs[k].Some? {
      var k :| 0 <= k < |vs| && vs[k].Some?;
      SomesMembers(vs, vs[k].value);
    }
  }

  /** Collecting one more entry appends its value, if it has one. */
  lemma SomesStep<T>(vs: seq<Option<T>>, j: nat)
    requires j < |vs|
    ensures Somes(vs[..j + 1]) == if vs[j].Some? then Somes(vs[..j]) + [vs[j].value] else Somes(vs[..j])
  {
    assert vs[..j + 1][..j] == vs[..j];
  }

  /** When every entry is `Some`, every value is collected, in order. */
  lemma {:induction false} SomesAllSome<T>(vs: seq<Option<T>>)
    requires forall k :: 0 <= k < |vs| ==> vs[k].Some?
    ensures |Somes(vs)| == |vs|
    ensures forall k :: 0 <= k < |vs| ==> Somes(vs)[k] == vs[k].value
  {
    if vs != [] {
      var init := vs[..|vs| - 1];
      SomesAllSome(init);
      assert forall k :: 0 <= k < |init| ==> init[k] == vs[k];
    }
  }

  /** The positions the collected values come from: increasing, and each
      holding `Some` of its value. */
  lemma {:induction false} SomesIndices<T>(vs: seq<Option<T>>) returns (idx: seq<nat>)
    ensures |idx| == |Somes(vs)|
    ensures forall i :: 0 <= i < |idx| ==> idx[i] < |vs| && vs[idx[i]] == Some(Somes(vs)[i])
    ensures forall i, j :: 0 <= i < j < |idx| ==> idx[i] < idx[j]
  {
    if vs == [] {
      idx := [];
    } else {
      var init := vs[..|vs| - 1];
      var prev := SomesIndices(init);
      assert forall i :: 0 <= i < |prev| ==> vs[prev[i]] == init[prev[i]];
      if vs[|vs| - 1].Some? {
        idx := prev + [|vs| - 1];
        assert Somes(vs) == Somes(init) + [vs[|vs| - 1].value];
      } else {
        idx := prev;
      }
    }
  }
}
