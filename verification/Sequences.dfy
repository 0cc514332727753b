/** Lists without repetition, and the counting argument behind population checks. */
module Sequences {

  ghost predicate Distinct<T>(s: seq<T>) {
    forall i, j :: 0 <= i < j < |s| ==> s[i] != s[j]
  }

  ghost function Elements<T>(s: seq<T>): set<T> {
    set x | x in s
  }

  lemma DistinctSnoc<T>(s: seq<T>, x: T)
    ensures Distinct(s + [x]) <==> Distinct(s) && x !in s
  {
    var t := s + [x];
    assert forall i :: 0 <= i < |s| ==> t[i] == s[i];
    if x in s {
      var i :| 0 <= i < |s| && s[i] == x;
      assert t[i] == t[|s|];
    }
    if Distinct(t) {
      assert forall i, j :: 0 <= i < j < |s| ==> t[i] != t[j];
    }
  }

  lemma {:induction false} ElementsBound<T>(s: seq<T>)
    ensures |Elements(s)| <= |s|
    ensures |Elements(s)| == |s| <==> Distinct(s)
  {
    if s != [] {
      var init, last := s[..|s| - 1], s[|s| - 1];
      ElementsBound(init);
      DistinctSnoc(init, last);
      assert s == init + [last];
      assert Elements(s) == Elements(init) + {last};
    }
  }

  /** A list no longer than the distinct names it covers names exactly them, once each. */
  lemma CoverIsExact<T>(names: seq<T>, cover: seq<T>)
    requires Distinct(names) && |cover| == |names|
    requires forall n :: n in names ==> n in cover
    ensures Distinct(cover) && forall n :: n in cover <==> n in names
  {
    ElementsBound(names);
    ElementsBound(cover);
    SubsetCardinality(Elements(names), Elements(cover));
    assert forall n :: n in cover <==> n in Elements(cover);
  }

  lemma SubsetCardinality<T>(a: set<T>, b: set<T>)
    requires a <= b
    ensures |a| <= |b| && (|a| == |b| ==> a == b)
  {
    assert b == a + (b - a);
  }
}
