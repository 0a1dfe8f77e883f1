/** Picking elements of a sequence without changing their order. */
module Selections {

  /** What is left of `s` when everything else than `keep` says is dropped. */
  function Filter<T>(s: seq<T>, keep: T -> bool): seq<T>
  {
    if s == [] then []
    else Filter(s[..|s| - 1], keep) + if keep(s[|s| - 1]) then [s[|s| - 1]] else []
  }

  /** `r` holds the elements of `s` at the places `at`, one after the other. */
  ghost predicate Places<T>(r: seq<T>, s: seq<T>, at: seq<nat>)
  {
    && |at| == |r|
    && (forall i :: 0 <= i < |at| ==> at[i] < |s| && r[i] == s[at[i]])
    && (forall i, j :: 0 <= i < j < |at| ==> at[i] < at[j])
  }

  /** A filter keeps the elements at exactly the places where it should, in their order. */
  lemma {:induction false} FilterPlaces<T>(s: seq<T>, keep: T -> bool) returns (at: seq<nat>)
    ensures Places(Filter(s, keep), s, at)
    ensures forall k :: 0 <= k < |s| ==> (k in at <==> keep(s[k]))
  {
    if s == [] {
      return [];
    }
    var init, n := s[..|s| - 1], |s| - 1;
    at := FilterPlaces(init, keep);
    assert forall k :: 0 <= k < n ==> s[k] == init[k];
    if keep(s[n]) {
      at := at + [n];
    }
  }

  lemma {:induction false} FilterMember<T>(s: seq<T>, keep: T -> bool, x: T)
    ensures x in Filter(s, keep) <==> x in s && keep(x)
  {
    if s != [] {
      FilterMember(s[..|s| - 1], keep, x);
      assert s == s[..|s| - 1] + [s[|s| - 1]];
    }
  }

  lemma {:induction false} FilterSame<T>(s: seq<T>, keep: T -> bool, same: T -> bool)
    requires forall x :: x in s ==> keep(x) == same(x)
    ensures Filter(s, keep) == Filter(s, same)
  {
    if s != [] {
      FilterSame(s[..|s| - 1], keep, same);
    }
  }

  lemma {:induction false} FilterAppend<T>(a: seq<T>, b: seq<T>, keep: T -> bool)
    ensures Filter(a + b, keep) == Filter(a, keep) + Filter(b, keep)
  {
    if b == [] {
      assert a + b == a;
    } else {
      var init := b[..|b| - 1];
      assert (a + b)[..|a + b| - 1] == a + init;
      FilterAppend(a, init, keep);
    }
  }
}
