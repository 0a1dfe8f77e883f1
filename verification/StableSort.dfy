/** Stable sorting by an integer class, as sort.SliceStable does with a "smaller class" order. */
module StableSorts {
  import opened Selections

  ghost predicate Sorted<T>(s: seq<T>, key: T -> int)
  {
    forall i, j :: 0 <= i < j < |s| ==> key(s[i]) <= key(s[j])
  }

  ghost predicate Within<T>(s: seq<T>, key: T -> int, lo: int, hi: int)
  {
    forall i :: 0 <= i < |s| ==> lo <= key(s[i]) <= hi
  }

  /** The elements of one class, in order. */
  function OfClass<T>(s: seq<T>, key: T -> int, p: int): seq<T>
  {
    if s == [] then []
    else if key(s[0]) == p then [s[0]] + OfClass(s[1..], key, p)
    else OfClass(s[1..], key, p)
  }

  /** The elements of the classes `lo` to `hi`, class after class. */
  function StableSort<T>(s: seq<T>, key: T -> int, lo: int, hi: int): seq<T>
    decreases hi + 1 - lo
  {
    if lo > hi then [] else OfClass(s, key, lo) + StableSort(s, key, lo + 1, hi)
  }

  /** What a stable sort promises: a sorted list in which each class keeps its members in their order. */
  ghost predicate StablySorts<T>(r: seq<T>, s: seq<T>, key: T -> int)
  {
    Sorted(r, key) && forall p :: OfClass(r, key, p) == OfClass(s, key, p)
  }

  lemma {:induction false} OfClassAppend<T>(a: seq<T>, b: seq<T>, key: T -> int, p: int)
    ensures OfClass(a + b, key, p) == OfClass(a, key, p) + OfClass(b, key, p)
  {
    if a == [] {
      assert a + b == b;
    } else {
      assert (a + b)[1..] == a[1..] + b;
      OfClassAppend(a[1..], b, key, p);
    }
  }

  lemma {:induction false} OfClassIsFilter<T>(s: seq<T>, key: T -> int, p: int)
    ensures OfClass(s, key, p) == Filter(s, x => key(x) == p)
  {
    if s != [] {
      var init, last := s[..|s| - 1], s[|s| - 1];
      assert s == init + [last];
      OfClassAppend(init, [last], key, p);
      assert OfClass([last], key, p) == if key(last) == p then [last] else [];
      OfClassIsFilter(init, key, p);
    }
  }

  lemma {:induction false} OfClassCounts<T>(s: seq<T>, key: T -> int, p: int, x: T)
    ensures multiset(OfClass(s, key, p))[x] == if key(x) == p then multiset(s)[x] else 0
  {
    if s != [] {
      assert s == [s[0]] + s[1..];
      OfClassCounts(s[1..], key, p, x);
    }
  }

  lemma {:induction false} SortedCounts<T>(s: seq<T>, key: T -> int, lo: int, hi: int, x: T)
    ensures multiset(StableSort(s, key, lo, hi))[x] == if lo <= key(x) <= hi then multiset(s)[x] else 0
    decreases hi + 1 - lo
  {
    if lo <= hi {
      OfClassCounts(s, key, lo, x);
      SortedCounts(s, key, lo + 1, hi, x);
    }
  }

  /** Sorting loses nothing, brings smaller classes first and keeps each class in its order. */
  lemma StableSortMeans<T>(s: seq<T>, key: T -> int, lo: int, hi: int, p: int)
    requires lo <= hi && forall x :: x in s ==> lo <= key(x) <= hi
    ensures var r := StableSort(s, key, lo, hi);
            && (forall x :: multiset(r)[x] == multiset(s)[x])
            && (forall i, j :: 0 <= i < j < |r| ==> key(r[i]) <= key(r[j]))
            && OfClass(r, key, p) == OfClass(s, key, p)
  {
    forall x ensures multiset(StableSort(s, key, lo, hi))[x] == multiset(s)[x] {
      SortedCounts(s, key, lo, hi, x);
      assert multiset(s)[x] > 0 ==> x in s;
    }
    assert Within(s, key, lo, hi);
    StableSortStablySorts(s, key, lo, hi);
  }

  lemma {:induction false} OfClassMembers<T>(s: seq<T>, key: T -> int, p: int)
    ensures Within(OfClass(s, key, p), key, p, p)
  {
    if s != [] {
      OfClassMembers(s[1..], key, p);
    }
  }

  lemma {:induction false} OfClassAll<T>(s: seq<T>, key: T -> int, p: int)
    requires Within(s, key, p, p)
    ensures OfClass(s, key, p) == s
  {
    if s != [] {
      OfClassAll(s[1..], key, p);
    }
  }

  lemma {:induction false} OfClassNone<T>(s: seq<T>, key: T -> int, lo: int, hi: int, p: int)
    requires Within(s, key, lo, hi) && !(lo <= p <= hi)
    ensures OfClass(s, key, p) == []
  {
    if s != [] {
      OfClassNone(s[1..], key, lo, hi, p);
    }
  }

  lemma {:induction false} OfClassOfSorted<T>(s: seq<T>, key: T -> int, lo: int, hi: int, p: int)
    requires lo <= hi + 1
    ensures OfClass(StableSort(s, key, lo, hi), key, p) == if lo <= p <= hi then OfClass(s, key, p) else []
    decreases hi + 1 - lo
  {
    if lo <= hi {
      OfClassAppend(OfClass(s, key, lo), StableSort(s, key, lo + 1, hi), key, p);
      OfClassMembers(s, key, lo);
      if p == lo {
        OfClassAll(OfClass(s, key, lo), key, p);
      } else {
        OfClassNone(OfClass(s, key, lo), key, lo, lo, p);
      }
      OfClassOfSorted(s, key, lo + 1, hi, p);
    }
  }

  lemma {:induction false} StableSortSorted<T>(s: seq<T>, key: T -> int, lo: int, hi: int)
    requires lo <= hi + 1
    ensures Sorted(StableSort(s, key, lo, hi), key) && Within(StableSort(s, key, lo, hi), key, lo, hi)
    decreases hi + 1 - lo
  {
    if lo <= hi {
      OfClassMembers(s, key, lo);
      StableSortSorted(s, key, lo + 1, hi);
    }
  }

  lemma StableSortStablySorts<T>(s: seq<T>, key: T -> int, lo: int, hi: int)
    requires lo <= hi && Within(s, key, lo, hi)
    ensures StablySorts(StableSort(s, key, lo, hi), s, key)
  {
    StableSortSorted(s, key, lo, hi);
    forall p ensures OfClass(StableSort(s, key, lo, hi), key, p) == OfClass(s, key, p) {
      OfClassOfSorted(s, key, lo, hi, p);
      if !(lo <= p <= hi) {
        OfClassNone(s, key, lo, hi, p);
      }
    }
  }

  /** The first element of a sorted list is the first of the lowest class present. */
  lemma {:induction false} SortedIsStableSort<T>(s: seq<T>, key: T -> int, lo: int, hi: int)
    requires Sorted(s, key) && Within(s, key, lo, hi)
    ensures StableSort(s, key, lo, hi) == s
    decreases hi + 1 - lo, |s|
  {
    if s == [] {
      EmptyStableSort<T>(key, lo, hi);
    } else if key(s[0]) > lo {
      OfClassNone(s, key, key(s[0]), hi, lo);
      SortedIsStableSort(s, key, lo + 1, hi);
    } else {
      SortedIsStableSort(s[1..], key, lo, hi);
      if lo + 1 <= hi + 1 {
        StableSortSkips(s, key, lo + 1, hi);
      }
    }
  }

  lemma {:induction false} EmptyStableSort<T>(key: T -> int, lo: int, hi: int)
    ensures StableSort<T>([], key, lo, hi) == []
    decreases hi + 1 - lo
  {
    if lo <= hi {
      EmptyStableSort<T>(key, lo + 1, hi);
    }
  }

  lemma {:induction false} StableSortSkips<T>(s: seq<T>, key: T -> int, lo: int, hi: int)
    requires s != [] && key(s[0]) < lo
    ensures StableSort(s, key, lo, hi) == StableSort(s[1..], key, lo, hi)
    decreases hi + 1 - lo
  {
    if lo <= hi {
      StableSortSkips(s, key, lo + 1, hi);
    }
  }

  lemma {:induction false} StableSortDetermined<T>(a: seq<T>, b: seq<T>, key: T -> int, lo: int, hi: int)
    requires forall p :: OfClass(a, key, p) == OfClass(b, key, p)
    ensures StableSort(a, key, lo, hi) == StableSort(b, key, lo, hi)
    decreases hi + 1 - lo
  {
    if lo <= hi {
      StableSortDetermined(a, b, key, lo + 1, hi);
    }
  }

  lemma {:induction false} SameClassesWithin<T>(r: seq<T>, s: seq<T>, key: T -> int, lo: int, hi: int)
    requires forall p :: OfClass(r, key, p) == OfClass(s, key, p)
    requires Within(s, key, lo, hi)
    ensures Within(r, key, lo, hi)
  {
    forall i | 0 <= i < |r|
      ensures lo <= key(r[i]) <= hi
    {
      var p := key(r[i]);
      assert r == r[..i] + r[i..];
      OfClassAppend(r[..i], r[i..], key, p);
      if !(lo <= p <= hi) {
        OfClassNone(s, key, lo, hi, p);
        assert false;
      }
    }
  }

  /** A list has exactly one stable sort, and it is `StableSort`; a sorted list is its own. */
  lemma StableSortUnique<T>(r: seq<T>, s: seq<T>, key: T -> int, lo: int, hi: int)
    requires lo <= hi && Within(s, key, lo, hi)
    ensures StablySorts(r, s, key) <==> r == StableSort(s, key, lo, hi)
    ensures Sorted(s, key) <==> s == StableSort(s, key, lo, hi)
  {
    StableSortStablySorts(s, key, lo, hi);
    if Sorted(s, key) {
      SortedIsStableSort(s, key, lo, hi);
    }
    if StablySorts(r, s, key) {
      SameClassesWithin(r, s, key, lo, hi);
      SortedIsStableSort(r, key, lo, hi);
      StableSortDetermined(r, s, key, lo, hi);
    }
  }

  lemma {:induction false} SortedLength<T>(s: seq<T>, key: T -> int, lo: int, hi: int)
    requires lo <= hi && Within(s, key, lo, hi)
    ensures |StableSort(s, key, lo, hi)| == |s|
  {
    if s == [] {
      EmptyStableSort<T>(key, lo, hi);
    } else {
      SortedLength(s[1..], key, lo, hi);
      LengthOfHead(s, key, lo, hi);
    }
  }

  lemma {:induction false} LengthOfHead<T>(s: seq<T>, key: T -> int, lo: int, hi: int)
    requires s != [] && key(s[0]) <= hi
    ensures |StableSort(s, key, lo, hi)| == |StableSort(s[1..], key, lo, hi)| + if lo <= key(s[0]) then 1 else 0
    decreases hi + 1 - lo
  {
    if lo <= hi {
      LengthOfHead(s, key, lo + 1, hi);
    }
  }

  /** Sorting a part first does not matter: sort(a ++ sort(b)) = sort(a ++ b). */
  lemma StableSortOfPartlySorted<T>(a: seq<T>, b: seq<T>, key: T -> int, lo: int, hi: int)
    requires lo <= hi && Within(b, key, lo, hi)
    ensures StableSort(a + StableSort(b, key, lo, hi), key, lo, hi) == StableSort(a + b, key, lo, hi)
  {
    StableSortStablySorts(b, key, lo, hi);
    var sb := StableSort(b, key, lo, hi);
    forall p ensures OfClass(a + sb, key, p) == OfClass(a + b, key, p) {
      OfClassAppend(a, sb, key, p);
      OfClassAppend(a, b, key, p);
    }
    StableSortDetermined(a + sb, a + b, key, lo, hi);
  }

  /** A list stays sorted under an insertion exactly when the newcomer fits its neighbours. */
  lemma InsertSorted<T>(s: seq<T>, i: nat, x: T, key: T -> int)
    requires i <= |s| && Sorted(s, key)
    ensures Sorted(s[..i] + [x] + s[i..], key)
        <==> (forall k :: 0 <= k < i ==> key(s[k]) <= key(x)) && (forall k :: i <= k < |s| ==> key(x) <= key(s[k]))
  {
    var r := s[..i] + [x] + s[i..];
    assert r[i] == x;
    assert forall k :: 0 <= k < i ==> r[k] == s[k];
    assert forall k :: i <= k < |s| ==> r[k + 1] == s[k];
  }

  lemma RemoveSorted<T>(s: seq<T>, i: nat, key: T -> int)
    requires i < |s| && Sorted(s, key)
    ensures Sorted(s[..i] + s[i + 1..], key)
  {
  }

  lemma UpdateSorted<T>(s: seq<T>, i: nat, x: T, key: T -> int)
    requires i < |s| && Sorted(s, key) && key(x) == key(s[i])
    ensures Sorted(s[i := x], key)
  {
  }

  /** Putting an element right before its class, and below nothing smaller, is what a stable
      sort makes of putting it first. */
  lemma InsertIsStableSort<T>(s: seq<T>, i: nat, x: T, key: T -> int, lo: int, hi: int)
    requires i <= |s| && Sorted(s, key) && lo <= hi && Within([x] + s, key, lo, hi)
    requires forall k :: 0 <= k < i ==> key(s[k]) < key(x)
    requires forall k :: i <= k < |s| ==> key(x) <= key(s[k])
    ensures s[..i] + [x] + s[i..] == StableSort([x] + s, key, lo, hi)
  {
    var r := s[..i] + [x] + s[i..];
    InsertSorted(s, i, x, key);
    forall p ensures OfClass(r, key, p) == OfClass([x] + s, key, p) {
      assert r == s[..i] + ([x] + s[i..]);
      assert s == s[..i] + s[i..];
      OfClassAppend(s[..i], [x] + s[i..], key, p);
      OfClassAppend([x], s[i..], key, p);
      OfClassAppend(s[..i], s[i..], key, p);
      OfClassAppend([x], s, key, p);
      if p == key(x) {
        assert Within(s, key, lo, hi) by {
          assert forall k :: 0 <= k < |s| ==> s[k] == ([x] + s)[k + 1];
        }
        OfClassNone(s[..i], key, lo, p - 1, p);
      }
    }
    StableSortUnique(r, [x] + s, key, lo, hi);
  }
}
