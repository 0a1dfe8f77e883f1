/** Reordering the outbounds array by a list of requested tags. */
module OutboundReorder {
  import opened Json
  import opened Selections

  function TagOf(j: Json): string
  {
    StringField(j, "tag")
  }

  /** The indices of the outbounds with a tag, ascending. */
  function IndicesOf(arr: seq<Json>, tag: string): seq<nat>
  {
    if arr == [] || tag == "" then []
    else
      var n := |arr| - 1;
      IndicesOf(arr[..n], tag) + if TagOf(arr[n]) == tag then [n] else []
  }

  function Occurrences(tags: seq<string>, tag: string): nat
  {
    if tags == [] then 0
    else Occurrences(tags[..|tags| - 1], tag) + if tags[|tags| - 1] == tag then 1 else 0
  }

  /** What the last of `tags` selects: its n-th request selects the n-th outbound with that tag. */
  function LastPick(arr: seq<Json>, tags: seq<string>): seq<nat>
    requires tags != []
  {
    var tag := tags[|tags| - 1];
    var nth := Occurrences(tags[..|tags| - 1], tag);
    var indices := IndicesOf(arr, tag);
    if nth < |indices| then [indices[nth]] else []
  }

  /** The selected indices, in request order. */
  function Picks(arr: seq<Json>, tags: seq<string>): seq<nat>
  {
    if tags == [] then [] else Picks(arr, tags[..|tags| - 1]) + LastPick(arr, tags)
  }

  /** The elements at the indices outside `used`, in their old order. */
  function Others(arr: seq<Json>, used: set<nat>): seq<Json>
  {
    if arr == [] then []
    else
      var n := |arr| - 1;
      Others(arr[..n], used) + if n in used then [] else [arr[n]]
  }

  ghost predicate InRange(arr: seq<Json>, indices: seq<nat>)
  {
    forall k :: 0 <= k < |indices| ==> indices[k] < |arr|
  }

  ghost function At(arr: seq<Json>, indices: seq<nat>): (r: seq<Json>)
    requires InRange(arr, indices)
    ensures |r| == |indices|
  {
    seq(|indices|, k requires 0 <= k < |indices| => arr[indices[k]])
  }

  function SetOf(indices: seq<nat>): set<nat>
  {
    set i | i in indices
  }

  ghost function Reordered(arr: seq<Json>, tags: seq<string>): seq<Json>
  {
    PicksInRange(arr, tags);
    At(arr, Picks(arr, tags)) + Others(arr, SetOf(Picks(arr, tags)))
  }

  /** `IndicesOf` lists exactly the indices with the tag, ascending. */
  ghost predicate Lists(arr: seq<Json>, tag: string, r: seq<nat>)
  {
    && (forall k :: 0 <= k < |r| ==> r[k] < |arr| && TagOf(arr[r[k]]) == tag)
    && (forall j, k :: 0 <= j < k < |r| ==> r[j] < r[k])
    && (tag != "" ==> forall i: nat :: i < |arr| && TagOf(arr[i]) == tag ==> i in r)
  }

  lemma {:induction false} IndicesSpec(arr: seq<Json>, tag: string)
    ensures Lists(arr, tag, IndicesOf(arr, tag))
  {
    if arr != [] && tag != "" {
      var n := |arr| - 1;
      IndicesSpec(arr[..n], tag);
      var r, rest := IndicesOf(arr, tag), IndicesOf(arr[..n], tag);
      forall k | 0 <= k < |r| ensures r[k] < |arr| && TagOf(arr[r[k]]) == tag {
        if k < |rest| {
          assert r[k] == rest[k] && arr[..n][rest[k]] == arr[rest[k]];
        }
      }
      forall i: nat | i < |arr| && TagOf(arr[i]) == tag ensures i in r {
        if i < n {
          assert TagOf(arr[..n][i]) == tag;
          assert i in rest;
        }
      }
    }
  }

  lemma {:induction false} PicksInRange(arr: seq<Json>, tags: seq<string>)
    ensures InRange(arr, Picks(arr, tags))
  {
    if tags != [] {
      var before := Picks(arr, tags[..|tags| - 1]);
      PicksInRange(arr, tags[..|tags| - 1]);
      IndicesSpec(arr, tags[|tags| - 1]);
      assert InRange(arr, before) && InRange(arr, LastPick(arr, tags));
      assert Picks(arr, tags) == before + LastPick(arr, tags);
    }
  }

  /** An outbound is picked exactly when its tag was requested more often than its rank. */
  lemma {:induction false} PickedIff(arr: seq<Json>, tags: seq<string>, tag: string, rank: nat)
    requires rank < |IndicesOf(arr, tag)|
    ensures IndicesOf(arr, tag)[rank] in Picks(arr, tags) <==> rank < Occurrences(tags, tag)
  {
    if tags != [] {
      var before, last := tags[..|tags| - 1], tags[|tags| - 1];
      PickedIff(arr, before, tag, rank);
      IndicesSpec(arr, tag);
      IndicesSpec(arr, last);
    }
  }

  lemma {:induction false} OthersWithout(arr: seq<Json>, used: set<nat>, i: nat)
    requires i < |arr| && i !in used
    ensures multiset(Others(arr, used)) == multiset(Others(arr, used + {i})) + multiset{arr[i]}
  {
    var n := |arr| - 1;
    if i == n {
      OthersBelow(arr[..n], used, n);
    } else {
      OthersWithout(arr[..n], used, i);
    }
  }

  lemma {:induction false} OthersBelow(arr: seq<Json>, used: set<nat>, i: nat)
    requires |arr| <= i
    ensures Others(arr, used + {i}) == Others(arr, used)
  {
    if arr != [] {
      OthersBelow(arr[..|arr| - 1], used, i);
    }
  }

  lemma {:induction false} OthersOfNone(arr: seq<Json>)
    ensures Others(arr, {}) == arr
  {
    if arr != [] {
      OthersOfNone(arr[..|arr| - 1]);
    }
  }

  lemma LastPickFresh(arr: seq<Json>, tags: seq<string>)
    requires tags != [] && LastPick(arr, tags) != []
    ensures LastPick(arr, tags)[0] < |arr|
    ensures LastPick(arr, tags)[0] !in Picks(arr, tags[..|tags| - 1])
  {
    var before, tag := tags[..|tags| - 1], tags[|tags| - 1];
    IndicesSpec(arr, tag);
    PickedIff(arr, before, tag, Occurrences(before, tag));
  }

  /** The result is a permutation of the old array. */
  lemma {:induction false} ReorderedPermutation(arr: seq<Json>, tags: seq<string>)
    ensures multiset(Reordered(arr, tags)) == multiset(arr)
  {
    PicksInRange(arr, tags);
    if tags == [] {
      OthersOfNone(arr);
      assert SetOf([]) == {};
      assert Reordered(arr, tags) == arr;
    } else {
      var before := tags[..|tags| - 1];
      ReorderedPermutation(arr, before);
      PicksInRange(arr, before);
      if LastPick(arr, tags) == [] {
        assert Picks(arr, tags) == Picks(arr, before);
      } else {
        LastPickFresh(arr, tags);
        OnePickMore(arr, Picks(arr, before), LastPick(arr, tags)[0]);
      }
    }
  }

  lemma Snoc(arr: seq<Json>, picks: seq<nat>, i: nat)
    requires InRange(arr, picks) && i < |arr|
    ensures InRange(arr, picks + [i]) && At(arr, picks + [i]) == At(arr, picks) + [arr[i]]
    ensures SetOf(picks + [i]) == SetOf(picks) + {i}
  {
  }

  lemma OnePickMore(arr: seq<Json>, picks: seq<nat>, i: nat)
    requires InRange(arr, picks) && i < |arr| && i !in picks
    ensures multiset(At(arr, picks + [i]) + Others(arr, SetOf(picks + [i])))
         == multiset(At(arr, picks) + Others(arr, SetOf(picks)))
  {
    var used := SetOf(picks);
    Snoc(arr, picks, i);
    OthersWithout(arr, used, i);
    SumOfParts(At(arr, picks), arr[i], Others(arr, used + {i}), Others(arr, used));
  }

  lemma SumOfParts(a: seq<Json>, x: Json, b: seq<Json>, bx: seq<Json>)
    requires multiset(bx) == multiset(b) + multiset{x}
    ensures multiset(a + [x] + b) == multiset(a + bx)
  {
  }

  // ----- the order -----

  /** Request k asks for its tag for the n-th time, and i is the n-th outbound with that tag. */
  predicate TakenBy(arr: seq<Json>, tags: seq<string>, k: nat, i: nat)
  {
    k < |tags| &&
    var nth := Occurrences(tags[..k], tags[k]);
    nth < |IndicesOf(arr, tags[k])| && IndicesOf(arr, tags[k])[nth] == i
  }

  ghost predicate Taken(arr: seq<Json>, tags: seq<string>, i: nat)
  {
    exists k: nat :: TakenBy(arr, tags, k, i)
  }

  lemma TakenBefore(arr: seq<Json>, tags: seq<string>, k: nat, i: nat)
    requires tags != [] && k < |tags| - 1
    ensures TakenBy(arr, tags, k, i) <==> TakenBy(arr, tags[..|tags| - 1], k, i)
  {
    assert tags[..|tags| - 1][..k] == tags[..k];
  }

  lemma {:induction false} OccurrencesCount(tags: seq<string>, tag: string)
    ensures Occurrences(tags, tag) == multiset(tags)[tag]
  {
    if tags != [] {
      OccurrencesCount(tags[..|tags| - 1], tag);
      assert tags == tags[..|tags| - 1] + [tags[|tags| - 1]];
    }
  }

  lemma {:induction false} IndicesCount(arr: seq<Json>, tag: string)
    requires tag != ""
    ensures |IndicesOf(arr, tag)| == |Filter(arr, (x: Json) => StringField(x, "tag") == tag)|
  {
    if arr != [] {
      IndicesCount(arr[..|arr| - 1], tag);
    }
  }

  /** What comes before an index in the list are the indices of what comes before it in the array. */
  lemma {:induction false} IndicesBefore(arr: seq<Json>, tag: string, r: nat)
    requires r < |IndicesOf(arr, tag)|
    ensures var i := IndicesOf(arr, tag)[r]; i < |arr| && |IndicesOf(arr[..i], tag)| == r
  {
    var n := |arr| - 1;
    var rest := IndicesOf(arr[..n], tag);
    if r < |rest| {
      IndicesBefore(arr[..n], tag, r);
      assert arr[..n][..rest[r]] == arr[..rest[r]];
    }
  }

  /** A request takes the outbound of its tag that as many others with it precede in the array as
      requests for it precede this one. */
  lemma TakenMeans(arr: seq<Json>, tags: seq<string>, k: nat, i: nat)
    requires k < |tags|
    ensures TakenBy(arr, tags, k, i) <==>
              && i < |arr| && tags[k] != "" && StringField(arr[i], "tag") == tags[k]
              && |Filter(arr[..i], (x: Json) => StringField(x, "tag") == tags[k])| == multiset(tags[..k])[tags[k]]
  {
    var tag, indices, nth := tags[k], IndicesOf(arr, tags[k]), Occurrences(tags[..k], tags[k]);
    OccurrencesCount(tags[..k], tag);
    assert tags[..k + 1][..k] == tags[..k];
    assert TakenBy(arr, tags, k, i) <==> nth < |indices| && indices[nth] == i;
    IndicesSpec(arr, tag);
    if tag != "" {
      if i < |arr| {
        IndicesCount(arr[..i], tag);
      }
      if nth < |indices| {
        IndicesBefore(arr, tag, nth);
      }
      if i < |arr| && TagOf(arr[i]) == tag {
        assert i in indices;
        var r :| 0 <= r < |indices| && indices[r] == i;
        IndicesBefore(arr, tag, r);
      }
    }
  }

  /** The picks are the outbounds that a request takes. */
  lemma {:induction false} PicksTaken(arr: seq<Json>, tags: seq<string>, i: nat)
    ensures i in Picks(arr, tags) <==> Taken(arr, tags, i)
  {
    if tags != [] {
      var before := tags[..|tags| - 1];
      PicksTaken(arr, before, i);
      if k: nat :| TakenBy(arr, tags, k, i) {
        if k < |tags| - 1 {
          TakenBefore(arr, tags, k, i);
        }
      }
      if k: nat :| TakenBy(arr, before, k, i) {
        TakenBefore(arr, tags, k, i);
      }
      if i in LastPick(arr, tags) {
        assert TakenBy(arr, tags, |tags| - 1, i);
      }
    }
  }

  /** They stand in the order of the requests that take them. */
  lemma {:induction false} PicksInOrder(arr: seq<Json>, tags: seq<string>, a: nat, b: nat)
    requires a < b < |Picks(arr, tags)|
    ensures InRequestOrder(arr, tags, Picks(arr, tags)[a], Picks(arr, tags)[b])
  {
    var before, picks := tags[..|tags| - 1], Picks(arr, tags);
    var earlier := Picks(arr, before);
    if b < |earlier| {
      PicksInOrder(arr, before, a, b);
      var k: nat, l: nat :| k < l && TakenBy(arr, before, k, earlier[a]) && TakenBy(arr, before, l, earlier[b]);
      TakenBefore(arr, tags, k, earlier[a]);
      TakenBefore(arr, tags, l, earlier[b]);
    } else {
      PicksTaken(arr, before, earlier[a]);
      var k: nat :| TakenBy(arr, before, k, earlier[a]);
      TakenBefore(arr, tags, k, earlier[a]);
      assert TakenBy(arr, tags, |tags| - 1, picks[b]);
    }
  }

  ghost predicate InRequestOrder(arr: seq<Json>, tags: seq<string>, i: nat, j: nat)
  {
    exists k: nat, l: nat :: k < l && TakenBy(arr, tags, k, i) && TakenBy(arr, tags, l, j)
  }

  function OtherIndices(arr: seq<Json>, used: set<nat>): seq<nat>
  {
    if arr == [] then []
    else
      var n := |arr| - 1;
      OtherIndices(arr[..n], used) + if n in used then [] else [n]
  }

  ghost predicate Ascending(r: seq<nat>)
  {
    forall a, b :: 0 <= a < b < |r| ==> r[a] < r[b]
  }

  lemma {:induction false} OthersAscend(arr: seq<Json>, used: set<nat>)
    ensures var r := OtherIndices(arr, used);
            InRange(arr, r) && Ascending(r) && forall i: nat :: i in r <==> i < |arr| && i !in used
  {
    if arr != [] {
      OthersAscend(arr[..|arr| - 1], used);
    }
  }

  lemma {:induction false} OthersAt(arr: seq<Json>, used: set<nat>)
    ensures InRange(arr, OtherIndices(arr, used)) && Others(arr, used) == At(arr, OtherIndices(arr, used))
  {
    OthersAscend(arr, used);
    if arr != [] {
      var n := |arr| - 1;
      var rest := OtherIndices(arr[..n], used);
      OthersAt(arr[..n], used);
      OthersAscend(arr[..n], used);
      assert At(arr, rest) == At(arr[..n], rest);
      if n !in used {
        Snoc(arr, rest, n);
      }
    }
  }

  /** Where each outbound of the result stood before. */
  ghost function Order(arr: seq<Json>, tags: seq<string>): seq<nat>
  {
    Picks(arr, tags) + OtherIndices(arr, SetOf(Picks(arr, tags)))
  }

  ghost predicate StandsBefore(arr: seq<Json>, tags: seq<string>, i: nat, j: nat)
  {
    || InRequestOrder(arr, tags, i, j)
    || (Taken(arr, tags, i) && !Taken(arr, tags, j))
    || (!Taken(arr, tags, i) && !Taken(arr, tags, j) && i < j)
  }

  lemma {:induction false} PicksDistinct(arr: seq<Json>, tags: seq<string>, a: nat, b: nat)
    requires a < b < |Picks(arr, tags)|
    ensures Picks(arr, tags)[a] != Picks(arr, tags)[b]
  {
    var before := tags[..|tags| - 1];
    if b < |Picks(arr, before)| {
      PicksDistinct(arr, before, a, b);
    } else {
      LastPickFresh(arr, tags);
    }
  }

  lemma OrderedPair(arr: seq<Json>, tags: seq<string>, a: nat, b: nat)
    requires a < b < |Order(arr, tags)|
    ensures StandsBefore(arr, tags, Order(arr, tags)[a], Order(arr, tags)[b]) && Order(arr, tags)[a] != Order(arr, tags)[b]
  {
    var picks := Picks(arr, tags);
    var i, j, rest := Order(arr, tags)[a], Order(arr, tags)[b], OtherIndices(arr, SetOf(picks));
    OthersAscend(arr, SetOf(picks));
    PicksTaken(arr, tags, i);
    PicksTaken(arr, tags, j);
    if b < |picks| {
      PicksInOrder(arr, tags, a, b);
      PicksDistinct(arr, tags, a, b);
    } else {
      assert j == rest[b - |picks|] && j in rest;
      if a >= |picks| {
        assert i == rest[a - |picks|] && i in rest;
      }
    }
  }

  /** The result lists every outbound once. Of any two in it the first was taken by an earlier request
      than the second, or only the first was requested at all, or neither was and the first stood
      before the second. */
  lemma RequestedFirst(arr: seq<Json>, tags: seq<string>)
    ensures var order := Order(arr, tags);
            && InRange(arr, order) && Reordered(arr, tags) == At(arr, order)
            && (forall i: nat :: i in order <==> i < |arr|)
            && (forall a, b :: 0 <= a < b < |order| ==> StandsBefore(arr, tags, order[a], order[b]) && order[a] != order[b])
  {
    var used, order := SetOf(Picks(arr, tags)), Order(arr, tags);
    PicksInRange(arr, tags);
    OthersAscend(arr, used);
    OthersAt(arr, used);
    assert InRange(arr, order);
    assert Reordered(arr, tags) == At(arr, order);
    forall a, b | 0 <= a < b < |order|
      ensures StandsBefore(arr, tags, order[a], order[b]) && order[a] != order[b]
    {
      OrderedPair(arr, tags, a, b);
    }
  }

  /** The queue of indices for every tag. */
  method QueueByTag(arr: seq<Json>) returns (indicesByTag: map<string, seq<nat>>)
    ensures forall t: string :: Queue(indicesByTag, t) == IndicesOf(arr, t)
  {
    indicesByTag := map[];
    assert arr[..0] == [];
    for i := 0 to |arr|
      invariant forall t: string :: Queue(indicesByTag, t) == IndicesOf(arr[..i], t)
    {
      assert arr[..i + 1][..i] == arr[..i];
      var tag := TagOf(arr[i]);
      if tag != "" {
        indicesByTag := indicesByTag[tag := Queue(indicesByTag, tag) + [i]];
      }
    }
    assert arr[..|arr|] == arr;
  }

  /** Takes indices off a queue up to and including the first unused one. */
  method TakeUnused(queue: seq<nat>, used: set<nat>) returns (rest: seq<nat>, taken: Option<nat>)
    ensures queue == [] ==> rest == [] && taken == None
    ensures queue != [] && queue[0] !in used ==> rest == queue[1..] && taken == Some(queue[0])
  {
    rest, taken := queue, None;
    while |rest| > 0
      invariant rest == queue || (queue != [] && queue[0] in used)
    {
      var i := rest[0];
      rest := rest[1..];
      if i !in used {
        taken := Some(i);
        break;
      }
    }
  }

  /** The queues hold what the requests so far leave unused. */
  ghost predicate QueuesMatch(indicesByTag: map<string, seq<nat>>, arr: seq<Json>, tags: seq<string>)
  {
    forall t: string :: Queue(indicesByTag, t) == Pending(arr, tags, t)
  }

  /** One more request takes the head of its tag's queue, if there is one. */
  lemma OneMoreRequest(arr: seq<Json>, tags: seq<string>, tag: string)
    ensures var queue := Pending(arr, tags, tag);
            if queue == [] then Picks(arr, tags + [tag]) == Picks(arr, tags)
            else Picks(arr, tags + [tag]) == Picks(arr, tags) + [queue[0]]
                 && queue[0] < |arr| && queue[0] !in Picks(arr, tags)
  {
    var asked := tags + [tag];
    assert asked[..|asked| - 1] == tags;
    if Pending(arr, tags, tag) != [] {
      LastPickFresh(arr, asked);
    }
  }

  lemma QueuesAfterRequest(indicesByTag: map<string, seq<nat>>, arr: seq<Json>, tags: seq<string>, tag: string, rest: seq<nat>)
    requires QueuesMatch(indicesByTag, arr, tags)
    requires var queue := Queue(indicesByTag, tag); rest == if queue == [] then [] else queue[1..]
    ensures QueuesMatch(indicesByTag[tag := rest], arr, tags + [tag])
  {
    var asked := tags + [tag];
    assert asked[..|asked| - 1] == tags;
    forall t: string ensures Queue(indicesByTag[tag := rest], t) == Pending(arr, asked, t) {
      assert Queue(indicesByTag, t) == Pending(arr, tags, t);
    }
  }

  /** The selected outbounds in request order, and the indices they came from. */
  method TakeRequested(arr: seq<Json>, tags: seq<string>) returns (reordered: seq<Json>, used: set<nat>)
    ensures InRange(arr, Picks(arr, tags)) && reordered == At(arr, Picks(arr, tags)) && used == SetOf(Picks(arr, tags))
  {
    var indicesByTag := QueueByTag(arr);
    used, reordered := {}, [];
    ghost var picks := Picks(arr, []);
    assert tags[..0] == [];
    for k := 0 to |tags|
      invariant picks == Picks(arr, tags[..k]) && InRange(arr, picks)
      invariant reordered == At(arr, picks) && used == SetOf(picks)
      invariant QueuesMatch(indicesByTag, arr, tags[..k])
    {
      var tag := tags[k];
      assert tags[..k + 1] == tags[..k] + [tag];
      OneMoreRequest(arr, tags[..k], tag);
      assert Queue(indicesByTag, tag) == Pending(arr, tags[..k], tag);
      var rest, taken := TakeUnused(Queue(indicesByTag, tag), used);
      QueuesAfterRequest(indicesByTag, arr, tags[..k], tag, rest);
      indicesByTag := indicesByTag[tag := rest];
      if taken.Some? {
        used := used + {taken.value};
        reordered := reordered + [arr[taken.value]];
        Snoc(arr, picks, taken.value);
        picks := picks + [taken.value];
      }
    }
    assert tags[..|tags|] == tags;
  }

  method Reorder(arr: seq<Json>, tags: seq<string>) returns (reordered: seq<Json>)
    ensures reordered == Reordered(arr, tags)
    ensures multiset(reordered) == multiset(arr)
  {
    var requested, used := TakeRequested(arr, tags);
    var others := Rest(arr, used);
    reordered := requested + others;
    ReorderedPermutation(arr, tags);
  }

  method Rest(arr: seq<Json>, used: set<nat>) returns (rest: seq<Json>)
    ensures rest == Others(arr, used)
  {
    rest := [];
    for i := 0 to |arr|
      invariant rest == Others(arr[..i], used)
    {
      assert arr[..i + 1][..i] == arr[..i];
      if i !in used {
        rest := rest + [arr[i]];
      }
    }
    assert arr[..|arr|] == arr;
  }

  function Queue(m: map<string, seq<nat>>, tag: string): seq<nat>
  {
    if tag in m then m[tag] else []
  }

  /** The indices of a tag that the requests so far leave unused. */
  function Pending(arr: seq<Json>, tags: seq<string>, tag: string): seq<nat>
  {
    var indices, n := IndicesOf(arr, tag), Occurrences(tags, tag);
    if n <= |indices| then indices[n..] else []
  }
}
