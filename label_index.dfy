/**
 * The grouping `BaseDataSet._build_label_index_dict` builds: for every label,
 * the indices of the entries carrying it. The Python dictionary remembers the
 * order in which labels were first inserted, so the grouping is a map
 * together with that key order.
 */
module LabelIndex {

  /** `label_index_dict`: its keys in insertion order, and the index list of each key. */
  datatype Grouping = Grouping(keys: seq<string>, lists: map<string, seq<nat>>)

  /** The indices `i` with `labels[i] == l`, in increasing order. */
  function IndicesOf(labels: seq<string>, l: string): seq<nat>
  {
    if labels == [] then []
    else IndicesOf(labels[..|labels| - 1], l) + (if labels[|labels| - 1] == l then [|labels| - 1] else [])
  }

  /** The distinct labels, each at the position of its first occurrence. */
  function FirstOccurrences(labels: seq<string>): seq<string>
  {
    if labels == [] then []
    else
      var init := labels[..|labels| - 1];
      FirstOccurrences(init) + (if labels[|labels| - 1] in init then [] else [labels[|labels| - 1]])
  }

  /** The grouping of `labels`, as `_build_label_index_dict` should return it. */
  function GroupingOf(labels: seq<string>): Grouping
  {
    Grouping(FirstOccurrences(labels), map l | l in labels :: IndicesOf(labels, l))
  }

  predicate StrictlyIncreasing(xs: seq<nat>) {
    forall a, b :: 0 <= a < b < |xs| ==> xs[a] < xs[b]
  }

  predicate Distinct(xs: seq<string>) {
    forall a, b :: 0 <= a < b < |xs| ==> xs[a] != xs[b]
  }

  /** The list of `l` holds exactly the indices of the entries labelled `l`. */
  lemma {:induction false} IndicesOfMembers(labels: seq<string>, l: string)
    ensures forall i :: i in IndicesOf(labels, l) <==> 0 <= i < |labels| && labels[i] == l
  {
    if labels != [] {
      var n := |labels| - 1;
      IndicesOfMembers(labels[..n], l);
      assert forall i :: 0 <= i < n ==> labels[..n][i] == labels[i];
    }
  }

  /** The list of `l` is strictly increasing, so it holds each index once. */
  lemma {:induction false} IndicesOfIncreasing(labels: seq<string>, l: string)
    ensures StrictlyIncreasing(IndicesOf(labels, l))
  {
    if labels != [] {
      var n := |labels| - 1;
      var prev := IndicesOf(labels[..n], l);
      IndicesOfIncreasing(labels[..n], l);
      IndicesOfMembers(labels[..n], l);
      forall a | 0 <= a < |prev|
        ensures prev[a] < n
      {
        assert prev[a] in prev;
      }
    }
  }

  /** Both facts about the list of `l`; a label that never occurs has the empty list. */
  lemma IndicesOfSpec(labels: seq<string>, l: string)
    ensures forall i :: i in IndicesOf(labels, l) <==> 0 <= i < |labels| && labels[i] == l
    ensures StrictlyIncreasing(IndicesOf(labels, l))
    ensures l !in labels ==> IndicesOf(labels, l) == []
  {
    IndicesOfMembers(labels, l);
    IndicesOfIncreasing(labels, l);
    if IndicesOf(labels, l) != [] {
      assert IndicesOf(labels, l)[0] in IndicesOf(labels, l);
    }
  }

  /** The key order holds every label once, in the order labels first appear. */
  lemma {:induction false} FirstOccurrencesSpec(labels: seq<string>)
    ensures forall l :: l in FirstOccurrences(labels) <==> l in labels
    ensures Distinct(FirstOccurrences(labels))
    ensures |FirstOccurrences(labels)| <= |labels|
  {
    if labels != [] {
      var n := |labels| - 1;
      var init := labels[..n];
      FirstOccurrencesSpec(init);
      assert labels == init + [labels[n]];
    }
  }

  /** The first index of key `a` is below the first index of any later key `b`. */
  lemma {:induction false} KeyOrderAt(labels: seq<string>, a: nat, b: nat)
    requires a < b < |FirstOccurrences(labels)|
    ensures |IndicesOf(labels, FirstOccurrences(labels)[a])| > 0
    ensures |IndicesOf(labels, FirstOccurrences(labels)[b])| > 0
    ensures IndicesOf(labels, FirstOccurrences(labels)[a])[0] < IndicesOf(labels, FirstOccurrences(labels)[b])[0]
  {
    var n := |labels| - 1;
    var init := labels[..n];
    FirstOccurrencesSpec(init);
    var keys, prev := FirstOccurrences(labels), FirstOccurrences(init);
    assert keys[a] == prev[a] && keys[a] in init;
    PrefixKeepsFirst(labels, keys[a]);
    if b < |prev| {
      KeyOrderAt(init, a, b);
      assert keys[b] == prev[b] && keys[b] in init;
      PrefixKeepsFirst(labels, keys[b]);
    } else {
      assert keys[b] == labels[n] && labels[n] !in init;
      LastNewLabel(labels);
    }
  }

  /**
   * Keys come in the order of their first index: the list of an earlier key
   * starts before the list of a later one.
   */
  lemma KeysInFirstAppearanceOrder(labels: seq<string>)
    ensures forall a, b :: 0 <= a < b < |FirstOccurrences(labels)| ==>
      FirstSeenBefore(labels, FirstOccurrences(labels)[a], FirstOccurrences(labels)[b])
  {
    forall a, b | 0 <= a < b < |FirstOccurrences(labels)|
      ensures FirstSeenBefore(labels, FirstOccurrences(labels)[a], FirstOccurrences(labels)[b])
    {
      KeyOrderAt(labels, a, b);
    }
  }

  /** Both labels occur, and `k1` occurs first. */
  predicate FirstSeenBefore(labels: seq<string>, k1: string, k2: string) {
    && |IndicesOf(labels, k1)| > 0 && |IndicesOf(labels, k2)| > 0
    && IndicesOf(labels, k1)[0] < IndicesOf(labels, k2)[0]
  }

  /** An entry whose label is new has its index as the whole list, after every earlier first index. */
  lemma LastNewLabel(labels: seq<string>)
    requires labels != [] && labels[|labels| - 1] !in labels[..|labels| - 1]
    ensures IndicesOf(labels, labels[|labels| - 1]) == [|labels| - 1]
    ensures forall l :: l in labels[..|labels| - 1] ==>
      |IndicesOf(labels, l)| > 0 && IndicesOf(labels, l)[0] < |labels| - 1
  {
    var n := |labels| - 1;
    var init := labels[..n];
    IndicesOfSpec(init, labels[n]);
    forall l | l in init
      ensures |IndicesOf(labels, l)| > 0 && IndicesOf(labels, l)[0] < n
    {
      PrefixKeepsFirst(labels, l);
      IndicesOfSpec(init, l);
      assert IndicesOf(init, l)[0] in IndicesOf(init, l);
    }
  }

  /** Adding an entry does not change the first index of a label already present. */
  lemma PrefixKeepsFirst(labels: seq<string>, l: string)
    requires labels != [] && l in labels[..|labels| - 1]
    ensures |IndicesOf(labels[..|labels| - 1], l)| > 0
    ensures |IndicesOf(labels, l)| > 0 && IndicesOf(labels, l)[0] == IndicesOf(labels[..|labels| - 1], l)[0]
  {
    var init := labels[..|labels| - 1];
    var i :| 0 <= i < |init| && init[i] == l;
    IndicesOfSpec(init, l);
    assert i in IndicesOf(init, l);
  }

  /**
   * The lists partition the indices `0..N-1`: every index is in the list of
   * its own label and in no other list.
   */
  lemma Partition(labels: seq<string>)
    ensures var g := GroupingOf(labels);
      forall i :: 0 <= i < |labels| ==>
        && labels[i] in g.lists && i in g.lists[labels[i]]
        && forall l :: l in g.lists && i in g.lists[l] ==> l == labels[i]
  {
    var g := GroupingOf(labels);
    forall l | l in g.lists {
      IndicesOfSpec(labels, l);
    }
    forall i | 0 <= i < |labels|
      ensures labels[i] in g.lists && i in g.lists[labels[i]]
    {
      IndicesOfSpec(labels, labels[i]);
    }
  }

  /**
   * The keys are exactly the distinct labels, and each list holds exactly
   * the indices carrying its key, strictly increasing.
   */
  lemma GroupingSpec(labels: seq<string>)
    ensures var g := GroupingOf(labels);
      && (forall l :: l in g.lists <==> l in labels)
      && (forall l :: l in g.keys <==> l in labels)
      && Distinct(g.keys)
      && forall l :: l in g.lists ==>
           && StrictlyIncreasing(g.lists[l])
           && forall i :: i in g.lists[l] <==> 0 <= i < |labels| && labels[i] == l
  {
    FirstOccurrencesSpec(labels);
    var g := GroupingOf(labels);
    forall l | l in g.lists
      ensures StrictlyIncreasing(g.lists[l])
      ensures forall i :: i in g.lists[l] <==> 0 <= i < |labels| && labels[i] == l
    {
      IndicesOfSpec(labels, l);
    }
  }

  /** Appending keeps a sequence distinct exactly when the new element is new. */
  lemma DistinctSnoc(xs: seq<string>, x: string)
    ensures Distinct(xs + [x]) <==> Distinct(xs) && x !in xs
  {
    var ys := xs + [x];
    assert forall a :: 0 <= a < |xs| ==> ys[a] == xs[a];
    if x in xs {
      var a :| 0 <= a < |xs| && xs[a] == x;
      assert ys[a] == ys[|xs|];
    }
  }

  /**
   * There are as many keys as entries exactly when no label repeats; the
   * summary's "num_labels", which is the entry count, equals the number of
   * distinct labels only then.
   */
  lemma {:induction false} KeyCountIsEntryCountIffDistinct(labels: seq<string>)
    ensures |FirstOccurrences(labels)| == |labels| <==> Distinct(labels)
  {
    if labels != [] {
      var n := |labels| - 1;
      var init := labels[..n];
      KeyCountIsEntryCountIffDistinct(init);
      FirstOccurrencesSpec(init);
      assert labels == init + [labels[n]];
      DistinctSnoc(init, labels[n]);
    }
  }

  /** The grouping after one more entry: the new index joins the list of its label, created if new. */
  lemma GroupingSnoc(labels: seq<string>)
    requires labels != []
    ensures var n := |labels| - 1;
      var prev, x := GroupingOf(labels[..n]), labels[n];
      && GroupingOf(labels).keys == prev.keys + (if x in prev.lists then [] else [x])
      && GroupingOf(labels).lists
         == prev.lists[x := (if x in prev.lists then prev.lists[x] else []) + [n]]
  {
    var n := |labels| - 1;
    var init, x := labels[..n], labels[n];
    var prev := GroupingOf(init);
    var m := prev.lists[x := (if x in prev.lists then prev.lists[x] else []) + [n]];
    assert labels == init + [x];
    forall l
      ensures l in GroupingOf(labels).lists <==> l in m
      ensures l in m ==> GroupingOf(labels).lists[l] == m[l]
    {
      assert labels[..n] == init;
      IndicesOfSpec(init, l);
    }
  }
}
