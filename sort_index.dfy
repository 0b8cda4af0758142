/**
 * `getNextSortIndex`: one more than the largest sort index of a collection,
 * the fold starting from -1 so that an empty collection gives 0. The
 * collection is given by its items' sort indices, in order.
 */
module SortIndex {

  function Max(a: int, b: int): int {
    if a >= b then a else b
  }

  /** The reduce: the running maximum of acc and every element, left to right. */
  function MaxFrom(acc: int, xs: seq<int>): (r: int)
    ensures r >= acc
    ensures forall i :: 0 <= i < |xs| ==> xs[i] <= r
    ensures r == acc || r in xs
    decreases |xs|
  {
    if xs == [] then acc
    else
      var r := MaxFrom(Max(acc, xs[0]), xs[1..]);
      assert forall i :: 1 <= i < |xs| ==> xs[i] == xs[1..][i - 1];
      r
  }

  function NextSortIndex(sortIndices: seq<int>): (r: int)
    ensures r >= 0
    ensures forall i :: 0 <= i < |sortIndices| ==> sortIndices[i] < r
    ensures r == 0 || r - 1 in sortIndices
  {
    MaxFrom(-1, sortIndices) + 1
  }

  /** An independent reference: the largest element, taken from the right. */
  function SeqMax(xs: seq<int>): int
    requires xs != []
  {
    if |xs| == 1 then xs[0] else Max(SeqMax(xs[..|xs| - 1]), xs[|xs| - 1])
  }

  lemma {:induction false} SeqMaxIsMax(xs: seq<int>)
    requires xs != []
    ensures SeqMax(xs) in xs
    ensures forall i :: 0 <= i < |xs| ==> xs[i] <= SeqMax(xs)
    decreases |xs|
  {
    if |xs| > 1 {
      var init := xs[..|xs| - 1];
      SeqMaxIsMax(init);
      assert forall i :: 0 <= i < |xs| - 1 ==> xs[i] == init[i];
    }
  }

  /** The result equals max(-1, largest sort index) + 1; an empty collection gives 0. */
  lemma NextSortIndexIsMaxPlusOne(sortIndices: seq<int>)
    ensures sortIndices == [] ==> NextSortIndex(sortIndices) == 0
    ensures sortIndices != [] ==> NextSortIndex(sortIndices) == Max(-1, SeqMax(sortIndices)) + 1
  {
    if sortIndices != [] {
      SeqMaxIsMax(sortIndices);
    }
  }

  /** The result does not depend on the order of the collection. */
  lemma NextSortIndexOrderFree(xs: seq<int>, ys: seq<int>)
    requires multiset(xs) == multiset(ys)
    ensures NextSortIndex(xs) == NextSortIndex(ys)
  {
    forall x ensures x in xs <==> x in ys {
      assert x in xs <==> x in multiset(xs);
      assert x in ys <==> x in multiset(ys);
    }
  }
}
