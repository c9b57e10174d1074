/** The default sort of strings, by code unit. */
module TextSort {
  import opened JsonNumber
  import CanonicalJson
  import StableSort

  predicate Before(a: Text, b: Text) { CanonicalJson.Less(a, b) }

  function Sorted(xs: seq<Text>): seq<Text> { StableSort.Sort(Before, xs) }

  lemma TextOrder()
    ensures StableSort.WeakOrder(Before)
    ensures forall a, b | StableSort.Tied(Before, a, b) :: a == b
  {
    forall a, b ensures (Before(a, b) ==> !Before(b, a)) && (StableSort.Tied(Before, a, b) ==> a == b) {
      CanonicalJson.LessTotal(a, b);
    }
    forall a, b, c | Before(a, c) ensures Before(a, b) || Before(b, c) {
      CanonicalJson.LessTotal(a, b);
      if Before(b, a) { CanonicalJson.LessTransitive(b, a, c); }
    }
  }

  /** Sorting recognises exactly the rearrangements. */
  lemma SortedIff(xs: seq<Text>, ys: seq<Text>)
    ensures Sorted(xs) == Sorted(ys) <==> multiset(xs) == multiset(ys)
  {
    TextOrder();
    StableSort.SortedEqual(Before, xs, ys);
  }

  lemma SortedKeeps(xs: seq<Text>)
    ensures multiset(Sorted(xs)) == multiset(xs)
  {
    StableSort.SortKeeps(Before, xs);
  }
}
