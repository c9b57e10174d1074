/** A stable sort, as Array.prototype.sort is, by any comparison that orders items up to ties. */
module StableSort {
  import opened Sequences

  ghost predicate WeakOrder<T(!new)>(before: (T, T) -> bool)
  {
    && (forall a, b | before(a, b) :: !before(b, a))
    && (forall a, b, c | before(a, c) :: before(a, b) || before(b, c))
  }

  predicate Tied<T>(before: (T, T) -> bool, a: T, b: T) { !before(a, b) && !before(b, a) }

  function Insert<T>(before: (T, T) -> bool, x: T, xs: seq<T>): seq<T>
  {
    if xs == [] || !before(xs[0], x) then [x] + xs else [xs[0]] + Insert(before, x, xs[1..])
  }

  function Sort<T>(before: (T, T) -> bool, xs: seq<T>): seq<T>
  {
    if xs == [] then [] else Insert(before, xs[0], Sort(before, xs[1..]))
  }

  /** The items tied with `k`, in the order they come. */
  function Class<T>(before: (T, T) -> bool, k: T, xs: seq<T>): seq<T>
  {
    if xs == [] then []
    else (if Tied(before, k, xs[0]) then [xs[0]] else []) + Class(before, k, xs[1..])
  }

  ghost predicate Ordered<T>(before: (T, T) -> bool, xs: seq<T>)
  {
    xs != [] ==> (forall y | y in xs[1..] :: !before(y, xs[0])) && Ordered(before, xs[1..])
  }

  lemma {:induction false} InsertKeeps<T>(before: (T, T) -> bool, x: T, xs: seq<T>)
    ensures multiset(Insert(before, x, xs)) == multiset{x} + multiset(xs)
  {
    if xs != [] {
      Uncons(xs);
      InsertKeeps(before, x, xs[1..]);
      var tail := Insert(before, x, xs[1..]);
      assert multiset([xs[0]] + tail) == multiset{xs[0]} + multiset(tail);
      assert multiset([x] + xs) == multiset{x} + multiset(xs);
    }
  }

  lemma {:induction false} SortKeeps<T>(before: (T, T) -> bool, xs: seq<T>)
    ensures multiset(Sort(before, xs)) == multiset(xs)
  {
    if xs != [] {
      Uncons(xs);
      SortKeeps(before, xs[1..]);
      InsertKeeps(before, xs[0], Sort(before, xs[1..]));
    }
  }

  lemma OrderedCons<T>(before: (T, T) -> bool, x: T, xs: seq<T>)
    requires Ordered(before, xs) && forall y | y in xs :: !before(y, x)
    ensures Ordered(before, [x] + xs)
  {
    assert ([x] + xs)[1..] == xs;
  }

  lemma {:induction false} InsertOrdered<T(!new)>(before: (T, T) -> bool, x: T, xs: seq<T>)
    requires WeakOrder(before) && Ordered(before, xs)
    ensures Ordered(before, Insert(before, x, xs))
  {
    if xs == [] {
      OrderedCons(before, x, xs);
    } else {
      Uncons(xs);
      if !before(xs[0], x) {
        OrderedCons(before, x, xs);
      } else {
        InsertOrdered(before, x, xs[1..]);
        InsertKeeps(before, x, xs[1..]);
        var tail := Insert(before, x, xs[1..]);
        assert multiset(tail) == multiset([x] + xs[1..]);
        SameMembers(tail, [x] + xs[1..]);
        OrderedCons(before, xs[0], tail);
      }
    }
  }

  lemma {:induction false} SortOrdered<T(!new)>(before: (T, T) -> bool, xs: seq<T>)
    requires WeakOrder(before)
    ensures Ordered(before, Sort(before, xs))
  {
    if xs != [] {
      SortOrdered(before, xs[1..]);
      InsertOrdered(before, xs[0], Sort(before, xs[1..]));
    }
  }

  // ---------- Stability ----------

  lemma {:induction false} InsertStable<T(!new)>(before: (T, T) -> bool, k: T, x: T, xs: seq<T>)
    requires WeakOrder(before)
    ensures Class(before, k, Insert(before, x, xs)) == Class(before, k, [x] + xs)
  {
    assert ([x] + xs)[1..] == xs;
    if xs != [] && before(xs[0], x) {
      InsertStable(before, k, x, xs[1..]);
      var tail := Insert(before, x, xs[1..]);
      assert ([xs[0]] + tail)[1..] == tail && ([x] + xs[1..])[1..] == xs[1..];
    }
  }

  /** Tied items keep their order. */
  lemma {:induction false} SortStable<T(!new)>(before: (T, T) -> bool, k: T, xs: seq<T>)
    requires WeakOrder(before)
    ensures Class(before, k, Sort(before, xs)) == Class(before, k, xs)
  {
    if xs != [] {
      SortStable(before, k, xs[1..]);
      InsertStable(before, k, xs[0], Sort(before, xs[1..]));
      assert ([xs[0]] + Sort(before, xs[1..]))[1..] == Sort(before, xs[1..]);
    }
  }

  // ---------- When sorting decides equality of multisets ----------

  ghost predicate NoTies<T>(before: (T, T) -> bool, xs: seq<T>)
  {
    forall a, b | a in xs && b in xs && Tied(before, a, b) :: a == b
  }

  /** Two ordered lists of the same items, none of them tied, are the same list. */
  lemma {:induction false} OrderedUnique<T>(before: (T, T) -> bool, xs: seq<T>, ys: seq<T>)
    requires Ordered(before, xs) && Ordered(before, ys) && multiset(xs) == multiset(ys)
    requires NoTies(before, xs)
    ensures xs == ys
  {
    SameSize(xs, ys);
    if xs != [] {
      SameHead(before, xs, ys);
      Uncons(xs);
      Uncons(ys);
      Cancel(xs[0], multiset(xs[1..]), multiset(ys[1..]));
      assert Ordered(before, xs[1..]) && Ordered(before, ys[1..]);
      hide Ordered;
      OrderedUnique(before, xs[1..], ys[1..]);
    }
  }

  lemma SameHead<T>(before: (T, T) -> bool, xs: seq<T>, ys: seq<T>)
    requires Ordered(before, xs) && Ordered(before, ys) && multiset(xs) == multiset(ys)
    requires NoTies(before, xs) && xs != [] && ys != []
    ensures xs[0] == ys[0]
  {
    Uncons(xs);
    Uncons(ys);
    SameMembers(xs, ys);
    assert xs[0] in ys && ys[0] in xs;
    assert xs[0] != ys[0] ==> Tied(before, xs[0], ys[0]);
  }

  lemma SortedEqual<T(!new)>(before: (T, T) -> bool, xs: seq<T>, ys: seq<T>)
    requires WeakOrder(before)
    ensures Sort(before, xs) == Sort(before, ys) ==> multiset(xs) == multiset(ys)
    ensures multiset(xs) == multiset(ys) && NoTies(before, xs) ==> Sort(before, xs) == Sort(before, ys)
  {
    SortKeeps(before, xs);
    SortKeeps(before, ys);
    SortOrdered(before, xs);
    SortOrdered(before, ys);
    hide Sort, Ordered, WeakOrder;
    if multiset(xs) == multiset(ys) && NoTies(before, xs) {
      SameMembers(xs, Sort(before, xs));
      OrderedUnique(before, Sort(before, xs), Sort(before, ys));
    }
  }

  lemma TakeTwo<T>(xs: seq<T>, a: T, b: T) returns (rest: seq<T>)
    requires a in xs && b in xs && a != b
    ensures multiset([a, b] + rest) == multiset(xs) && multiset([b, a] + rest) == multiset(xs)
  {
    var i, others := Split(xs, a);
    assert xs == xs[..i] + [a] + xs[i + 1..];
    assert b in others;
    var _, rest' := Split(others, b);
    rest := rest';
    assert multiset([a, b] + rest) == multiset{a} + (multiset{b} + multiset(rest));
    assert multiset([b, a] + rest) == multiset{a} + (multiset{b} + multiset(rest));
  }

  /** Two lists that differ in the order of two tied items sort differently. */
  lemma SwapShows<T(!new)>(before: (T, T) -> bool, a: T, b: T, rest: seq<T>)
    requires WeakOrder(before) && Tied(before, a, b) && a != b
    ensures Sort(before, [a, b] + rest) != Sort(before, [b, a] + rest)
  {
    SortStable(before, a, [a, b] + rest);
    SortStable(before, a, [b, a] + rest);
    assert ([a, b] + rest)[1..] == [b] + rest && ([b, a] + rest)[1..] == [a] + rest;
    assert ([b] + rest)[1..] == rest && ([a] + rest)[1..] == rest;
    assert Class(before, a, [a, b] + rest)[0] == a && Class(before, a, [b, a] + rest)[0] == b;
  }

  /**
   Sorting recognises every rearrangement of a list exactly when no two different items of it are tied.
   */
  lemma SortDecidesIff<T(!new)>(before: (T, T) -> bool, xs: seq<T>)
    requires WeakOrder(before)
    ensures (forall ys | multiset(ys) == multiset(xs) :: Sort(before, ys) == Sort(before, xs)) <==> NoTies(before, xs)
  {
    hide Sort, WeakOrder;
    if NoTies(before, xs) {
      forall ys | multiset(ys) == multiset(xs) ensures Sort(before, ys) == Sort(before, xs) {
        SortedEqual(before, xs, ys);
      }
    } else {
      var a, b :| a in xs && b in xs && Tied(before, a, b) && a != b;
      var rest := TakeTwo(xs, a, b);
      SwapShows(before, a, b, rest);
    }
  }
}
