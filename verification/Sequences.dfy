/** Lists: selecting, mapping, pairwise relations and rearrangements. */
module Sequences {
  function Map<A, B>(f: A -> B, xs: seq<A>): (ys: seq<B>)
    ensures |ys| == |xs| && forall i | 0 <= i < |xs| :: ys[i] == f(xs[i])
  {
    seq(|xs|, i requires 0 <= i < |xs| => f(xs[i]))
  }

  function Select<T>(p: T -> bool, xs: seq<T>): (ys: seq<T>)
  {
    if xs == [] then [] else (if p(xs[0]) then [xs[0]] else []) + Select(p, xs[1..])
  }

  ghost predicate Pairwise<T>(r: (T, T) -> bool, xs: seq<T>)
  {
    forall i, j | 0 <= i < j < |xs| :: r(xs[i], xs[j])
  }

  ghost predicate Symmetric<T(!new)>(r: (T, T) -> bool) { forall a, b | r(a, b) :: r(b, a) }

  lemma {:induction false} SelectHas<T>(p: T -> bool, xs: seq<T>)
    ensures forall x :: x in Select(p, xs) <==> x in xs && p(x)
    ensures forall j | 0 <= j < |Select(p, xs)| :: Select(p, xs)[j] in xs && p(Select(p, xs)[j])
  {
    if xs != [] {
      SelectHas(p, xs[1..]);
      assert xs == [xs[0]] + xs[1..];
    }
  }

  lemma {:induction false} SelectPairwise<T>(p: T -> bool, r: (T, T) -> bool, xs: seq<T>)
    requires Pairwise(r, xs)
    ensures Pairwise(r, Select(p, xs))
  {
    if xs != [] {
      SelectPairwise(p, r, xs[1..]);
      SelectHas(p, xs[1..]);
      var rest := Select(p, xs[1..]);
      forall j | 0 <= j < |rest| ensures r(xs[0], rest[j]) {
        var i :| 0 <= i < |xs[1..]| && xs[1..][i] == rest[j];
        assert xs[i + 1] == rest[j];
      }
    }
  }

  /** Selecting what was selected already, or everything, changes nothing. */
  lemma {:induction false} SelectAll<T>(p: T -> bool, xs: seq<T>)
    requires forall i | 0 <= i < |xs| :: p(xs[i])
    ensures Select(p, xs) == xs
  {
    if xs != [] { SelectAll(p, xs[1..]); }
  }

  lemma {:induction false} SelectNone<T>(p: T -> bool, xs: seq<T>)
    requires forall i | 0 <= i < |xs| :: !p(xs[i])
    ensures Select(p, xs) == []
  {
    if xs != [] { SelectNone(p, xs[1..]); }
  }

  lemma {:induction false} SelectShorter<T>(p: T -> bool, xs: seq<T>)
    ensures |Select(p, xs)| <= |xs| && (|Select(p, xs)| == |xs| ==> Select(p, xs) == xs)
  {
    if xs != [] {
      SelectShorter(p, xs[1..]);
      assert xs == [xs[0]] + xs[1..];
    }
  }

  lemma Associate<T>(a: seq<T>, b: seq<T>, c: seq<T>)
    ensures a + (b + c) == a + b + c
  {
  }

  lemma {:induction false} SelectJoin<T>(p: T -> bool, xs: seq<T>, ys: seq<T>)
    ensures Select(p, xs + ys) == Select(p, xs) + Select(p, ys)
  {
    if xs == [] {
      assert xs + ys == ys;
    } else {
      SelectJoin(p, xs[1..], ys);
      assert (xs + ys)[0] == xs[0] && (xs + ys)[1..] == xs[1..] + ys;
      Associate(if p(xs[0]) then [xs[0]] else [], Select(p, xs[1..]), Select(p, ys));
    }
  }

  lemma {:induction false} SelectSame<T>(p: T -> bool, q: T -> bool, xs: seq<T>)
    requires forall i | 0 <= i < |xs| :: p(xs[i]) == q(xs[i])
    ensures Select(p, xs) == Select(q, xs)
  {
    if xs != [] { SelectSame(p, q, xs[1..]); }
  }

  lemma PairwiseJoin<T>(r: (T, T) -> bool, xs: seq<T>, ys: seq<T>)
    requires Pairwise(r, xs) && Pairwise(r, ys) && forall x, y | x in xs && y in ys :: r(x, y)
    ensures Pairwise(r, xs + ys)
  {
  }

  // ---------- Rearrangements ----------

  lemma Split<T>(xs: seq<T>, a: T) returns (i: nat, rest: seq<T>)
    requires a in xs
    ensures i < |xs| && xs[i] == a && rest == xs[..i] + xs[i + 1..]
    ensures multiset(xs) == multiset{a} + multiset(rest)
  {
    i :| 0 <= i < |xs| && xs[i] == a;
    rest := xs[..i] + xs[i + 1..];
    assert xs == xs[..i] + [a] + xs[i + 1..];
  }

  lemma Locate<T>(xs: seq<T>, x: T) returns (k: nat)
    requires x in xs
    ensures k < |xs| && xs[k] == x
  {
    k :| 0 <= k < |xs| && xs[k] == x;
  }

  lemma SameMembers<T>(xs: seq<T>, ys: seq<T>)
    requires multiset(xs) == multiset(ys)
    ensures forall x :: x in xs <==> x in ys
  {
    forall x: T ensures x in xs <==> x in ys {
      assert x in xs <==> x in multiset(xs);
      assert x in ys <==> x in multiset(ys);
    }
  }

  lemma SameSize<T>(xs: seq<T>, ys: seq<T>)
    requires multiset(xs) == multiset(ys)
    ensures |xs| == |ys|
  {
    assert |multiset(xs)| == |xs| && |multiset(ys)| == |ys|;
  }

  lemma Uncons<T>(xs: seq<T>)
    requires xs != []
    ensures xs == [xs[0]] + xs[1..] && multiset(xs) == multiset{xs[0]} + multiset(xs[1..])
    ensures forall x :: x in xs <==> x == xs[0] || x in xs[1..]
  {
    assert xs == [xs[0]] + xs[1..];
  }

  lemma Cancel<T>(a: T, m: multiset<T>, n: multiset<T>)
    requires multiset{a} + m == multiset{a} + n
    ensures m == n
  {
    assert m == (multiset{a} + m) - multiset{a} && n == (multiset{a} + n) - multiset{a};
  }

  /** The first of `xs` taken out of a rearrangement of `xs`. */
  lemma TakeFirst<T>(xs: seq<T>, ys: seq<T>) returns (i: nat, rest: seq<T>)
    requires xs != [] && multiset(xs) == multiset(ys)
    ensures i < |ys| && ys[i] == xs[0] && rest == ys[..i] + ys[i + 1..]
    ensures multiset(xs[1..]) == multiset(rest)
  {
    Uncons(xs);
    SameMembers(xs, ys);
    i, rest := Split(ys, xs[0]);
    Cancel(xs[0], multiset(xs[1..]), multiset(rest));
  }

  lemma {:induction false} MapPermuted<A, B>(f: A -> B, xs: seq<A>, ys: seq<A>)
    requires multiset(xs) == multiset(ys)
    ensures multiset(Map(f, xs)) == multiset(Map(f, ys))
    decreases |xs|
  {
    SameSize(xs, ys);
    if xs != [] {
      var i, rest := TakeFirst(xs, ys);
      MapPermuted(f, xs[1..], rest);
      assert Map(f, xs) == [f(xs[0])] + Map(f, xs[1..]);
      assert Map(f, rest) == Map(f, ys[..i]) + Map(f, ys[i + 1..]);
      assert Map(f, ys) == Map(f, ys[..i]) + [f(xs[0])] + Map(f, ys[i + 1..]);
    }
  }

  lemma {:induction false} SelectPermuted<T>(p: T -> bool, xs: seq<T>, ys: seq<T>)
    requires multiset(xs) == multiset(ys)
    ensures multiset(Select(p, xs)) == multiset(Select(p, ys))
    decreases |xs|
  {
    SameSize(xs, ys);
    if xs != [] {
      var i, rest := TakeFirst(xs, ys);
      SelectPermuted(p, xs[1..], rest);
      assert ys == ys[..i] + ([xs[0]] + ys[i + 1..]);
      SelectJoin(p, ys[..i], [xs[0]] + ys[i + 1..]);
      SelectJoin(p, [xs[0]], ys[i + 1..]);
      SelectJoin(p, ys[..i], ys[i + 1..]);
    }
  }

  /** A symmetric relation that holds pairwise holds pairwise in any order. */
  lemma {:induction false} PairwisePermuted<T(!new)>(r: (T, T) -> bool, xs: seq<T>, ys: seq<T>)
    requires Symmetric(r) && Pairwise(r, xs) && multiset(xs) == multiset(ys)
    ensures Pairwise(r, ys)
    decreases |xs|
  {
    SameSize(xs, ys);
    if xs != [] {
      var i, rest := TakeFirst(xs, ys);
      PairwisePermuted(r, xs[1..], rest);
      SameMembers(xs[1..], rest);
      Reinsert(r, xs[0], ys, i, rest, xs[1..]);
    }
  }

  lemma Reinsert<T(!new)>(r: (T, T) -> bool, a: T, ys: seq<T>, i: nat, rest: seq<T>, others: seq<T>)
    requires i < |ys| && ys[i] == a && rest == ys[..i] + ys[i + 1..] && Pairwise(r, rest) && Symmetric(r)
    requires forall x :: x in others <==> x in rest
    requires forall k | 0 <= k < |others| :: r(a, others[k])
    ensures Pairwise(r, ys)
  {
    forall k | 0 <= k < |rest| ensures r(a, rest[k]) && r(rest[k], a) {
      assert rest[k] in others;
    }
    forall j, k | 0 <= j < k < |ys| ensures r(ys[j], ys[k]) {
      var j', k' := if j < i then j else j - 1, if k < i then k else k - 1;
      if j != i { assert ys[j] == rest[j']; }
      if k != i { assert ys[k] == rest[k']; }
    }
  }
}
