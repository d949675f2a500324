/**
 * Insertion-ordered collections of distinct values, as the storefront keeps
 * them: the selected-category array (toggled with `indexOf`, `splice` and
 * `push`) and the wishlist `Set` (toggled with `has`, `delete` and `add`,
 * built from a stored array, listed with `Array.from` in insertion order).
 */
module OrderedSet {

  /** No value occurs twice. */
  predicate NoDuplicates<T(==)>(xs: seq<T>) {
    forall i, j :: 0 <= i < j < |xs| ==> xs[i] != xs[j]
  }

  /** `Array.prototype.indexOf`: the first position holding `x`, or -1. */
  function IndexOf<T(==)>(xs: seq<T>, x: T): (i: int)
    ensures -1 <= i < |xs|
    ensures i == -1 <==> x !in xs
    ensures 0 <= i ==> xs[i] == x && x !in xs[..i]
  {
    if |xs| == 0 then -1
    else if xs[0] == x then 0
    else
      var k := IndexOf(xs[1..], x);
      assert x in xs ==> x in xs[1..];
      if k == -1 then -1
      else
        assert xs[..k + 1] == [xs[0]] + xs[1..][..k];
        k + 1
  }

  /**
   * Toggling `x`: remove its first occurrence when present (`splice(idx, 1)`,
   * or `Set.delete`), otherwise append it (`push`, or `Set.add`).
   */
  function Toggled<T(==)>(xs: seq<T>, x: T): (r: seq<T>)
  {
    var i := IndexOf(xs, x);
    if i > -1 then xs[..i] + xs[i + 1..] else xs + [x]
  }

  /**
   * Toggling removes one copy of `x` or adds one, and touches nothing else:
   * every other value keeps its number of occurrences.
   */
  lemma ToggledMultiset<T>(xs: seq<T>, x: T)
    ensures x in xs ==> multiset(Toggled(xs, x)) == multiset(xs) - multiset{x}
    ensures x !in xs ==> multiset(Toggled(xs, x)) == multiset(xs) + multiset{x}
  {
    var i := IndexOf(xs, x);
    if i > -1 {
      assert xs == xs[..i] + [x] + xs[i + 1..];
      assert multiset(xs) == multiset(xs[..i]) + multiset{x} + multiset(xs[i + 1..]);
    }
  }

  /**
   * On a list without duplicates, toggling flips the membership of `x`, leaves
   * the membership of every other value as it was, and keeps the list free of
   * duplicates.
   */
  lemma {:induction false} ToggledFlips<T>(xs: seq<T>, x: T)
    requires NoDuplicates(xs)
    ensures x in Toggled(xs, x) <==> x !in xs
    ensures forall y :: y != x ==> (y in Toggled(xs, x) <==> y in xs)
    ensures NoDuplicates(Toggled(xs, x))
  {
    ToggledMultiset(xs, x);
    var r := Toggled(xs, x);
    assert forall y :: y in r <==> y in multiset(r);
    assert forall y :: y in xs <==> y in multiset(xs);
    if x in xs {
      assert multiset(xs)[x] == 1 by {
        MultiplicityOfDistinct(xs, x);
      }
    }
    ToggledKeepsDistinct(xs, x);
  }

  /** Toggling keeps a list without duplicates free of them. */
  lemma {:induction false} ToggledKeepsDistinct<T>(xs: seq<T>, x: T)
    requires NoDuplicates(xs)
    ensures NoDuplicates(Toggled(xs, x))
  {
    var r := Toggled(xs, x);
    if x in xs {
      var i := IndexOf(xs, x);
      assert forall k :: 0 <= k < i ==> r[k] == xs[k];
      assert forall k :: i <= k < |r| ==> r[k] == xs[k + 1];
      forall a, b | 0 <= a < b < |r| ensures r[a] != r[b] {
        var a', b' := if a < i then a else a + 1, if b < i then b else b + 1;
        assert a' < b';
        assert r[a] == xs[a'] && r[b] == xs[b'];
      }
    } else {
      forall a, b | 0 <= a < b < |r| ensures r[a] != r[b] {
        if b == |xs| {
          assert r[a] == xs[a];
        }
      }
    }
  }

  /** In a list without duplicates a member occurs exactly once. */
  lemma {:induction false} MultiplicityOfDistinct<T>(xs: seq<T>, x: T)
    requires NoDuplicates(xs)
    ensures multiset(xs)[x] == if x in xs then 1 else 0
  {
    if xs != [] {
      assert xs == [xs[0]] + xs[1..];
      MultiplicityOfDistinct(xs[1..], x);
      if xs[0] == x {
        assert x !in xs[1..];
      }
    }
  }

  /** Toggling a value that is absent, twice, gives back exactly the original list. */
  lemma {:induction false} ToggleAbsentTwice<T>(xs: seq<T>, x: T)
    requires x !in xs
    ensures Toggled(Toggled(xs, x), x) == xs
  {
    var ys := xs + [x];
    assert ys[..|xs|] == xs;
    assert IndexOf(ys, x) == |xs|;
    assert ys[..|xs|] == xs;
  }

  /**
   * Toggling twice on a list without duplicates restores the same members
   * (a value that was present comes back at the end, the rest in order).
   */
  lemma {:induction false} ToggleTwiceSameMembers<T>(xs: seq<T>, x: T)
    requires NoDuplicates(xs)
    ensures forall y :: y in Toggled(Toggled(xs, x), x) <==> y in xs
    ensures NoDuplicates(Toggled(Toggled(xs, x), x))
  {
    ToggledFlips(xs, x);
    ToggledFlips(Toggled(xs, x), x);
  }

  /**
   * `new Set(array)`: the distinct values of `xs`, each kept at its first
   * occurrence, in order.
   */
  function Distinct<T(==)>(xs: seq<T>): (r: seq<T>)
    ensures NoDuplicates(r)
  {
    if xs == [] then []
    else
      var init := Distinct(xs[..|xs| - 1]);
      var last := xs[|xs| - 1];
      if last in init then init else init + [last]
  }

  /** The distinct values are exactly the values of the list. */
  lemma {:induction false} DistinctMembers<T>(xs: seq<T>, y: T)
    ensures y in Distinct(xs) <==> y in xs
  {
    if xs != [] {
      var init := xs[..|xs| - 1];
      DistinctMembers(init, y);
      assert xs == init + [xs[|xs| - 1]];
    }
  }

  /** A list that has no duplicates is its own set of distinct values. */
  lemma {:induction false} DistinctOfDistinct<T>(xs: seq<T>)
    requires NoDuplicates(xs)
    ensures Distinct(xs) == xs
  {
    if xs != [] {
      var init := xs[..|xs| - 1];
      DistinctOfDistinct(init);
      assert xs[|xs| - 1] !in init;
      assert xs == init + [xs[|xs| - 1]];
    }
  }
}
