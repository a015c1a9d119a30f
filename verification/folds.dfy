/**
  Generic folds the accounting engine is built from: the left-to-right sum
  `xs.reduce((sum, x) => sum + f(x), 0)`, the two halves of
  `xs.filter(x => key(x) === k)`, and the first-appearance order in which a
  grouping object acquires its keys.
 */
module Folds {

  /** No value occurs twice. */
  predicate Distinct<T(==)>(xs: seq<T>)
  {
    forall i, j :: 0 <= i < j < |xs| ==> xs[i] != xs[j]
  }

  /** Left fold of `f` over `xs`, starting from 0. */
  function SumBy<T>(xs: seq<T>, f: T -> real): real
  {
    if |xs| == 0 then 0.0 else SumBy(xs[..|xs| - 1], f) + f(xs[|xs| - 1])
  }

  /** The elements whose key is `k`, in their original order. */
  function Select<T(!new), K(==,!new)>(xs: seq<T>, key: T -> K, k: K): (r: seq<T>)
    ensures forall x :: x in r <==> x in xs && key(x) == k
    ensures |r| <= |xs|
  {
    if |xs| == 0 then []
    else
      var init := xs[..|xs| - 1];
      var last := xs[|xs| - 1];
      assert xs == init + [last];
      var rest := Select(init, key, k);
      if key(last) == k then rest + [last] else rest
  }

  /** The elements whose key is not `k`, in their original order. */
  function Drop<T(!new), K(==,!new)>(xs: seq<T>, key: T -> K, k: K): (r: seq<T>)
    ensures forall x :: x in r <==> x in xs && key(x) != k
    ensures |r| <= |xs|
  {
    if |xs| == 0 then []
    else
      var init := xs[..|xs| - 1];
      var last := xs[|xs| - 1];
      assert xs == init + [last];
      var rest := Drop(init, key, k);
      if key(last) != k then rest + [last] else rest
  }

  /** Keys of `xs` in the order they first appear, each once. */
  function KeysInOrder<T(!new), K(==,!new)>(xs: seq<T>, key: T -> K): (r: seq<K>)
    ensures Distinct(r)
    ensures forall k :: k in r <==> exists x :: x in xs && key(x) == k
  {
    if |xs| == 0 then []
    else
      var init := xs[..|xs| - 1];
      var last := xs[|xs| - 1];
      assert xs == init + [last];
      var rest := KeysInOrder(init, key);
      if key(last) in rest then rest else rest + [key(last)]
  }

  /** Sum, over a list of keys, of the group total of each key. */
  function SumOverKeys<T(!new), K(==,!new)>(keys: seq<K>, xs: seq<T>, key: T -> K, f: T -> real): real
  {
    if |keys| == 0 then 0.0
    else SumOverKeys(keys[..|keys| - 1], xs, key, f) + SumBy(Select(xs, key, keys[|keys| - 1]), f)
  }

  /** Sum of the entries of `m` at `keys`. */
  function SumAt<K>(m: map<K, real>, keys: seq<K>): real
    requires forall k :: k in keys ==> k in m
  {
    if |keys| == 0 then 0.0 else SumAt(m, keys[..|keys| - 1]) + m[keys[|keys| - 1]]
  }

  /** A sum of values that are never negative is not negative. */
  lemma {:induction false} SumByNonNegative<T>(xs: seq<T>, f: T -> real)
    ensures (forall x :: x in xs ==> f(x) >= 0.0) ==> SumBy(xs, f) >= 0.0
    decreases |xs|
  {
    if |xs| > 0 {
      var init := xs[..|xs| - 1];
      SumByNonNegative(init, f);
      assert forall x :: x in init ==> x in xs;
      assert xs[|xs| - 1] in xs;
    }
  }

  /** Appending a new value keeps a list duplicate-free. */
  lemma DistinctSnoc<T>(xs: seq<T>, x: T)
    requires Distinct(xs) && x !in xs
    ensures Distinct(xs + [x])
  {
    forall i, j | 0 <= i < j < |xs| + 1 ensures (xs + [x])[i] != (xs + [x])[j] {
      if j == |xs| {
        assert xs[i] in xs;
      }
    }
  }

  // ---------------------------------------------------------------------
  // Unfolding one element at the end
  // ---------------------------------------------------------------------

  lemma SumBySnoc<T>(xs: seq<T>, x: T, f: T -> real)
    ensures SumBy(xs + [x], f) == SumBy(xs, f) + f(x)
  {
    assert (xs + [x])[..|xs + [x]| - 1] == xs;
  }

  lemma SelectSnoc<T(!new), K(!new)>(xs: seq<T>, x: T, key: T -> K, k: K)
    ensures Select(xs + [x], key, k) == if key(x) == k then Select(xs, key, k) + [x] else Select(xs, key, k)
  {
    assert (xs + [x])[..|xs + [x]| - 1] == xs;
  }

  lemma DropSnoc<T(!new), K(!new)>(xs: seq<T>, x: T, key: T -> K, k: K)
    ensures Drop(xs + [x], key, k) == if key(x) != k then Drop(xs, key, k) + [x] else Drop(xs, key, k)
  {
    assert (xs + [x])[..|xs + [x]| - 1] == xs;
  }

  // ---------------------------------------------------------------------
  // Algebra of the folds
  // ---------------------------------------------------------------------

  /** Every element goes to exactly one side of a key split. */
  lemma {:induction false} SelectDropSplit<T(!new), K(!new)>(xs: seq<T>, key: T -> K, k: K, f: T -> real)
    ensures |Select(xs, key, k)| + |Drop(xs, key, k)| == |xs|
    ensures SumBy(xs, f) == SumBy(Select(xs, key, k), f) + SumBy(Drop(xs, key, k), f)
    decreases |xs|
  {
    if |xs| > 0 {
      var init := xs[..|xs| - 1];
      var last := xs[|xs| - 1];
      assert xs == init + [last];
      SelectDropSplit(init, key, k, f);
      SelectSnoc(init, last, key, k);
      DropSnoc(init, last, key, k);
      SumBySnoc(init, last, f);
      if key(last) == k {
        SumBySnoc(Select(init, key, k), last, f);
      } else {
        SumBySnoc(Drop(init, key, k), last, f);
      }
    }
  }

  /** Filtering by one key and discarding by another can be done in either order. */
  lemma {:induction false} SelectDropCommute<T(!new), J(!new), K(!new)>(xs: seq<T>, drop: T -> J, j: J, select: T -> K, k: K)
    ensures Select(Drop(xs, drop, j), select, k) == Drop(Select(xs, select, k), drop, j)
    decreases |xs|
  {
    if |xs| > 0 {
      var init := xs[..|xs| - 1];
      assert xs == init + [xs[|xs| - 1]];
      SelectDropCommute(init, drop, j, select, k);
      SelectDropCommuteStep(init, xs[|xs| - 1], drop, j, select, k);
    }
  }

  /** The inductive step of `SelectDropCommute`, with the induction hypothesis as a precondition. */
  lemma SelectDropCommuteStep<T(!new), J(!new), K(!new)>(init: seq<T>, last: T, drop: T -> J, j: J, select: T -> K, k: K)
    requires Select(Drop(init, drop, j), select, k) == Drop(Select(init, select, k), drop, j)
    ensures Select(Drop(init + [last], drop, j), select, k) == Drop(Select(init + [last], select, k), drop, j)
  {
    DropSnoc(init, last, drop, j);
    SelectSnoc(init, last, select, k);
    if drop(last) != j {
      SelectSnoc(Drop(init, drop, j), last, select, k);
    }
    if select(last) == k {
      DropSnoc(Select(init, select, k), last, drop, j);
    }
  }

  /** A one-element list is kept or discarded by its key. */
  lemma DropSingleton<T(!new), K(!new)>(x: T, key: T -> K, k: K)
    ensures Drop([x], key, k) == if key(x) != k then [x] else []
  {
    assert [x][..0] == [];
  }

  /**
    Filtering keeps the relative order of what it keeps: together with
    `DropSingleton`, distributing over concatenation determines `Drop`.
   */
  lemma {:induction false} DropAppend<T(!new), K(!new)>(a: seq<T>, b: seq<T>, key: T -> K, k: K)
    ensures Drop(a + b, key, k) == Drop(a, key, k) + Drop(b, key, k)
    decreases |b|
  {
    if |b| == 0 {
      assert a + b == a;
    } else {
      var init, last := b[..|b| - 1], b[|b| - 1];
      assert b == init + [last];
      assert a + b == (a + init) + [last];
      DropAppend(a, init, key, k);
      DropSnocStep(a, init, last, key, k);
    }
  }

  /** The inductive step of `DropAppend`, with the induction hypothesis as a precondition. */
  lemma DropSnocStep<T(!new), K(!new)>(a: seq<T>, init: seq<T>, last: T, key: T -> K, k: K)
    requires Drop(a + init, key, k) == Drop(a, key, k) + Drop(init, key, k)
    ensures Drop((a + init) + [last], key, k) == Drop(a, key, k) + Drop(init + [last], key, k)
  {
    DropSnoc(a + init, last, key, k);
    DropSnoc(init, last, key, k);
    if key(last) != k {
      AppendAssoc(Drop(a, key, k), Drop(init, key, k), [last]);
    }
  }

  /** Concatenation is associative. */
  lemma AppendAssoc<T>(xs: seq<T>, ys: seq<T>, zs: seq<T>)
    ensures (xs + ys) + zs == xs + (ys + zs)
  {
  }

  /** A split that selects nothing leaves the list as it was. */
  lemma {:induction false} DropAbsent<T(!new), K(!new)>(xs: seq<T>, key: T -> K, k: K)
    requires forall x :: x in xs ==> key(x) != k
    ensures Drop(xs, key, k) == xs
    ensures Select(xs, key, k) == []
    decreases |xs|
  {
    if |xs| > 0 {
      var init := xs[..|xs| - 1];
      assert xs == init + [xs[|xs| - 1]];
      DropAbsent(init, key, k);
      DropSnoc(init, xs[|xs| - 1], key, k);
      SelectSnoc(init, xs[|xs| - 1], key, k);
    }
  }

  lemma {:induction false} SumOverKeysEmpty<T(!new), K(!new)>(keys: seq<K>, key: T -> K, f: T -> real)
    ensures SumOverKeys(keys, [], key, f) == 0.0
    decreases |keys|
  {
    if |keys| > 0 {
      SumOverKeysEmpty(keys[..|keys| - 1], key, f);
    }
  }

  /** Adding one element to the data adds its amount once, to the one key it belongs to. */
  lemma {:induction false} SumOverKeysSnoc<T(!new), K(!new)>(keys: seq<K>, xs: seq<T>, x: T, key: T -> K, f: T -> real)
    requires Distinct(keys)
    ensures SumOverKeys(keys, xs + [x], key, f) == SumOverKeys(keys, xs, key, f) + (if key(x) in keys then f(x) else 0.0)
    decreases |keys|
  {
    if |keys| > 0 {
      var init := keys[..|keys| - 1];
      var k := keys[|keys| - 1];
      assert keys == init + [k];
      assert Distinct(init);
      assert k !in init;
      SumOverKeysSnoc(init, xs, x, key, f);
      SelectSnoc(xs, x, key, k);
      if key(x) == k {
        SumBySnoc(Select(xs, key, k), x, f);
      }
    }
  }

  /**
    Group totals over a duplicate-free list of keys that covers every
    element add up to the overall total.
   */
  lemma {:induction false} GroupTotalsCover<T(!new), K(!new)>(keys: seq<K>, xs: seq<T>, key: T -> K, f: T -> real)
    requires Distinct(keys)
    requires forall x :: x in xs ==> key(x) in keys
    ensures SumOverKeys(keys, xs, key, f) == SumBy(xs, f)
    decreases |xs|
  {
    if |xs| == 0 {
      SumOverKeysEmpty(keys, key, f);
    } else {
      var init := xs[..|xs| - 1];
      var last := xs[|xs| - 1];
      assert xs == init + [last];
      GroupTotalsCover(keys, init, key, f);
      SumOverKeysSnoc(keys, init, last, key, f);
      SumBySnoc(init, last, f);
    }
  }

  /** The map entries at `keys` add up like the group totals they hold. */
  lemma {:induction false} SumAtGroups<T(!new), K(!new)>(m: map<K, real>, keys: seq<K>, xs: seq<T>, key: T -> K, f: T -> real)
    requires forall k :: k in keys ==> k in m && m[k] == SumBy(Select(xs, key, k), f)
    ensures SumAt(m, keys) == SumOverKeys(keys, xs, key, f)
    decreases |keys|
  {
    if |keys| > 0 {
      SumAtGroups(m, keys[..|keys| - 1], xs, key, f);
    }
  }
}
