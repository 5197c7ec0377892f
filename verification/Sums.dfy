/** Finite sums: over a sequence by a weight, and over the keys of a dictionary. */
module Sums {

  ghost function Total<T>(items: seq<T>, weight: T -> real): real {
    if items == [] then 0.0
    else Total(items[..|items| - 1], weight) + weight(items[|items| - 1])
  }

  lemma {:induction false} TotalConcat<T>(a: seq<T>, b: seq<T>, weight: T -> real)
    ensures Total(a + b, weight) == Total(a, weight) + Total(b, weight)
  {
    if b == [] {
      assert a + b == a;
    } else {
      assert (a + b)[..|a + b| - 1] == a + b[..|b| - 1];
      TotalConcat(a, b[..|b| - 1], weight);
    }
  }

  lemma TotalNone<T>(weight: T -> real)
    ensures Total([], weight) == 0.0
  {
  }

  lemma TotalOne<T>(x: T, weight: T -> real)
    ensures Total([x], weight) == weight(x)
  {
    assert [x][..0] == [];
  }

  /** Taking one element out, or exchanging it, changes the total by its weight alone. */
  lemma TotalAt<T>(items: seq<T>, i: nat, x: T, weight: T -> real)
    requires i < |items|
    ensures Total(items[..i] + items[i + 1..], weight) == Total(items, weight) - weight(items[i])
    ensures Total(items[i := x], weight) == Total(items, weight) - weight(items[i]) + weight(x)
  {
    assert items == items[..i] + [items[i]] + items[i + 1..];
    assert items[i := x] == items[..i] + [x] + items[i + 1..];
    TotalConcat(items[..i], items[i + 1..], weight);
    TotalConcat(items[..i], [items[i]], weight);
    TotalConcat(items[..i] + [items[i]], items[i + 1..], weight);
    TotalConcat(items[..i], [x], weight);
    TotalConcat(items[..i] + [x], items[i + 1..], weight);
    TotalOne(items[i], weight);
    TotalOne(x, weight);
  }

  lemma {:induction false} TotalZero<T>(items: seq<T>, weight: T -> real)
    requires forall i :: 0 <= i < |items| ==> weight(items[i]) == 0.0
    ensures Total(items, weight) == 0.0
  {
    if items != [] {
      TotalZero(items[..|items| - 1], weight);
    }
  }

  /** The sum of a pointwise sum of weights is the sum of the two totals. */
  lemma {:induction false} TotalSplit<T>(items: seq<T>, u: T -> real, v: T -> real, w: T -> real)
    requires forall i :: 0 <= i < |items| ==> u(items[i]) == v(items[i]) + w(items[i])
    ensures Total(items, u) == Total(items, v) + Total(items, w)
  {
    if items != [] {
      TotalSplit(items[..|items| - 1], u, v, w);
    }
  }

  ghost function Sum<K>(keys: set<K>, f: K -> real): real {
    if keys == {} then 0.0
    else
      var k :| k in keys;
      f(k) + Sum(keys - {k}, f)
  }

  lemma {:induction false} SumExtract<K>(keys: set<K>, f: K -> real, k: K)
    requires k in keys
    ensures Sum(keys, f) == f(k) + Sum(keys - {k}, f)
    decreases |keys|
  {
    var j :| j in keys && Sum(keys, f) == f(j) + Sum(keys - {j}, f);
    if j != k {
      SumExtract(keys - {j}, f, k);
      assert keys - {j} - {k} == keys - {k} - {j};
      SumExtract(keys - {k}, f, j);
    }
  }

  lemma {:induction false} SumSame<K>(keys: set<K>, f: K -> real, g: K -> real)
    requires forall k :: k in keys ==> f(k) == g(k)
    ensures Sum(keys, f) == Sum(keys, g)
    decreases |keys|
  {
    if keys != {} {
      var k :| k in keys;
      SumExtract(keys, f, k);
      SumExtract(keys, g, k);
      SumSame(keys - {k}, f, g);
    }
  }

  /** Keys whose term is zero may be added or left out. */
  lemma {:induction false} SumWiden<K>(keys: set<K>, wide: set<K>, f: K -> real)
    requires keys <= wide
    requires forall k :: k in wide && k !in keys ==> f(k) == 0.0
    ensures Sum(wide, f) == Sum(keys, f)
    decreases |wide - keys|
  {
    if exists k :: k in wide && k !in keys {
      var k :| k in wide && k !in keys;
      SumExtract(wide, f, k);
      assert wide - {k} - keys == wide - keys - {k};
      SumWiden(keys, wide - {k}, f);
    } else {
      assert wide == keys;
    }
  }

  lemma {:induction false} SumAdds<K>(keys: set<K>, f: K -> real, g: K -> real, h: K -> real)
    requires forall k :: k in keys ==> f(k) == g(k) + h(k)
    ensures Sum(keys, f) == Sum(keys, g) + Sum(keys, h)
    decreases |keys|
  {
    if keys != {} {
      var k :| k in keys;
      SumExtract(keys, f, k);
      SumExtract(keys, g, k);
      SumExtract(keys, h, k);
      SumAdds(keys - {k}, f, g, h);
    }
  }

  lemma {:induction false} SumApart<K>(a: set<K>, b: set<K>, f: K -> real)
    requires a !! b
    ensures Sum(a + b, f) == Sum(a, f) + Sum(b, f)
    decreases |b|
  {
    if b == {} {
      assert a + b == a;
    } else {
      var k :| k in b;
      SumExtract(b, f, k);
      SumExtract(a + b, f, k);
      assert (a + b) - {k} == a + (b - {k});
      SumApart(a, b - {k}, f);
      hide Sum;
    }
  }

  lemma {:induction false} SumNegated<K>(keys: set<K>, f: K -> real, g: K -> real)
    requires forall k :: k in keys ==> f(k) == -g(k)
    ensures Sum(keys, f) == -Sum(keys, g)
    decreases |keys|
  {
    if keys != {} {
      var k :| k in keys;
      hide Sum;
      SumNegated(keys - {k}, f, g);
      SumExtract(keys, f, k);
      SumExtract(keys, g, k);
    }
  }

  /** A term present at one key only contributes itself. */
  lemma SumPoint<K>(keys: set<K>, f: K -> real, g: K -> real, k: K)
    requires k in keys
    requires forall j :: j in keys && j != k ==> f(j) == g(j)
    ensures Sum(keys, f) == Sum(keys, g) + f(k) - g(k)
  {
    SumExtract(keys, f, k);
    SumExtract(keys, g, k);
    SumSame(keys - {k}, f, g);
  }

  // ---------------------------------------------------------------- rearranging

  function Dropped<T>(items: seq<T>, i: nat): seq<T>
    requires i < |items|
  {
    items[..i] + items[i + 1..]
  }

  lemma DroppedOne<T>(items: seq<T>, i: nat)
    requires i < |items|
    ensures multiset(items) == multiset(Dropped(items, i)) + multiset{items[i]}
  {
    var before, after := items[..i], items[i + 1..];
    assert items == before + ([items[i]] + after);
    assert multiset(before + ([items[i]] + after)) == multiset(before) + multiset{items[i]} + multiset(after);
  }

  /** The last of a rearrangement occurs in the original, and the rest rearrange. */
  lemma Rearranged<T>(a: seq<T>, b: seq<T>) returns (i: nat)
    requires multiset(a) == multiset(b) && b != []
    ensures i < |a| && a[i] == b[|b| - 1] && multiset(Dropped(a, i)) == multiset(b[..|b| - 1])
  {
    var n := |b| - 1;
    assert b[n] in multiset(a);
    i :| 0 <= i < |a| && a[i] == b[n];
    DroppedOne(a, i);
    DroppedOne(b, n);
    assert Dropped(b, n) == b[..n];
    hide Dropped;
    assert multiset(Dropped(a, i)) == multiset(a) - multiset{b[n]};
  }

  lemma {:induction false} TotalRearranged<T>(a: seq<T>, b: seq<T>, weight: T -> real)
    requires multiset(a) == multiset(b)
    ensures Total(a, weight) == Total(b, weight)
    decreases |b|
  {
    if b == [] {
      assert |multiset(a)| == |a| && |multiset(b)| == 0;
    } else {
      var i := Rearranged(a, b);
      TotalAt(a, i, a[i], weight);
      TotalRearranged(Dropped(a, i), b[..|b| - 1], weight);
    }
  }

  /** Whatever holds of every two elements, either way round, holds in any arrangement. */
  predicate Pairwise<T>(items: seq<T>, r: (T, T) -> bool) {
    forall i, j :: 0 <= i < j < |items| ==> r(items[i], items[j]) && r(items[j], items[i])
  }

  lemma {:induction false} PairwiseRearranged<T>(a: seq<T>, b: seq<T>, r: (T, T) -> bool)
    requires multiset(a) == multiset(b) && Pairwise(a, r)
    ensures Pairwise(b, r)
    decreases |b|
  {
    if b != [] {
      var k := Rearranged(a, b);
      var rest, init := Dropped(a, k), b[..|b| - 1];
      assert forall i :: 0 <= i < |rest| ==> rest[i] == if i < k then a[i] else a[i + 1];
      PairwiseRearranged(rest, init, r);
      forall i | 0 <= i < |init| ensures r(init[i], a[k]) && r(a[k], init[i]) {
        assert init[i] in multiset(rest);
        var j :| 0 <= j < |rest| && rest[j] == init[i];
      }
    }
  }
}
