/** Sorted listing of a finite set of integers, as the report and the chunker list dates and timestamps. */
module Sorting {
  import opened Types

  ghost predicate StrictlyIncreasing(s: seq<int>) {
    forall i, j :: 0 <= i < j < |s| ==> s[i] < s[j]
  }

  lemma SomeMember<T>(s: set<T>) returns (k: T)
    requires |s| > 0
    ensures k in s
  {
    k :| k in s;
  }

  lemma {:induction false} MinExists(s: set<int>) returns (m: int)
    requires |s| > 0
    ensures m in s && forall x :: x in s ==> m <= x
    decreases |s|
  {
    var k := SomeMember(s);
    m := k;
    assert forall x :: x in s ==> x == k || x in s - {k};
    if |s - {k}| > 0 {
      var rest := MinExists(s - {k});
      m := Min(k, rest);
    }
  }

  function MinOf(s: set<int>): (m: int)
    requires s != {}
    ensures m in s && forall x :: x in s ==> m <= x
  {
    assert exists m :: m in s && forall x :: x in s ==> m <= x by {
      var m := MinExists(s);
    }
    var m :| m in s && forall x | x in s :: m <= x;
    m
  }

  function Sorted(s: set<int>): (r: seq<int>)
    ensures StrictlyIncreasing(r) && |r| == |s|
    ensures forall x :: x in r <==> x in s
    decreases |s|
  {
    if s == {} then []
    else [MinOf(s)] + Sorted(s - {MinOf(s)})
  }

  /** A set has only one sorted listing. */
  lemma {:induction false} SortedUnique(a: seq<int>, b: seq<int>)
    requires StrictlyIncreasing(a) && StrictlyIncreasing(b)
    requires forall x :: x in a <==> x in b
    ensures a == b
  {
    assert a == [] || a[0] in a;
    assert b == [] || b[0] in b;
    if a != [] && b != [] {
      var i :| 0 <= i < |b| && b[i] == a[0];
      var j :| 0 <= j < |a| && a[j] == b[0];
      assert a[0] == b[0];
      forall x
        ensures x in a[1..] <==> x in b[1..]
      {
        assert x in a[1..] ==> x in a && x != a[0];
        assert x in b[1..] ==> x in b && x != b[0];
      }
      SortedUnique(a[1..], b[1..]);
    }
  }

  /** A largest element comes last. */
  lemma SortedSnoc(s: set<int>, t: int)
    requires forall x :: x in s ==> x < t
    ensures Sorted(s + {t}) == Sorted(s) + [t]
  {
    hide Sorted;
    var r := Sorted(s);
    forall j | 0 <= j < |r| ensures r[j] < t {
      assert r[j] in r;
    }
    assert StrictlyIncreasing(r + [t]);
    hide StrictlyIncreasing;
    assert forall x :: x in r + [t] <==> x in r || x == t;
    SortedUnique(Sorted(s + {t}), r + [t]);
  }

  // ---------------------------------------------------------------- strings

  /** Lexicographic order, as strings sort. */
  predicate StringLe(a: string, b: string) {
    a == "" || (b != "" && (a[0] < b[0] || (a[0] == b[0] && StringLe(a[1..], b[1..]))))
  }

  lemma {:induction false} StringLeTotal(a: string, b: string)
    ensures StringLe(a, b) || StringLe(b, a)
    ensures StringLe(a, b) && StringLe(b, a) ==> a == b
  {
    if a != "" && b != "" {
      StringLeTotal(a[1..], b[1..]);
      assert a == [a[0]] + a[1..] && b == [b[0]] + b[1..];
    }
  }

  lemma {:induction false} StringLeTransitive(a: string, b: string, c: string)
    requires StringLe(a, b) && StringLe(b, c)
    ensures StringLe(a, c)
  {
    if a != "" && a[0] == b[0] && b[0] == c[0] {
      StringLeTransitive(a[1..], b[1..], c[1..]);
    }
  }

  predicate IsLowest(s: set<string>, m: string) {
    m in s && forall x | x in s :: StringLe(m, x)
  }

  lemma {:induction false} LowestExists(s: set<string>) returns (m: string)
    requires |s| > 0
    ensures IsLowest(s, m)
    decreases |s|
  {
    var k := SomeMember(s);
    m := k;
    StringLeTotal(k, k);
    assert forall x :: x in s ==> x == k || x in s - {k};
    if |s - {k}| > 0 {
      var rest := LowestExists(s - {k});
      StringLeTotal(k, rest);
      if !StringLe(k, rest) {
        m := rest;
      } else {
        forall x | x in s - {k} ensures StringLe(k, x) {
          StringLeTransitive(k, rest, x);
        }
      }
    }
  }

  lemma LowestUnique(s: set<string>, m: string, n: string)
    requires IsLowest(s, m) && IsLowest(s, n)
    ensures m == n
  {
    StringLeTotal(m, n);
  }

  /** The first string of a set in sorted order. */
  function Lowest(s: set<string>): (m: string)
    requires s != {}
    ensures IsLowest(s, m)
  {
    assert exists m :: IsLowest(s, m) by {
      var m := LowestExists(s);
    }
    assert forall m, n :: IsLowest(s, m) && IsLowest(s, n) ==> m == n by {
      forall m, n | IsLowest(s, m) && IsLowest(s, n) ensures m == n {
        LowestUnique(s, m, n);
      }
    }
    var m :| IsLowest(s, m);
    m
  }
}
