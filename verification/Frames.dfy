/** Time-indexed frames as the data store keeps them: concatenate, sort, keep the last of each timestamp. */
module Frames {
  import opened Types

  datatype Stamped<+V> = Stamped(ts: int, value: V)

  /** What a frame says: later rows overwrite earlier ones of the same timestamp. */
  function MapOf<V>(f: seq<Stamped<V>>): map<int, V> {
    if f == [] then map[] else MapOf(f[..|f| - 1])[f[|f| - 1].ts := f[|f| - 1].value]
  }

  predicate Increasing<V>(f: seq<Stamped<V>>) {
    forall i, j :: 0 <= i < j < |f| ==> f[i].ts < f[j].ts
  }

  predicate NonDecreasing<V>(f: seq<Stamped<V>>) {
    forall i, j :: 0 <= i < j < |f| ==> f[i].ts <= f[j].ts
  }

  /** Puts a row behind every row that is not later. */
  function Insert<V>(f: seq<Stamped<V>>, x: Stamped<V>): seq<Stamped<V>> {
    if f == [] || f[|f| - 1].ts <= x.ts then f + [x]
    else Insert(f[..|f| - 1], x) + [f[|f| - 1]]
  }

  /** A stable sort by timestamp. */
  function SortIndex<V>(f: seq<Stamped<V>>): seq<Stamped<V>> {
    if f == [] then [] else Insert(SortIndex(f[..|f| - 1]), f[|f| - 1])
  }

  predicate Occurs<V>(f: seq<Stamped<V>>, ts: int) {
    exists i :: 0 <= i < |f| && f[i].ts == ts
  }

  /** Keeps the last row of every timestamp. */
  function KeepLast<V>(f: seq<Stamped<V>>): seq<Stamped<V>> {
    if f == [] then []
    else if Occurs(f[1..], f[0].ts) then KeepLast(f[1..])
    else [f[0]] + KeepLast(f[1..])
  }

  lemma {:induction false} MapKeys<V>(f: seq<Stamped<V>>, ts: int)
    ensures ts in MapOf(f) <==> Occurs(f, ts)
  {
    if f != [] {
      MapKeys(f[..|f| - 1], ts);
      var n := |f| - 1;
      if Occurs(f[..n], ts) {
        var i :| 0 <= i < n && f[..n][i].ts == ts;
        assert f[i].ts == ts;
      }
      if Occurs(f, ts) {
        var i :| 0 <= i < |f| && f[i].ts == ts;
        assert i < n ==> f[..n][i].ts == ts;
      }
      assert f[n].ts == ts ==> Occurs(f, ts);
    }
  }

  lemma {:induction false} MapConcat<V>(a: seq<Stamped<V>>, b: seq<Stamped<V>>)
    ensures MapOf(a + b) == MapOf(a) + MapOf(b)
  {
    if b == [] {
      assert a + b == a;
    } else {
      MapConcat(a, b[..|b| - 1]);
      assert (a + b)[..|a + b| - 1] == a + b[..|b| - 1];
    }
  }

  /** The row at any place of an increasing frame is what the frame says at that time. */
  lemma {:induction false} MapAt<V>(f: seq<Stamped<V>>, i: nat)
    requires Increasing(f) && i < |f|
    ensures f[i].ts in MapOf(f) && MapOf(f)[f[i].ts] == f[i].value
  {
    if i < |f| - 1 {
      MapAt(f[..|f| - 1], i);
    }
  }

  lemma MapSnoc<V>(f: seq<Stamped<V>>, x: Stamped<V>)
    ensures MapOf(f + [x]) == MapOf(f)[x.ts := x.value]
  {
    assert (f + [x])[..|f|] == f;
  }

  lemma MapCons<V>(x: Stamped<V>, f: seq<Stamped<V>>)
    ensures MapOf([x] + f) == map[x.ts := x.value] + MapOf(f)
  {
    MapConcat([x], f);
    assert [x][..0] == [];
  }

  lemma {:induction false} InsertOrder<V>(f: seq<Stamped<V>>, x: Stamped<V>)
    requires NonDecreasing(f)
    ensures NonDecreasing(Insert(f, x))
    ensures forall k :: 0 <= k < |Insert(f, x)| ==> Insert(f, x)[k] == x || Insert(f, x)[k] in f
  {
    if f != [] && f[|f| - 1].ts > x.ts {
      var init, last := f[..|f| - 1], f[|f| - 1];
      InsertOrder(init, x);
      forall k | 0 <= k < |Insert(init, x)| ensures Insert(init, x)[k].ts <= last.ts {
        assert Insert(init, x)[k] == x || Insert(init, x)[k] in init;
      }
    }
  }

  lemma {:induction false} InsertSays<V>(f: seq<Stamped<V>>, x: Stamped<V>)
    requires NonDecreasing(f)
    ensures MapOf(Insert(f, x)) == MapOf(f)[x.ts := x.value]
  {
    hide MapOf;
    if f == [] || f[|f| - 1].ts <= x.ts {
      MapSnoc(f, x);
    } else {
      var init, last := f[..|f| - 1], f[|f| - 1];
      assert f == init + [last];
      InsertSays(init, x);
      MapSnoc(init, last);
      MapSnoc(Insert(init, x), last);
    }
  }

  /** Sorting keeps what a frame says, because it is stable. */
  lemma {:induction false} SortSays<V>(f: seq<Stamped<V>>)
    ensures NonDecreasing(SortIndex(f))
    ensures MapOf(SortIndex(f)) == MapOf(f)
  {
    if f != [] {
      SortSays(f[..|f| - 1]);
      InsertOrder(SortIndex(f[..|f| - 1]), f[|f| - 1]);
      InsertSays(SortIndex(f[..|f| - 1]), f[|f| - 1]);
    }
  }

  lemma {:induction false} KeepLastOrder<V>(f: seq<Stamped<V>>)
    requires NonDecreasing(f)
    ensures Increasing(KeepLast(f))
    ensures forall k :: 0 <= k < |KeepLast(f)| ==> KeepLast(f)[k] in f
  {
    if f != [] {
      KeepLastOrder(f[1..]);
      if !Occurs(f[1..], f[0].ts) {
        forall k | 0 <= k < |KeepLast(f[1..])| ensures f[0].ts < KeepLast(f[1..])[k].ts {
          assert KeepLast(f[1..])[k] in f[1..];
        }
      }
    }
  }

  lemma {:induction false} KeepLastSays<V>(f: seq<Stamped<V>>)
    ensures MapOf(KeepLast(f)) == MapOf(f)
  {
    hide MapOf;
    if f != [] {
      KeepLastSays(f[1..]);
      assert f == [f[0]] + f[1..];
      MapCons(f[0], f[1..]);
      MapKeys(f[1..], f[0].ts);
      MapCons(f[0], KeepLast(f[1..]));
      hide Occurs;
      if Occurs(f[1..], f[0].ts) {
        assert map[f[0].ts := f[0].value] + MapOf(f[1..]) == MapOf(f[1..]);
      }
    }
  }

  /** Concatenate, sort, keep last: the store's way of merging rows in. */
  function Merged<V>(stored: seq<Stamped<V>>, rows: seq<Stamped<V>>): seq<Stamped<V>> {
    KeepLast(SortIndex(stored + rows))
  }

  lemma MergedSays<V>(stored: seq<Stamped<V>>, rows: seq<Stamped<V>>)
    ensures Increasing(Merged(stored, rows))
    ensures MapOf(Merged(stored, rows)) == MapOf(stored) + MapOf(rows)
  {
    SortSays(stored + rows);
    KeepLastOrder(SortIndex(stored + rows));
    KeepLastSays(SortIndex(stored + rows));
    MapConcat(stored, rows);
  }

  /** An increasing frame is determined by what it says. */
  lemma {:induction false} FrameUnique<V>(a: seq<Stamped<V>>, b: seq<Stamped<V>>)
    requires Increasing(a) && Increasing(b) && MapOf(a) == MapOf(b)
    ensures a == b
  {
    if a == [] {
      if b != [] { MapAt(b, 0); }
    } else if b == [] {
      MapAt(a, 0);
    } else {
      var x, y := a[|a| - 1], b[|b| - 1];
      LastIsMax(a, b);
      LastIsMax(b, a);
      MapAt(a, |a| - 1);
      MapAt(b, |b| - 1);
      assert x == y;
      DropLast(a);
      DropLast(b);
      FrameUnique(a[..|a| - 1], b[..|b| - 1]);
      assert a == a[..|a| - 1] + [x] && b == b[..|b| - 1] + [y];
    }
  }

  lemma LastIsMax<V>(a: seq<Stamped<V>>, b: seq<Stamped<V>>)
    requires a != [] && Increasing(a) && Increasing(b) && MapOf(a) == MapOf(b)
    ensures b != [] && a[|a| - 1].ts <= b[|b| - 1].ts
  {
    MapAt(a, |a| - 1);
    MapKeys(b, a[|a| - 1].ts);
  }

  lemma DropLast<V>(f: seq<Stamped<V>>)
    requires f != [] && Increasing(f)
    ensures MapOf(f[..|f| - 1]) == MapOf(f) - {f[|f| - 1].ts}
  {
    MapKeys(f[..|f| - 1], f[|f| - 1].ts);
  }

  /** Number of rows and number of timestamps agree in an increasing frame. */
  lemma {:induction false} CountIsSize<V>(f: seq<Stamped<V>>)
    requires Increasing(f)
    ensures |MapOf(f)| == |f|
  {
    if f != [] {
      CountIsSize(f[..|f| - 1]);
      DropLast(f);
      MapAt(f, |f| - 1);
      var m, t := MapOf(f), f[|f| - 1].ts;
      assert m.Keys == (m - {t}).Keys + {t};
      assert |m.Keys| == |(m - {t}).Keys| + 1;
    }
  }

  // ---------------------------------------------------------------- windows

  /** Rows from a cutoff on. */
  function From<V>(f: seq<Stamped<V>>, cutoff: int): seq<Stamped<V>> {
    if f == [] then []
    else
      var init, x := From(f[..|f| - 1], cutoff), f[|f| - 1];
      if x.ts >= cutoff then init + [x] else init
  }

  lemma {:induction false} FromOrder<V>(f: seq<Stamped<V>>, cutoff: int)
    requires Increasing(f)
    ensures Increasing(From(f, cutoff))
    ensures forall k :: 0 <= k < |From(f, cutoff)| ==> From(f, cutoff)[k] in f && From(f, cutoff)[k].ts >= cutoff
  {
    if f != [] {
      FromOrder(f[..|f| - 1], cutoff);
    }
  }

  function Since<V>(m: map<int, V>, cutoff: int): map<int, V> {
    map t | t in m && t >= cutoff :: m[t]
  }

  lemma {:induction false} FromSays<V>(f: seq<Stamped<V>>, cutoff: int)
    requires Increasing(f)
    ensures MapOf(From(f, cutoff)) == Since(MapOf(f), cutoff)
  {
    hide MapOf, Increasing;
    if f == [] {
      EmptySays<V>();
    } else {
      var init, x := f[..|f| - 1], f[|f| - 1];
      assert f == init + [x];
      InitIncreasing(f);
      FromSays(init, cutoff);
      MapSnoc(init, x);
      MapSnoc(From(init, cutoff), x);
    }
  }

  lemma EmptySays<V>()
    ensures MapOf<V>([]) == map[]
  {
  }

  lemma IncreasingSnoc<V>(f: seq<Stamped<V>>, x: Stamped<V>)
    requires Increasing(f) && (f != [] ==> f[|f| - 1].ts < x.ts)
    ensures Increasing(f + [x])
  {
    forall i | 0 <= i < |f| ensures f[i].ts < x.ts {
      assert f[i].ts <= f[|f| - 1].ts;
    }
  }

  /** The last row of an increasing frame is later than, and new to, the rest. */
  lemma LastOfIncreasing<V>(init: seq<Stamped<V>>, x: Stamped<V>)
    requires Increasing(init + [x])
    ensures init != [] ==> init[|init| - 1].ts < x.ts
    ensures x.ts !in MapOf(init)
  {
    assert init != [] ==> (init + [x])[|init| - 1] == init[|init| - 1] && (init + [x])[|init|] == x;
    MapKeys(init, x.ts);
    forall i | 0 <= i < |init| ensures init[i].ts < x.ts {
      assert (init + [x])[i] == init[i] && (init + [x])[|init|] == x;
    }
  }

  lemma InitIncreasing<V>(f: seq<Stamped<V>>)
    requires Increasing(f) && f != []
    ensures Increasing(f[..|f| - 1])
  {
  }
}
