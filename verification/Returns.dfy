/** Daily, monthly and yearly returns of an equity curve. */
module Returns {
  import opened Types
  import opened Sorting
  import opened Frames

  const EPSILON: real := 0.000000001

  type Curve = seq<Stamped<real>>

  predicate NearZero(x: real) { AbsReal(x) <= EPSILON }

  function SafeReturn(value: real, previous: real): real {
    if NearZero(previous) then 0.0 else value / previous - 1.0
  }

  /** The last equity seen under each key. */
  function LastPer(curve: Curve, key: int -> int): map<int, real> {
    if curve == [] then map[]
    else
      var x := curve[|curve| - 1];
      LastPer(curve[..|curve| - 1], key)[key(x.ts) := x.value]
  }

  function InOrder(m: map<int, real>, keys: seq<int>): Curve
    requires forall k :: k in keys ==> k in m
  {
    if keys == [] then []
    else
      var k := keys[|keys| - 1];
      assert k in keys && k in m;
      InOrder(m, keys[..|keys| - 1]) + [Stamped(k, m[k])]
  }

  /** One point per period, in order. */
  function PerPeriod(curve: Curve, key: int -> int): Curve {
    InOrder(LastPer(curve, key), Sorted(LastPer(curve, key).Keys))
  }

  /** Each value against the one before it, the first against the initial equity. */
  function ReturnsOf(curve: Curve, initial: real): Curve {
    if curve == [] then []
    else
      var init, x := curve[..|curve| - 1], curve[|curve| - 1];
      ReturnsOf(init, initial)
      + [Stamped(x.ts, SafeReturn(x.value, if init == [] then initial else init[|init| - 1].value))]
  }

  /** Each return is the value over the one before it, the first over the initial equity; over next to nothing it is nothing. */
  lemma {:induction false} EachReturn(curve: Curve, initial: real, i: nat)
    requires i < |curve|
    ensures var rates := ReturnsOf(curve, initial);
            var previous := if i == 0 then initial else curve[i - 1].value;
            && |rates| == |curve| && rates[i].ts == curve[i].ts
            && (if -0.000000001 <= previous <= 0.000000001 then rates[i].value == 0.0
                else (1.0 + rates[i].value) * previous == curve[i].value)
  {
    var init := curve[..|curve| - 1];
    if i < |init| {
      EachReturn(init, initial, i);
    } else {
      SameLength(init, initial);
    }
  }

  lemma {:induction false} SameLength(curve: Curve, initial: real)
    ensures |ReturnsOf(curve, initial)| == |curve|
  {
    if curve != [] {
      SameLength(curve[..|curve| - 1], initial);
    }
  }

  /** Compounded growth. */
  function Growth(rates: Curve): real {
    if rates == [] then 1.0 else Growth(rates[..|rates| - 1]) * (1.0 + rates[|rates| - 1].value)
  }

  function During(rates: Curve, key: int -> int, period: int): Curve {
    if rates == [] then []
    else
      var init, x := During(rates[..|rates| - 1], key, period), rates[|rates| - 1];
      if key(x.ts) == period then init + [x] else init
  }

  predicate Monotone(key: int -> int, curve: Curve) {
    forall i, j :: 0 <= i <= j < |curve| ==> key(curve[i].ts) <= key(curve[j].ts)
  }

  /** No equity that returns are taken of is zero within the tolerance. */
  predicate AwayFromZero(curve: Curve) {
    forall i :: 0 <= i < |curve| ==> !NearZero(curve[i].value)
  }

  /** Nor any but the last, which nothing is measured against. */
  predicate AwayBefore(curve: Curve) {
    forall i :: 0 <= i < |curve| - 1 ==> !NearZero(curve[i].value)
  }

  // ---------------------------------------------------------------- telescoping

  lemma Ratio(a: real, b: real, c: real)
    requires b != 0.0 && c != 0.0
    ensures b / c * (1.0 + (a / b - 1.0)) == a / c
  {
    assert b / c * (a / b) == a / c;
  }

  lemma GrowthSnoc(rates: Curve, x: Stamped<real>)
    ensures Growth(rates + [x]) == Growth(rates) * (1.0 + x.value)
  {
    assert (rates + [x])[..|rates|] == rates;
  }

  lemma AwayPrefix(curve: Curve)
    requires AwayFromZero(curve) && curve != []
    ensures AwayFromZero(curve[..|curve| - 1]) && !NearZero(curve[|curve| - 1].value)
  {
  }

  lemma AwayInit(curve: Curve)
    requires AwayBefore(curve) && curve != []
    ensures AwayFromZero(curve[..|curve| - 1]) && AwayBefore(curve[..|curve| - 1])
  {
  }

  /** Returns compound to final over initial. */
  lemma {:induction false} Telescopes(curve: Curve, initial: real)
    requires AwayBefore(curve) && !NearZero(initial)
    ensures Growth(ReturnsOf(curve, initial)) == (if curve == [] then initial else curve[|curve| - 1].value) / initial
  {
    hide Growth, AwayFromZero, AwayBefore;
    if curve == [] {
      EmptyGrowth(initial);
    } else {
      var init, x := curve[..|curve| - 1], curve[|curve| - 1];
      AwayInit(curve);
      Telescopes(init, initial);
      var previous := if init == [] then initial else init[|init| - 1].value;
      if init != [] { AwayPrefix(init); }
      GrowthSnoc(ReturnsOf(init, initial), Stamped(x.ts, SafeReturn(x.value, previous)));
      Ratio(x.value, previous, initial);
    }
  }

  /** Equities within the tolerance of zero are zero. */
  predicate ExactZeros(curve: Curve) {
    forall i :: 0 <= i < |curve| && NearZero(curve[i].value) ==> curve[i].value == 0.0
  }

  /** Once an equity is zero, growth is zero for good. */
  lemma {:induction false} ZeroGrowth(curve: Curve, initial: real)
    requires ExactZeros(curve) && !NearZero(initial) && !AwayFromZero(curve)
    ensures Growth(ReturnsOf(curve, initial)) == 0.0
  {
    hide Growth;
    var init, x := curve[..|curve| - 1], curve[|curve| - 1];
    if AwayFromZero(init) {
      Telescopes(curve, initial);
    } else {
      ZeroGrowth(init, initial);
      var previous := if init == [] then initial else init[|init| - 1].value;
      GrowthSnoc(ReturnsOf(init, initial), Stamped(x.ts, SafeReturn(x.value, previous)));
    }
  }

  /** Returns compound to final over initial exactly when no equity before the last is zero, or the last is. */
  lemma CompoundsIff(curve: Curve, initial: real)
    requires ExactZeros(curve) && !NearZero(initial) && curve != []
    ensures Growth(ReturnsOf(curve, initial)) == curve[|curve| - 1].value / initial
            <==> AwayBefore(curve) || curve[|curve| - 1].value == 0.0
  {
    hide Growth, ReturnsOf;
    if AwayBefore(curve) {
      Telescopes(curve, initial);
    } else {
      ZeroGrowth(curve, initial);
      ZeroRatio(curve[|curve| - 1].value, initial);
    }
  }

  lemma ZeroRatio(a: real, b: real)
    requires b != 0.0
    ensures a / b == 0.0 <==> a == 0.0
  {
    assert a / b * b == a;
  }

  lemma EmptyGrowth(initial: real)
    requires initial != 0.0
    ensures Growth([]) == 1.0 && initial / initial == 1.0
  {
  }

  // ---------------------------------------------------------------- one point per period, seen incrementally

  /** Points in order: a new period starts a point, the same period moves it. */
  function Grouped(curve: Curve, key: int -> int): Curve {
    if curve == [] then []
    else
      var earlier, x := Grouped(curve[..|curve| - 1], key), curve[|curve| - 1];
      var point := Stamped(key(x.ts), x.value);
      if earlier != [] && earlier[|earlier| - 1].ts == point.ts then earlier[..|earlier| - 1] + [point] else earlier + [point]
  }

  lemma {:induction false} InOrderSays(m: map<int, real>, keys: seq<int>)
    requires StrictlyIncreasing(keys) && forall k :: k in keys ==> k in m
    ensures var f := InOrder(m, keys);
            && |f| == |keys|
            && (forall i :: 0 <= i < |f| ==> f[i].ts == keys[i])
            && Increasing(f)
            && (forall k :: k in MapOf(f) <==> k in keys)
            && (forall k :: k in keys ==> MapOf(f)[k] == m[k])
  {
    hide MapOf;
    if keys == [] {
      EmptySays<real>();
    } else {
      var init, k := keys[..|keys| - 1], keys[|keys| - 1];
      assert k in keys;
      InOrderSays(m, init);
      MapSnoc(InOrder(m, init), Stamped(k, m[k]));
      assert forall x :: x in keys <==> x in init || x == k;
    }
  }

  lemma MonotonePrefix(curve: Curve, key: int -> int)
    requires Monotone(key, curve) && curve != []
    ensures Monotone(key, curve[..|curve| - 1])
    ensures |curve| > 1 ==> key(curve[|curve| - 2].ts) <= key(curve[|curve| - 1].ts)
  {
  }

  /** Moving or starting the last point, as the next equity does. */
  function Pointed(g: Curve, point: Stamped<real>): Curve {
    if g != [] && g[|g| - 1].ts == point.ts then g[..|g| - 1] + [point] else g + [point]
  }

  lemma PointedOrder(g: Curve, point: Stamped<real>)
    requires Increasing(g) && (g != [] ==> g[|g| - 1].ts <= point.ts)
    ensures Increasing(Pointed(g, point))
  {
    forall i | 0 <= i < |g| ensures g[i].ts <= g[|g| - 1].ts {
    }
  }

  lemma PointedSays(g: Curve, point: Stamped<real>)
    ensures MapOf(Pointed(g, point)) == MapOf(g)[point.ts := point.value]
  {
    hide MapOf;
    if g != [] && g[|g| - 1].ts == point.ts {
      var head, last := g[..|g| - 1], g[|g| - 1];
      assert g == head + [last];
      MapSnoc(head, last);
      MapSnoc(head, point);
    } else {
      MapSnoc(g, point);
    }
  }

  lemma {:induction false} GroupedShape(curve: Curve, key: int -> int)
    requires Monotone(key, curve)
    ensures var g := Grouped(curve, key);
            && Increasing(g)
            && MapOf(g) == LastPer(curve, key)
            && (g == [] <==> curve == [])
            && (curve != [] ==> g[|g| - 1] == Stamped(key(curve[|curve| - 1].ts), curve[|curve| - 1].value))
  {
    if curve == [] {
      EmptySays<real>();
    } else {
      hide MapOf, Monotone, Increasing;
      var init, x := curve[..|curve| - 1], curve[|curve| - 1];
      MonotonePrefix(curve, key);
      GroupedShape(init, key);
      PointedOrder(Grouped(init, key), Stamped(key(x.ts), x.value));
      PointedSays(Grouped(init, key), Stamped(key(x.ts), x.value));
    }
  }

  /** Collecting the last equity per period and sorting is grouping in order. */
  lemma PerPeriodIsGrouped(curve: Curve, key: int -> int)
    requires Monotone(key, curve)
    ensures PerPeriod(curve, key) == Grouped(curve, key)
  {
    hide MapOf, Grouped, LastPer, Increasing, InOrder;
    GroupedShape(curve, key);
    var m := LastPer(curve, key);
    InOrderSays(m, Sorted(m.Keys));
    var keys := Sorted(m.Keys);
    forall k ensures k in MapOf(InOrder(m, keys)) <==> k in m {
      assert k in keys <==> k in m.Keys;
    }
    assert MapOf(PerPeriod(curve, key)) == m;
    FrameUnique(PerPeriod(curve, key), Grouped(curve, key));
  }

  lemma {:induction false} GroupedAway(curve: Curve, key: int -> int)
    requires AwayFromZero(curve)
    ensures AwayFromZero(Grouped(curve, key))
  {
    hide NearZero;
    if curve != [] {
      GroupedAway(curve[..|curve| - 1], key);
    }
  }

  lemma GroupedBefore(curve: Curve, key: int -> int)
    requires AwayBefore(curve)
    ensures AwayBefore(Grouped(curve, key))
  {
    hide NearZero;
    if curve != [] {
      AwayInit(curve);
      GroupedAway(curve[..|curve| - 1], key);
    }
  }

  lemma {:induction false} GroupedZeros(curve: Curve, key: int -> int)
    requires ExactZeros(curve)
    ensures ExactZeros(Grouped(curve, key))
  {
    hide NearZero;
    if curve != [] {
      GroupedZeros(curve[..|curve| - 1], key);
    }
  }

  // ---------------------------------------------------------------- a period compounds its own returns

  /** Growth of the returns that fall in a period. */
  function GrowthIn(rates: Curve, key: int -> int, period: int): real {
    Growth(During(rates, key, period))
  }

  lemma DuringSnoc(rates: Curve, x: Stamped<real>, key: int -> int, period: int)
    ensures GrowthIn(rates + [x], key, period)
         == if key(x.ts) == period then GrowthIn(rates, key, period) * (1.0 + x.value) else GrowthIn(rates, key, period)
  {
    assert (rates + [x])[..|rates|] == rates;
    GrowthSnoc(During(rates, key, period), x);
  }

  lemma ReturnsSnoc(curve: Curve, x: Stamped<real>, initial: real)
    ensures ReturnsOf(curve + [x], initial)
         == ReturnsOf(curve, initial)
            + [Stamped(x.ts, SafeReturn(x.value, if curve == [] then initial else curve[|curve| - 1].value))]
  {
    assert (curve + [x])[..|curve|] == curve;
  }

  lemma {:induction false} ReturnsShape(curve: Curve, initial: real)
    ensures |ReturnsOf(curve, initial)| == |curve|
    ensures forall i :: 0 <= i < |curve| ==> ReturnsOf(curve, initial)[i].ts == curve[i].ts
  {
    hide SafeReturn;
    if curve != [] {
      ReturnsShape(curve[..|curve| - 1], initial);
    }
  }

  function Same(ts: int): int { ts }

  /** The coarse factor of one period and its finer factors, compounded. */
  lemma {:induction false} PeriodCompounds(curve: Curve, key: int -> int, initial: real, period: int)
    requires Monotone(key, curve) && AwayBefore(curve) && !NearZero(initial)
    ensures GrowthIn(ReturnsOf(Grouped(curve, key), initial), Same, period)
         == GrowthIn(ReturnsOf(curve, initial), key, period)
  {
    hide Growth, GrowthIn, SafeReturn, AwayFromZero, AwayBefore, Monotone, MapOf;
    if curve == [] {
      NothingIn(key, period);
      NothingIn(Same, period);
    } else {
      var init, x := curve[..|curve| - 1], curve[|curve| - 1];
      assert curve == init + [x];
      MonotonePrefix(curve, key);
      AwayInit(curve);
      PeriodCompounds(init, key, initial, period);
      GroupedShape(init, key);
      var g := Grouped(init, key);
      if g != [] && g[|g| - 1].ts == key(x.ts) {
        SamePeriod(init, x, key, initial, period);
      } else {
        NewPeriod(init, x, key, initial, period);
      }
    }
  }

  lemma NothingIn(key: int -> int, period: int)
    ensures GrowthIn([], key, period) == 1.0
  {
  }

  lemma NewPeriod(init: Curve, x: Stamped<real>, key: int -> int, initial: real, period: int)
    requires Monotone(key, init)
    requires GrowthIn(ReturnsOf(Grouped(init, key), initial), Same, period) == GrowthIn(ReturnsOf(init, initial), key, period)
    ensures GrowthIn(ReturnsOf(Grouped(init, key) + [Stamped(key(x.ts), x.value)], initial), Same, period)
         == GrowthIn(ReturnsOf(init + [x], initial), key, period)
  {
    hide Growth, GrowthIn, SafeReturn, MapOf, Increasing, Monotone, Grouped;
    GroupedShape(init, key);
    var g, point := Grouped(init, key), Stamped(key(x.ts), x.value);
    var rate := SafeReturn(x.value, if init == [] then initial else init[|init| - 1].value);
    ReturnsSnoc(init, x, initial);
    ReturnsSnoc(g, point, initial);
    DuringSnoc(ReturnsOf(init, initial), Stamped(x.ts, rate), key, period);
    DuringSnoc(ReturnsOf(g, initial), Stamped(key(x.ts), rate), Same, period);
  }

  lemma SamePeriod(init: Curve, x: Stamped<real>, key: int -> int, initial: real, period: int)
    requires Monotone(key, init) && AwayFromZero(init) && !NearZero(initial)
    requires var g := Grouped(init, key); g != [] && g[|g| - 1].ts == key(x.ts)
    requires GrowthIn(ReturnsOf(Grouped(init, key), initial), Same, period) == GrowthIn(ReturnsOf(init, initial), key, period)
    ensures var g := Grouped(init, key);
            GrowthIn(ReturnsOf(g[..|g| - 1] + [Stamped(key(x.ts), x.value)], initial), Same, period)
            == GrowthIn(ReturnsOf(init + [x], initial), key, period)
  {
    hide Growth, GrowthIn, MapOf, Increasing, Monotone, Grouped, ReturnsOf;
    GroupedShape(init, key);
    GroupedAway(init, key);
    var g := Grouped(init, key);
    var head, last := g[..|g| - 1], g[|g| - 1];
    assert g == head + [last];
    AwayPrefix(init);
    AwayPrefix(g);
    if head != [] { AwayPrefix(head); }
    var before := if head == [] then initial else head[|head| - 1].value;
    var was, now, rate := SafeReturn(last.value, before), SafeReturn(x.value, before), SafeReturn(x.value, last.value);
    ReturnsSnoc(head, last, initial);
    ReturnsSnoc(head, Stamped(key(x.ts), x.value), initial);
    ReturnsSnoc(init, x, initial);
    hide AwayFromZero;
    Chained(x.value, last.value, before);
    hide SafeReturn, NearZero;
    DuringSnoc(ReturnsOf(init, initial), Stamped(x.ts, rate), key, period);
    DuringSnoc(ReturnsOf(head, initial), Stamped(last.ts, was), Same, period);
    DuringSnoc(ReturnsOf(head, initial), Stamped(key(x.ts), now), Same, period);
    Associate(GrowthIn(ReturnsOf(head, initial), Same, period), 1.0 + was, 1.0 + rate);
  }

  lemma Chained(value: real, middle: real, before: real)
    requires !NearZero(middle) && !NearZero(before)
    ensures (1.0 + SafeReturn(middle, before)) * (1.0 + SafeReturn(value, middle)) == 1.0 + SafeReturn(value, before)
  {
    Ratio(value, middle, before);
  }

  lemma Associate(a: real, b: real, c: real)
    ensures a * b * c == a * (b * c)
  {
  }

  /** In an increasing list of rates a period's growth is the one rate it has. */
  lemma {:induction false} SingleRate(rates: Curve, k: nat)
    requires Increasing(rates) && k < |rates|
    ensures GrowthIn(rates, Same, rates[k].ts) == 1.0 + rates[k].value
  {
    hide Growth, GrowthIn;
    var init, x := rates[..|rates| - 1], rates[|rates| - 1];
    assert rates == init + [x];
    DuringSnoc(init, x, Same, rates[k].ts);
    if k < |init| {
      SingleRate(init, k);
    } else {
      NoRate(init, x.ts);
    }
  }

  lemma {:induction false} NoRate(rates: Curve, period: int)
    requires forall i :: 0 <= i < |rates| ==> rates[i].ts != period
    ensures GrowthIn(rates, Same, period) == 1.0
  {
    hide Growth;
    if rates == [] {
      EmptyGrowth(1.0);
    } else {
      var init, x := rates[..|rates| - 1], rates[|rates| - 1];
      assert rates == init + [x];
      NoRate(init, period);
      DuringSnoc(init, x, Same, period);
    }
  }

  // ---------------------------------------------------------------- the report's three tables

  datatype Periods = Periods(daily: Curve, monthly: Curve, yearly: Curve)

  /** How the session calendar maps timestamps to days, and days to months and years. */
  datatype Calendar = Calendar(day: int -> int, month: int -> int, year: int -> int)

  function PeriodReturns(points: Curve, initial: real, c: Calendar): Periods {
    var days := PerPeriod(points, c.day);
    Periods(
      ReturnsOf(days, initial),
      ReturnsOf(PerPeriod(days, c.month), initial),
      ReturnsOf(PerPeriod(days, c.year), initial))
  }

  /** Time-ordered points and a calendar that keeps their order. */
  predicate Orderly(points: Curve, c: Calendar) {
    && Monotone(c.day, points)
    && Monotone(c.month, PerPeriod(points, c.day))
    && Monotone(c.year, PerPeriod(points, c.day))
  }

  lemma LastOfPeriods(curve: Curve, key: int -> int)
    requires Monotone(key, curve) && curve != []
    ensures var g := PerPeriod(curve, key);
            g != [] && g[|g| - 1].value == curve[|curve| - 1].value
  {
    PerPeriodIsGrouped(curve, key);
    GroupedShape(curve, key);
  }

  /**
   Daily, monthly and yearly returns all compound to final over initial, and
   every month's and year's factor is the compounded factor of its own days.
   */
  lemma ReturnsCompound(points: Curve, initial: real, c: Calendar, period: int)
    requires Orderly(points, c) && points != []
    requires AwayBefore(PerPeriod(points, c.day)) && !NearZero(initial)
    ensures var r := PeriodReturns(points, initial, c);
            var total := points[|points| - 1].value / initial;
            && Growth(r.daily) == total
            && Growth(r.monthly) == total
            && Growth(r.yearly) == total
            && GrowthIn(r.monthly, Same, period) == GrowthIn(r.daily, c.month, period)
            && GrowthIn(r.yearly, Same, period) == GrowthIn(r.daily, c.year, period)
  {
    hide Growth, GrowthIn, AwayBefore, Monotone, PerPeriod, NearZero, ReturnsOf;
    var days := PerPeriod(points, c.day);
    LastOfPeriods(points, c.day);
    LastOfPeriods(days, c.month);
    LastOfPeriods(days, c.year);
    PerPeriodIsGrouped(days, c.month);
    PerPeriodIsGrouped(days, c.year);
    GroupedBefore(days, c.month);
    GroupedBefore(days, c.year);
    Telescopes(days, initial);
    Telescopes(PerPeriod(days, c.month), initial);
    Telescopes(PerPeriod(days, c.year), initial);
    PeriodCompounds(days, c.month, initial, period);
    PeriodCompounds(days, c.year, initial, period);
  }

  /** Each table compounds exactly when no equity it is measured against is zero, or the final one is. */
  lemma TablesCompoundIff(points: Curve, initial: real, c: Calendar)
    requires Orderly(points, c) && points != []
    requires ExactZeros(PerPeriod(points, c.day)) && !NearZero(initial)
    ensures var r, days := PeriodReturns(points, initial, c), PerPeriod(points, c.day);
            var last := points[|points| - 1].value;
            && (Growth(r.daily) == last / initial <==> AwayBefore(days) || last == 0.0)
            && (Growth(r.monthly) == last / initial <==> AwayBefore(PerPeriod(days, c.month)) || last == 0.0)
            && (Growth(r.yearly) == last / initial <==> AwayBefore(PerPeriod(days, c.year)) || last == 0.0)
  {
    hide Growth, AwayBefore, ExactZeros, Monotone, PerPeriod, NearZero, ReturnsOf;
    var days := PerPeriod(points, c.day);
    LastOfPeriods(points, c.day);
    LastOfPeriods(days, c.month);
    LastOfPeriods(days, c.year);
    PerPeriodIsGrouped(days, c.month);
    PerPeriodIsGrouped(days, c.year);
    GroupedZeros(days, c.month);
    GroupedZeros(days, c.year);
    CompoundsIff(days, initial);
    CompoundsIff(PerPeriod(days, c.month), initial);
    CompoundsIff(PerPeriod(days, c.year), initial);
  }

  /** Each listed month's factor is one plus its return. */
  lemma ListedRate(points: Curve, initial: real, c: Calendar, k: nat)
    requires Orderly(points, c)
    requires k < |PeriodReturns(points, initial, c).monthly|
    ensures var monthly := PeriodReturns(points, initial, c).monthly;
            GrowthIn(monthly, Same, monthly[k].ts) == 1.0 + monthly[k].value
  {
    hide Growth, GrowthIn, Monotone, PerPeriod, ReturnsOf;
    var months := PerPeriod(PerPeriod(points, c.day), c.month);
    PerPeriodIsGrouped(PerPeriod(points, c.day), c.month);
    GroupedShape(PerPeriod(points, c.day), c.month);
    ReturnsShape(months, initial);
    SingleRate(ReturnsOf(months, initial), k);
  }

  /** A day that ends at zero breaks the compounding: the next return counts as none. */
  lemma ZeroBreaksCompounding()
    ensures var curve := [Stamped(1, 0.0), Stamped(2, 5.0)];
            Growth(ReturnsOf(curve, 10.0)) == 0.0 && curve[1].value / 10.0 == 0.5
  {
    var curve := [Stamped(1, 0.0), Stamped(2, 5.0)];
    assert curve[..1] == [Stamped(1, 0.0)] && [Stamped(1, 0.0)][..0] == [];
    assert ReturnsOf([Stamped(1, 0.0)], 10.0) == [] + [Stamped(1, -1.0)];
    GrowthSnoc([], Stamped(1, -1.0));
    GrowthSnoc(ReturnsOf([Stamped(1, 0.0)], 10.0), Stamped(2, 0.0));
    ReturnsSnoc([Stamped(1, 0.0)], Stamped(2, 5.0), 10.0);
    assert [Stamped(1, 0.0)] + [Stamped(2, 5.0)] == curve;
  }

  // ---------------------------------------------------------------- as it is computed

  function Latest(curve: Curve, initial: real): real {
    if curve == [] then initial else curve[|curve| - 1].value
  }

  lemma InOrderSnoc(m: map<int, real>, keys: seq<int>, k: int)
    requires (forall x :: x in keys ==> x in m) && k in m
    ensures InOrder(m, keys + [k]) == InOrder(m, keys) + [Stamped(k, m[k])]
  {
    assert (keys + [k])[..|keys|] == keys;
  }

  lemma OneMoreKey(m: map<int, real>, keys: seq<int>, n: nat)
    requires (forall x :: x in keys ==> x in m) && n < |keys|
    ensures InOrder(m, keys[..n + 1]) == InOrder(m, keys[..n]) + [Stamped(keys[n], m[keys[n]])]
  {
    hide InOrder;
    assert keys[..n + 1] == keys[..n] + [keys[n]];
    InOrderSnoc(m, keys[..n], keys[n]);
  }

  lemma OneMoreRate(m: map<int, real>, keys: seq<int>, n: nat, initial: real)
    requires (forall x :: x in keys ==> x in m) && n < |keys|
    ensures var earlier, more := InOrder(m, keys[..n]), InOrder(m, keys[..n + 1]);
            && ReturnsOf(more, initial)
               == ReturnsOf(earlier, initial) + [Stamped(keys[n], SafeReturn(m[keys[n]], Latest(earlier, initial)))]
            && Latest(more, initial) == m[keys[n]]
  {
    hide SafeReturn, InOrder, ReturnsOf;
    OneMoreKey(m, keys, n);
    ReturnsSnoc(InOrder(m, keys[..n]), Stamped(keys[n], m[keys[n]]), initial);
  }

  /** Returns over a dictionary of equities, in key order, carrying the previous equity along. */
  method RatesInOrder(m: map<int, real>, initial: real) returns (rates: Curve)
    ensures rates == ReturnsOf(InOrder(m, Sorted(m.Keys)), initial)
  {
    hide SafeReturn, InOrder, Sorted;
    var keys := Sorted(m.Keys);
    rates := [];
    var previous := initial;
    assert InOrder(m, keys[..0]) == [] by { NoKeys(m, keys[..0]); }
    for n := 0 to |keys|
      invariant rates == ReturnsOf(InOrder(m, keys[..n]), initial)
      invariant previous == Latest(InOrder(m, keys[..n]), initial)
    {
      hide ReturnsOf, Latest;
      OneMoreRate(m, keys, n, initial);
      var k := keys[n];
      rates := rates + [Stamped(k, SafeReturn(m[k], previous))];
      previous := m[k];
    }
    assert keys[..|keys|] == keys;
  }

  lemma NoKeys(m: map<int, real>, keys: seq<int>)
    requires keys == []
    ensures InOrder(m, keys) == []
  {
  }

  lemma LastPerSnoc(curve: Curve, x: Stamped<real>, key: int -> int)
    ensures LastPer(curve + [x], key) == LastPer(curve, key)[key(x.ts) := x.value]
  {
    assert (curve + [x])[..|curve|] == curve;
  }

  /** The last day's equity of every month and year. */
  method GroupDays(m: map<int, real>, c: Calendar) returns (months: map<int, real>, years: map<int, real>)
    ensures months == LastPer(InOrder(m, Sorted(m.Keys)), c.month)
    ensures years == LastPer(InOrder(m, Sorted(m.Keys)), c.year)
  {
    hide InOrder;
    var keys := Sorted(m.Keys);
    months, years := map[], map[];
    assert InOrder(m, keys[..0]) == [] by { NoKeys(m, keys[..0]); }
    for n := 0 to |keys|
      invariant months == LastPer(InOrder(m, keys[..n]), c.month)
      invariant years == LastPer(InOrder(m, keys[..n]), c.year)
    {
      hide LastPer;
      OneMoreKey(m, keys, n);
      LastPerSnoc(InOrder(m, keys[..n]), Stamped(keys[n], m[keys[n]]), c.month);
      LastPerSnoc(InOrder(m, keys[..n]), Stamped(keys[n], m[keys[n]]), c.year);
      months, years := months[c.month(keys[n]) := m[keys[n]]], years[c.year(keys[n]) := m[keys[n]]];
    }
    assert keys[..|keys|] == keys;
  }

  method ReportReturns(points: Curve, initial: real, c: Calendar) returns (r: Periods)
    ensures r == PeriodReturns(points, initial, c)
  {
    hide ReturnsOf, InOrder;
    var dayEquity: map<int, real> := map[];
    for n := 0 to |points|
      invariant dayEquity == LastPer(points[..n], c.day)
    {
      hide LastPer;
      assert points[..n + 1] == points[..n] + [points[n]];
      LastPerSnoc(points[..n], points[n], c.day);
      dayEquity := dayEquity[c.day(points[n].ts) := points[n].value];
    }
    assert points[..|points|] == points;
    hide LastPer;
    var monthEquity, yearEquity := GroupDays(dayEquity, c);
    var daily := RatesInOrder(dayEquity, initial);
    var monthly := RatesInOrder(monthEquity, initial);
    var yearly := RatesInOrder(yearEquity, initial);
    r := Periods(daily, monthly, yearly);
  }
}
