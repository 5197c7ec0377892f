/**
 The engine's own mark-to-market account, used to size orders while a run is
 going on, and its agreement with the account the report rebuilds afterwards.
 */
module Sizing {
  import opened Types
  import opened Sums
  import opened Sorting
  import opened ReportLots
  import opened ReportAccount

  datatype SizingAccount = SizingAccount(cash: real, prices: map<Instrument, real>, positions: map<Instrument, int>)

  /** What the engine feeds the account, in processing order. */
  datatype Event = BarEvent(bar: Bar) | FilledEvent(fill: FillEvent)

  function TimeOf(e: Event): int {
    match e
    case BarEvent(bar) => bar.timestamp
    case FilledEvent(fill) => fill.timestamp
  }

  function SizeBar(s: SizingAccount, bar: Bar): SizingAccount {
    s.(prices := s.prices[bar.instrument := bar.close])
  }

  function SizeFill(s: SizingAccount, fill: FillEvent): SizingAccount {
    var i, signed := fill.instrument, SignedQuantity(fill.side, fill.quantity);
    var cash := s.cash - Value(signed as real, fill.price, i.multiplier);
    if Held(s.positions, i) + signed == 0 then SizingAccount(cash, s.prices, s.positions - {i})
    else SizingAccount(cash, if i in s.prices then s.prices else s.prices[i := fill.price],
                       s.positions[i := Held(s.positions, i) + signed])
  }

  function SizeEvent(s: SizingAccount, e: Event): SizingAccount {
    match e
    case BarEvent(bar) => SizeBar(s, bar)
    case FilledEvent(fill) => SizeFill(s, fill)
  }

  function SizeAll(s: SizingAccount, events: seq<Event>): SizingAccount {
    if events == [] then s
    else SizeEvent(SizeAll(s, events[..|events| - 1]), events[|events| - 1])
  }

  ghost function SizingEquity(s: SizingAccount): real {
    s.cash + Sum(s.positions.Keys, WorthOf(s.positions, s.prices))
  }

  // ---------------------------------------------------------------- bars may go first

  function BarsOf(events: seq<Event>): seq<Bar> {
    if events == [] then []
    else
      var e := events[|events| - 1];
      var earlier := BarsOf(events[..|events| - 1]);
      if e.BarEvent? then earlier + [e.bar] else earlier
  }

  function FillsOf(events: seq<Event>): seq<FillEvent> {
    if events == [] then []
    else
      var e := events[|events| - 1];
      var earlier := FillsOf(events[..|events| - 1]);
      if e.FilledEvent? then earlier + [e.fill] else earlier
  }

  function SizeBars(s: SizingAccount, bars: seq<Bar>): SizingAccount {
    if bars == [] then s else SizeBar(SizeBars(s, bars[..|bars| - 1]), bars[|bars| - 1])
  }

  function SizeFills(s: SizingAccount, fills: seq<FillEvent>): SizingAccount {
    if fills == [] then s else SizeFill(SizeFills(s, fills[..|fills| - 1]), fills[|fills| - 1])
  }

  /** A bar and a fill commute, whether or not they concern the same instrument. */
  lemma BarCommutesWithFill(s: SizingAccount, bar: Bar, fill: FillEvent)
    ensures SizeBar(SizeFill(s, fill), bar) == SizeFill(SizeBar(s, bar), fill)
  {
    hide Value;
  }

  lemma {:induction false} BarPassesFills(s: SizingAccount, bar: Bar, fills: seq<FillEvent>)
    ensures SizeBar(SizeFills(s, fills), bar) == SizeFills(SizeBar(s, bar), fills)
  {
    hide SizeBar, SizeFill;
    if fills != [] {
      BarPassesFills(s, bar, fills[..|fills| - 1]);
      BarCommutesWithFill(SizeFills(s, fills[..|fills| - 1]), bar, fills[|fills| - 1]);
    }
  }

  /** However bars and fills interleave, the account ends where it would with all bars first. */
  lemma {:induction false} BarsFirst(s: SizingAccount, events: seq<Event>)
    ensures SizeAll(s, events) == SizeFills(SizeBars(s, BarsOf(events)), FillsOf(events))
  {
    hide SizeBar, SizeFill;
    if events != [] {
      var init, e := events[..|events| - 1], events[|events| - 1];
      BarsFirst(s, init);
      if e.BarEvent? {
        assert BarsOf(events)[..|BarsOf(events)| - 1] == BarsOf(init);
        assert FillsOf(events) == FillsOf(init);
        BarPassesFills(SizeBars(s, BarsOf(init)), e.bar, FillsOf(init));
      } else {
        assert FillsOf(events)[..|FillsOf(events)| - 1] == FillsOf(init);
        assert BarsOf(events) == BarsOf(init);
      }
    }
  }

  // ---------------------------------------------------------------- against the report, one timestamp

  predicate Agree(s: SizingAccount, run: Running) {
    s.cash == run.cash && s.prices == run.prices && s.positions == run.positions
  }

  lemma {:induction false} BarsAgree(s: SizingAccount, run: Running, bars: seq<Bar>)
    requires Agree(s, run)
    ensures Agree(SizeBars(s, bars), run.(prices := MarkedBars(run.prices, bars)))
  {
    if bars != [] {
      BarsAgree(s, run, bars[..|bars| - 1]);
    }
  }

  lemma FillAgrees(initial: real, s: SizingAccount, a: Account, fill: FillEvent)
    requires Consistent(initial, a) && Agree(s, a.run) && fill.quantity >= 0
    ensures Agree(SizeFill(s, fill), Booked(a, fill).run)
  {
    ValueZero(fill.price, fill.instrument.multiplier);
    hide Value, Total, ApplyFillToLots, WellShaped, QuantityOf;
    var i := fill.instrument;
    assert Signed(fill) == SignedQuantity(fill.side, fill.quantity);
    assert i in a.run.positions ==> a.run.positions[i] != 0 && i in a.run.prices;
    if i !in a.run.positions {
      assert a.run.positions - {i} == a.run.positions;
    } else {
      assert a.run.positions[i := a.run.positions[i]] == a.run.positions;
    }
  }

  lemma {:induction false} FillsAgree(initial: real, s: SizingAccount, a: Account, fills: seq<FillEvent>)
    requires Consistent(initial, a) && Agree(s, a.run)
    requires forall k :: 0 <= k < |fills| ==> fills[k].quantity >= 0
    ensures Agree(SizeFills(s, fills), BookedAll(a, fills).run)
    ensures Consistent(initial, BookedAll(a, fills))
  {
    hide Consistent, Agree, Booked, SizeFill;
    if fills != [] {
      var init, fill := fills[..|fills| - 1], fills[|fills| - 1];
      FillsAgree(initial, s, a, init);
      FillAgrees(initial, SizeFills(s, init), BookedAll(a, init), fill);
      BookedConsistent(initial, BookedAll(a, init), fill);
    }
  }

  lemma MarksKeepConsistent(initial: real, a: Account, bars: seq<Bar>)
    requires Consistent(initial, a)
    ensures Consistent(initial, a.(run := a.run.(prices := MarkedBars(a.run.prices, bars))))
  {
    hide MarkedBars, Total, WellShaped;
    MarkedBarsKeepKeys(a.run.prices, bars);
  }

  /** One timestamp's events, in any interleaving, bring both accounts to the same place. */
  lemma TimestampAgrees(initial: real, s: SizingAccount, a: Account, events: seq<Event>)
    requires Consistent(initial, a) && Agree(s, a.run)
    requires forall k :: 0 <= k < |FillsOf(events)| ==> FillsOf(events)[k].quantity >= 0
    ensures Agree(SizeAll(s, events), AfterTimestamp(a, BarsOf(events), FillsOf(events)).run)
    ensures Consistent(initial, AfterTimestamp(a, BarsOf(events), FillsOf(events)))
  {
    hide Consistent, Agree, SizeAll, SizeBars, SizeFills, BookedAll, MarkedBars, BarsOf, FillsOf;
    BarsFirst(s, events);
    BarsAgree(s, a.run, BarsOf(events));
    MarksKeepConsistent(initial, a, BarsOf(events));
    FillsAgree(initial, SizeBars(s, BarsOf(events)),
               a.(run := a.run.(prices := MarkedBars(a.run.prices, BarsOf(events)))), FillsOf(events));
  }

  // ---------------------------------------------------------------- against the report, whole runs

  ghost predicate InOrder(events: seq<Event>) {
    forall i, j :: 0 <= i < j < |events| ==> TimeOf(events[i]) <= TimeOf(events[j])
  }

  ghost predicate Sized(events: seq<Event>) {
    forall k :: 0 <= k < |events| && events[k].FilledEvent? ==> events[k].fill.quantity >= 0
  }

  ghost predicate Before(past: seq<Event>, future: seq<Event>) {
    forall i, j :: 0 <= i < |past| && 0 <= j < |future| ==> TimeOf(past[i]) < TimeOf(future[j])
  }

  function EventTimes(events: seq<Event>): set<int> {
    if events == [] then {} else EventTimes(events[..|events| - 1]) + {TimeOf(events[|events| - 1])}
  }

  function Times(events: seq<Event>): seq<int> {
    Timestamps(BarsOf(events), FillsOf(events))
  }

  lemma {:induction false} TimesAreEventTimes(events: seq<Event>)
    ensures BarTimes(BarsOf(events)) + FillTimes(FillsOf(events)) == EventTimes(events)
  {
    if events != [] {
      TimesAreEventTimes(events[..|events| - 1]);
      LastProjected(events);
    }
  }

  lemma LastProjected(events: seq<Event>)
    requires events != []
    ensures var init, e := events[..|events| - 1], events[|events| - 1];
            if e.BarEvent? then
              BarsOf(events) != [] && BarsOf(events)[..|BarsOf(events)| - 1] == BarsOf(init) && FillsOf(events) == FillsOf(init)
            else
              FillsOf(events) != [] && FillsOf(events)[..|FillsOf(events)| - 1] == FillsOf(init) && BarsOf(events) == BarsOf(init)
  {
  }

  lemma {:induction false} EventTimesConcat(a: seq<Event>, b: seq<Event>)
    ensures EventTimes(a + b) == EventTimes(a) + EventTimes(b)
  {
    if b == [] {
      assert a + b == a;
    } else {
      EventTimesConcat(a, b[..|b| - 1]);
      assert (a + b)[..|a + b| - 1] == a + b[..|b| - 1];
    }
  }

  lemma {:induction false} EventTimesOne(events: seq<Event>, t: int)
    requires events != [] && forall k :: 0 <= k < |events| ==> TimeOf(events[k]) == t
    ensures EventTimes(events) == {t}
  {
    if |events| > 1 {
      EventTimesOne(events[..|events| - 1], t);
    }
  }

  lemma {:induction false} EventTimesBelow(events: seq<Event>, t: int)
    requires forall k :: 0 <= k < |events| ==> TimeOf(events[k]) < t
    ensures forall x :: x in EventTimes(events) ==> x < t
  {
    if events != [] {
      EventTimesBelow(events[..|events| - 1], t);
    }
  }

  lemma {:induction false} GroupConcat(a: seq<Event>, b: seq<Event>, t: int)
    ensures BarsAt(BarsOf(a + b), t) == BarsAt(BarsOf(a), t) + BarsAt(BarsOf(b), t)
    ensures FillsAt(FillsOf(a + b), t) == FillsAt(FillsOf(a), t) + FillsAt(FillsOf(b), t)
  {
    hide BarsAt, FillsAt, BarsOf, FillsOf;
    if b == [] {
      assert a + b == a;
      EmptyGroups(t);
    } else {
      GroupConcat(a, b[..|b| - 1], t);
      assert (a + b)[..|a + b| - 1] == a + b[..|b| - 1];
      LastOfGroup(a + b, t);
      LastOfGroup(b, t);
    }
  }

  lemma EmptyGroups(t: int)
    ensures BarsAt(BarsOf([]), t) == [] && FillsAt(FillsOf([]), t) == []
  {
  }

  lemma LastOfGroup(events: seq<Event>, t: int)
    requires events != []
    ensures var init, e := events[..|events| - 1], events[|events| - 1];
            && BarsAt(BarsOf(events), t)
               == BarsAt(BarsOf(init), t) + (if e.BarEvent? && e.bar.timestamp == t then [e.bar] else [])
            && FillsAt(FillsOf(events), t)
               == FillsAt(FillsOf(init), t) + (if e.FilledEvent? && e.fill.timestamp == t then [e.fill] else [])
  {
    LastProjected(events);
  }

  lemma {:induction false} GroupOfOneTime(events: seq<Event>, t: int)
    requires forall k :: 0 <= k < |events| ==> TimeOf(events[k]) == t
    ensures BarsAt(BarsOf(events), t) == BarsOf(events)
    ensures FillsAt(FillsOf(events), t) == FillsOf(events)
  {
    if events != [] {
      hide BarsAt, FillsAt;
      GroupOfOneTime(events[..|events| - 1], t);
      LastOfGroup(events, t);
    } else {
      EmptyGroups(t);
    }
  }

  lemma {:induction false} GroupOfOtherTimes(events: seq<Event>, t: int)
    requires forall k :: 0 <= k < |events| ==> TimeOf(events[k]) != t
    ensures BarsAt(BarsOf(events), t) == [] && FillsAt(FillsOf(events), t) == []
  {
    if events != [] {
      hide BarsAt, FillsAt;
      GroupOfOtherTimes(events[..|events| - 1], t);
      LastOfGroup(events, t);
    } else {
      EmptyGroups(t);
    }
  }

  lemma {:induction false} SizeConcat(s: SizingAccount, a: seq<Event>, b: seq<Event>)
    ensures SizeAll(s, a + b) == SizeAll(SizeAll(s, a), b)
  {
    hide SizeEvent;
    if b == [] {
      assert a + b == a;
    } else {
      SizeConcat(s, a, b[..|b| - 1]);
      assert (a + b)[..|a + b| - 1] == a + b[..|b| - 1];
    }
  }

  /** Where the last timestamp of an ordered run begins. */
  function LastGroup(events: seq<Event>): (k: nat)
    requires events != [] && InOrder(events)
    ensures k < |events|
    ensures forall j :: 0 <= j < k ==> TimeOf(events[j]) < TimeOf(events[|events| - 1])
    ensures forall j :: k <= j < |events| ==> TimeOf(events[j]) == TimeOf(events[|events| - 1])
  {
    var n := |events| - 1;
    if n == 0 || TimeOf(events[n - 1]) < TimeOf(events[n]) then n
    else
      var init := events[..n];
      assert init[n - 1] == events[n - 1];
      assert forall j :: 0 <= j < n ==> init[j] == events[j];
      LastGroup(init)
  }

  lemma TimesSorted(events: seq<Event>)
    ensures Times(events) == Sorted(EventTimes(events))
  {
    TimesAreEventTimes(events);
  }

  lemma LaterGroup(earlier: seq<Event>, group: seq<Event>, t: int)
    requires group != []
    requires forall j :: 0 <= j < |earlier| ==> TimeOf(earlier[j]) < t
    requires forall j :: 0 <= j < |group| ==> TimeOf(group[j]) == t
    ensures Times(earlier + group) == Times(earlier) + [t]
  {
    EventTimesConcat(earlier, group);
    EventTimesOne(group, t);
    EventTimesBelow(earlier, t);
    hide Times, EventTimes;
    TimesSorted(earlier);
    TimesSorted(earlier + group);
    SortedSnoc(EventTimes(earlier), t);
  }

  /** The account before anything happened, on both sides. */
  function Start(initial: real): SizingAccount {
    SizingAccount(initial, map[], map[])
  }

  /** The engine after `past` and the report after the last timestamp of `past`, in a run `past + future`. */
  ghost predicate SameAccount(initial: real, past: seq<Event>, future: seq<Event>) {
    var a := AccountAfter(initial, BarsOf(past + future), FillsOf(past + future), Times(past));
    && Agree(SizeAll(Start(initial), past), a.run)
    && SizingEquity(SizeAll(Start(initial), past)) == Equity(a.run)
    && LotBook(a.lots, a.run.closed) == BookLots(LotBook([], []), FillsOf(past))
    && Consistent(initial, a)
  }

  /**
   At the end of every timestamp the engine's account is the report's: `past`
   is everything the engine has processed when a timestamp ends, `future` is
   what comes later, and the report groups the bars and fills of the whole run.
   */
  lemma {:induction false} SizingIsReport(initial: real, past: seq<Event>, future: seq<Event>)
    requires InOrder(past) && Before(past, future) && Sized(past)
    ensures SameAccount(initial, past, future)
    decreases |past|
  {
    if past == [] {
      NothingSized(initial, future);
    } else {
      hide SameAccount, InOrder, Before, Sized;
      var earlier, group, t := SplitLast(past, future);
      SizingIsReport(initial, earlier, group + future);
      FillsOfQuantities(group);
      NextGroup(initial, earlier, group, future, t);
    }
  }

  lemma NothingSized(initial: real, future: seq<Event>)
    ensures SameAccount(initial, [], future)
  {
    OpeningConsistent(initial);
    assert Times([]) == [];
    hide BarsOf, FillsOf, BookedAll, MarkedBars, Consistent;
  }

  lemma SplitLast(past: seq<Event>, future: seq<Event>) returns (earlier: seq<Event>, group: seq<Event>, t: int)
    requires past != [] && InOrder(past) && Before(past, future) && Sized(past)
    ensures past == earlier + group && group != []
    ensures InOrder(earlier) && Before(earlier, group + future) && Sized(earlier) && Sized(group)
    ensures forall j :: 0 <= j < |earlier| ==> TimeOf(earlier[j]) < t
    ensures forall j :: 0 <= j < |group| ==> TimeOf(group[j]) == t
    ensures forall j :: 0 <= j < |future| ==> TimeOf(future[j]) > t
  {
    var k := LastGroup(past);
    t := TimeOf(past[|past| - 1]);
    assert forall j :: 0 <= j < |future| ==> TimeOf(future[j]) > t;
    hide LastGroup, Before, TimeOf;
    earlier, group := past[..k], past[k..];
    BeforeBoth(earlier, group, future, t);
  }

  lemma BeforeBoth(earlier: seq<Event>, group: seq<Event>, future: seq<Event>, t: int)
    requires forall j :: 0 <= j < |earlier| ==> TimeOf(earlier[j]) < t
    requires forall j :: 0 <= j < |group| ==> TimeOf(group[j]) == t
    requires forall j :: 0 <= j < |future| ==> TimeOf(future[j]) > t
    ensures Before(earlier, group + future)
  {
    hide TimeOf;
    forall j | 0 <= j < |group + future| ensures TimeOf((group + future)[j]) >= t {
    }
  }

  /** The report's account after the last group, and the engine's. */
  lemma GroupSteps(initial: real, earlier: seq<Event>, group: seq<Event>, future: seq<Event>, t: int)
    requires group != []
    requires forall j :: 0 <= j < |earlier| ==> TimeOf(earlier[j]) < t
    requires forall j :: 0 <= j < |group| ==> TimeOf(group[j]) == t
    requires forall j :: 0 <= j < |future| ==> TimeOf(future[j]) > t
    ensures var all := earlier + (group + future);
            && earlier + group + future == all
            && AccountAfter(initial, BarsOf(all), FillsOf(all), Times(earlier + group))
               == AfterTimestamp(AccountAfter(initial, BarsOf(all), FillsOf(all), Times(earlier)), BarsOf(group), FillsOf(group))
            && SizeAll(Start(initial), earlier + group) == SizeAll(SizeAll(Start(initial), earlier), group)
            && BookLots(LotBook([], []), FillsOf(earlier + group))
               == BookLots(BookLots(LotBook([], []), FillsOf(earlier)), FillsOf(group))
  {
    hide AccountAfter, SizeAll, Times, BarsOf, FillsOf, BarsAt, FillsAt, AfterTimestamp, BookLots, TimeOf;
    var all := earlier + (group + future);
    assert earlier + group + future == all;
    LaterGroup(earlier, group, t);
    OneGroup(earlier, group, future, t);
    SizeConcat(Start(initial), earlier, group);
    AfterLast(initial, BarsOf(all), FillsOf(all), Times(earlier), t);
    FillsOfConcat(earlier, group);
    BookLotsConcat(LotBook([], []), FillsOf(earlier), FillsOf(group));
  }

  lemma NextGroup(initial: real, earlier: seq<Event>, group: seq<Event>, future: seq<Event>, t: int)
    requires group != [] && SameAccount(initial, earlier, group + future)
    requires forall j :: 0 <= j < |earlier| ==> TimeOf(earlier[j]) < t
    requires forall j :: 0 <= j < |group| ==> TimeOf(group[j]) == t
    requires forall j :: 0 <= j < |future| ==> TimeOf(future[j]) > t
    requires forall k :: 0 <= k < |FillsOf(group)| ==> FillsOf(group)[k].quantity >= 0
    ensures SameAccount(initial, earlier + group, future)
  {
    hide AccountAfter, SizeAll, Times, BarsOf, AfterTimestamp, Consistent, Sum, TimeOf, BookLots;
    var all := earlier + (group + future);
    var before := AccountAfter(initial, BarsOf(all), FillsOf(all), Times(earlier));
    GroupSteps(initial, earlier, group, future, t);
    TimestampAgrees(initial, SizeAll(Start(initial), earlier), before, group);
    LotsAfterTimestamp(before, BarsOf(group), FillsOf(group));
    hide FillsOf;
  }

  lemma LotsAfterTimestamp(a: Account, bars: seq<Bar>, fills: seq<FillEvent>)
    ensures var after := AfterTimestamp(a, bars, fills);
            LotBook(after.lots, after.run.closed) == BookLots(LotBook(a.lots, a.run.closed), fills)
  {
    hide MarkedBars, BookedAll, BookLots;
    BookedLots(a.(run := a.run.(prices := MarkedBars(a.run.prices, bars))), fills);
  }

  lemma {:induction false} FillsOfConcat(a: seq<Event>, b: seq<Event>)
    ensures FillsOf(a + b) == FillsOf(a) + FillsOf(b)
  {
    if b == [] {
      assert a + b == a;
    } else {
      FillsOfConcat(a, b[..|b| - 1]);
      assert (a + b)[..|a + b| - 1] == a + b[..|b| - 1];
    }
  }

  lemma AfterLast(initial: real, bars: seq<Bar>, fills: seq<FillEvent>, times: seq<int>, t: int)
    ensures AccountAfter(initial, bars, fills, times + [t])
         == AfterTimestamp(AccountAfter(initial, bars, fills, times), BarsAt(bars, t), FillsAt(fills, t))
  {
    hide AfterTimestamp, BarsAt, FillsAt;
    assert (times + [t])[..|times|] == times;
  }

  /** The report's group of a timestamp is what the engine processed at that timestamp. */
  lemma OneGroup(earlier: seq<Event>, group: seq<Event>, future: seq<Event>, t: int)
    requires group != []
    requires forall j :: 0 <= j < |earlier| ==> TimeOf(earlier[j]) != t
    requires forall j :: 0 <= j < |group| ==> TimeOf(group[j]) == t
    requires forall j :: 0 <= j < |future| ==> TimeOf(future[j]) != t
    ensures BarsAt(BarsOf(earlier + (group + future)), t) == BarsOf(group)
    ensures FillsAt(FillsOf(earlier + (group + future)), t) == FillsOf(group)
  {
    GroupConcat(earlier, group + future, t);
    GroupConcat(group, future, t);
    GroupOfOtherTimes(earlier, t);
    GroupOfOneTime(group, t);
    GroupOfOtherTimes(future, t);
    hide BarsAt, FillsAt;
  }

  lemma {:induction false} FillsOfQuantities(events: seq<Event>)
    requires Sized(events)
    ensures forall k :: 0 <= k < |FillsOf(events)| ==> FillsOf(events)[k].quantity >= 0
  {
    if events != [] {
      FillsOfQuantities(events[..|events| - 1]);
    }
  }

  // ---------------------------------------------------------------- the mutable account

  class MarkToMarketSizingState {
    var cash: real
    var latestPrices: map<Instrument, real>
    var positions: map<Instrument, int>

    constructor (initialEquity: real)
      ensures State() == Start(initialEquity)
    {
      cash, latestPrices, positions := initialEquity, map[], map[];
    }

    function State(): SizingAccount
      reads this
    {
      SizingAccount(cash, latestPrices, positions)
    }

    method UpdateBar(bar: Bar)
      modifies this`latestPrices
      ensures State() == SizeBar(old(State()), bar)
    {
      latestPrices := latestPrices[bar.instrument := bar.close];
    }

    method ApplyFill(fill: FillEvent)
      modifies this
      ensures State() == SizeFill(old(State()), fill)
    {
      hide Value;
      var i, signed := fill.instrument, SignedQuantity(fill.side, fill.quantity);
      cash := cash - Value(signed as real, fill.price, i.multiplier);
      var total := (if i in positions then positions[i] else 0) + signed;
      if total == 0 {
        positions := positions - {i};
      } else {
        positions := positions[i := total];
        if i !in latestPrices {
          latestPrices := latestPrices[i := fill.price];
        }
      }
    }

    /** Positions without a price are skipped; they would add zero. */
    method Equity() returns (equity: real)
      ensures equity == SizingEquity(State())
    {
      hide Value;
      equity := cash;
      var rest := positions.Keys;
      while rest != {}
        invariant rest <= positions.Keys
        invariant equity == SizingEquity(State()) - Sum(rest, WorthOf(positions, latestPrices))
        decreases |rest|
      {
        var i :| i in rest;
        SumExtract(rest, WorthOf(positions, latestPrices), i);
        if i in latestPrices {
          equity := equity + Value(positions[i] as real, latestPrices[i], i.multiplier);
        } else {
          UnpricedIsWorthless(positions, latestPrices, i);
        }
        rest := rest - {i};
      }
    }
  }

  lemma UnpricedIsWorthless(positions: map<Instrument, int>, prices: map<Instrument, real>, i: Instrument)
    requires i !in prices
    ensures WorthOf(positions, prices)(i) == 0.0
  {
  }
}
