/** Position books at average cost: broker-wide, per strategy, and per strategy lot. */
module Portfolio {
  import opened Types
  import opened Sums

  // ---------------------------------------------------------------- average cost, one position

  predicate IsFlat(p: Option<Position>) {
    p.None? || p.value.quantity == 0
  }

  function ApplySignedQty(existing: Option<Position>, instrument: Instrument, quantity: int, price: real,
                          tradeId: Option<TradeId>): Position
  {
    if IsFlat(existing) then Position(instrument, quantity, price, tradeId)
    else
      var oldQty, oldCost := existing.value.quantity, existing.value.avgCost;
      var newQty := oldQty + quantity;
      if newQty == 0 then Position(instrument, 0, 0.0, tradeId)
      else if (oldQty > 0) == (quantity > 0) then
        Position(instrument, newQty, AverageCost(oldQty, oldCost, quantity, price), tradeId)
      else
        Position(instrument, newQty, if (newQty > 0) == (oldQty > 0) then oldCost else price, tradeId)
  }

  function AverageCost(oldQty: int, oldCost: real, quantity: int, price: real): real
    requires oldQty + quantity != 0
  {
    AveragePrice(oldCost, oldQty as real, price, quantity as real)
  }

  function QuantityHeld(p: Option<Position>): int {
    if p.None? then 0 else p.value.quantity
  }

  /** Signed quantity at average cost: the money still tied up in a position. */
  function Basis(p: Option<Position>): real {
    if p.None? then 0.0 else Value(p.value.quantity as real, p.value.avgCost, 1.0)
  }

  /** The shares of an existing position that a fill closes, with the position's sign. */
  function ClosedBy(p: Option<Position>, quantity: int): int {
    var held := QuantityHeld(p);
    if held == 0 || quantity == 0 || (held > 0) == (quantity > 0) then 0
    else if Abs(quantity) >= Abs(held) then held
    else -quantity
  }

  /** Realised P&L of one fill at average cost, before the multiplier. */
  function RealisedBy(p: Option<Position>, quantity: int, price: real): real {
    if p.None? then 0.0 else Profit(ClosedBy(p, quantity) as real, p.value.avgCost, price, 1.0)
  }

  /** A fill's cash either realises P&L or changes what is tied up. */
  lemma AverageCostConserves(p: Option<Position>, instrument: Instrument, quantity: int, price: real, tradeId: Option<TradeId>)
    ensures var after := ApplySignedQty(p, instrument, quantity, price, tradeId);
            && after.quantity == QuantityHeld(p) + quantity
            && RealisedBy(p, quantity, price) - (Basis(Some(after)) - Basis(p)) == -Value(quantity as real, price, 1.0)
  {
    var after := ApplySignedQty(p, instrument, quantity, price, tradeId);
    if IsFlat(p) {
      FlatConserves(p, price);
    } else {
      var held, cost := p.value.quantity, p.value.avgCost;
      var c := ClosedBy(p, quantity);
      ProfitSplit(c as real, cost, price, 1.0);
      ValueZero(price, 1.0);
      ValueZero(cost, 1.0);
      ValueZero(0.0, 1.0);
      if held + quantity != 0 && (held > 0) == (quantity > 0) {
        WeightedAverage(cost, held as real, price, quantity as real, 1.0);
        hide Value, Profit, AveragePrice;
      } else {
        ValueAdd((held + quantity) as real, c as real, cost, 1.0);
        ValueAdd((held + quantity) as real, c as real, price, 1.0);
        ValueAdd(quantity as real, c as real, price, 1.0);
        hide Value, Profit, AveragePrice;
      }
    }
  }

  lemma FlatConserves(p: Option<Position>, price: real)
    requires IsFlat(p)
    ensures Basis(p) == 0.0
    ensures forall quantity :: RealisedBy(p, quantity, price) == 0.0
  {
    if p.Some? {
      ValueZero(p.value.avgCost, 1.0);
      ProfitSplit(0.0, p.value.avgCost, price, 1.0);
      ValueZero(price, 1.0);
    }
    hide Value, Profit;
  }

  // ---------------------------------------------------------------- the three books, on values

  type GroupKey = (StrategyId, Instrument)
  type LotKey = (StrategyId, Instrument, TradeId)

  datatype Books = Books(
    positions: map<Instrument, Position>,
    strategyPositions: map<GroupKey, Position>,
    strategyLots: map<LotKey, Position>)

  /** A fill with the owner and trade id its order was registered under. */
  datatype OwnedFill = OwnedFill(fill: Fill, strategyId: Option<StrategyId>, tradeId: Option<TradeId>)

  function Find<K, V>(m: map<K, V>, k: K): Option<V> {
    if k in m then Some(m[k]) else None
  }

  function SignedOf(fill: Fill): int {
    SignedQuantity(fill.side, fill.quantity)
  }

  function Moved<K>(m: map<K, Position>, k: K, fill: Fill, tradeId: Option<TradeId>): map<K, Position> {
    m[k := ApplySignedQty(Find(m, k), fill.instrument, SignedOf(fill), fill.price, tradeId)]
  }

  function AfterFill(b: Books, f: OwnedFill): Books {
    var i := f.fill.instrument;
    Books(
      Moved(b.positions, i, f.fill, None),
      if f.strategyId.None? then b.strategyPositions
      else Moved(b.strategyPositions, (f.strategyId.value, i), f.fill, None),
      if f.strategyId.None? || f.tradeId.None? then b.strategyLots
      else Moved(b.strategyLots, (f.strategyId.value, i, f.tradeId.value), f.fill, f.tradeId))
  }

  const EmptyBooks := Books(map[], map[], map[])

  function AfterFills(fills: seq<OwnedFill>): Books {
    if fills == [] then EmptyBooks
    else AfterFill(AfterFills(fills[..|fills| - 1]), fills[|fills| - 1])
  }

  // ---------------------------------------------------------------- quantities over whole runs

  /** Which fills a book entry answers for. */
  datatype Slice =
    | Broker(i: Instrument)
    | Strategy(s: StrategyId, i: Instrument)
    | Tagged(s: StrategyId, i: Instrument, t: TradeId)
    | Untagged(s: StrategyId, i: Instrument)

  predicate Belongs(f: OwnedFill, slice: Slice) {
    match slice
    case Broker(i) => f.fill.instrument == i
    case Strategy(s, i) => f.fill.instrument == i && f.strategyId == Some(s)
    case Tagged(s, i, t) => f.fill.instrument == i && f.strategyId == Some(s) && f.tradeId == Some(t)
    case Untagged(s, i) => f.fill.instrument == i && f.strategyId == Some(s) && f.tradeId == None
  }

  function NetOf(fills: seq<OwnedFill>, slice: Slice): int {
    if fills == [] then 0
    else
      var f := fills[|fills| - 1];
      NetOf(fills[..|fills| - 1], slice) + (if Belongs(f, slice) then SignedOf(f.fill) else 0)
  }

  function Entry(b: Books, slice: Slice): Option<Position>
    requires !slice.Untagged?
  {
    match slice
    case Broker(i) => Find(b.positions, i)
    case Strategy(s, i) => Find(b.strategyPositions, (s, i))
    case Tagged(s, i, t) => Find(b.strategyLots, (s, i, t))
  }

  /** A fill reaches exactly the entries it belongs to. */
  lemma AfterFillEntry(b: Books, f: OwnedFill, slice: Slice)
    requires !slice.Untagged?
    ensures var tradeId := if slice.Tagged? then f.tradeId else None;
            Entry(AfterFill(b, f), slice) ==
              if Belongs(f, slice)
              then Some(ApplySignedQty(Entry(b, slice), f.fill.instrument, SignedOf(f.fill), f.fill.price, tradeId))
              else Entry(b, slice)
  {
    hide ApplySignedQty, SignedOf;
  }

  /** Every entry of every book holds the net of the fills that belong to it. */
  lemma {:induction false} EntriesAreNets(fills: seq<OwnedFill>, slice: Slice)
    requires !slice.Untagged?
    ensures QuantityHeld(Entry(AfterFills(fills), slice)) == NetOf(fills, slice)
  {
    hide AfterFill, ApplySignedQty, Entry, RealisedBy, Basis, Belongs;
    if fills == [] {
      NothingYet(slice);
    } else {
      var b, f := AfterFills(fills[..|fills| - 1]), fills[|fills| - 1];
      EntriesAreNets(fills[..|fills| - 1], slice);
      AfterFillEntry(b, f, slice);
      AverageCostConserves(Entry(b, slice), f.fill.instrument, SignedOf(f.fill), f.fill.price,
                           if slice.Tagged? then f.tradeId else None);
    }
  }

  lemma NothingYet(slice: Slice)
    requires !slice.Untagged?
    ensures Entry(EmptyBooks, slice) == None
  {
  }

  // ---------------------------------------------------------------- what an entry says of its fills

  /** A weighted average lies between what is averaged. */
  lemma AverageBetween(p: real, a: real, q: real, b: real, lo: real, hi: real)
    requires (a > 0.0 && b > 0.0) || (a < 0.0 && b < 0.0)
    requires lo <= p <= hi && lo <= q <= hi
    ensures lo <= AveragePrice(p, a, q, b) <= hi
  {
    WeightedAverage(p, a, q, b, 1.0);
    var average := AveragePrice(p, a, q, b);
    hide AveragePrice;
    assert a * (average - p) + b * (average - q) == 0.0;
    if average < lo {
      SameSigns(a, b, average - p, average - q);
    } else if average > hi {
      SameSigns(a, b, p - average, q - average);
    }
  }

  lemma SameSigns(a: real, b: real, x: real, y: real)
    requires (a > 0.0 && b > 0.0) || (a < 0.0 && b < 0.0)
    requires x < 0.0 && y < 0.0
    ensures a * x + b * y != 0.0
  {
  }

  /** What a book entry tells of the fills that belong to it, when their prices lie between two. */
  predicate Tells(p: Option<Position>, i: Instrument, tradeId: Option<TradeId>, lo: real, hi: real) {
    p.Some? ==>
      && p.value.instrument == i
      && p.value.tradeId == tradeId
      && (if p.value.quantity == 0 then p.value.avgCost == 0.0 else lo <= p.value.avgCost <= hi)
  }

  lemma OneTells(p: Option<Position>, i: Instrument, quantity: int, price: real, tradeId: Option<TradeId>, lo: real, hi: real)
    requires Tells(p, i, tradeId, lo, hi) && lo <= price <= hi && quantity != 0
    ensures Tells(Some(ApplySignedQty(p, i, quantity, price, tradeId)), i, tradeId, lo, hi)
  {
    hide AveragePrice;
    if !IsFlat(p) && (p.value.quantity > 0) == (quantity > 0) {
      AverageBetween(p.value.avgCost, p.value.quantity as real, price, quantity as real, lo, hi);
    }
  }

  function InstrumentOf(slice: Slice): Instrument { slice.i }

  function TagOf(slice: Slice): Option<TradeId> { if slice.Tagged? then Some(slice.t) else None }

  /**
   Over any run of fills, an entry names its instrument and its trade id; an
   open one costs no less than the cheapest and no more than the dearest of
   its fills, and a flat one costs nothing.
   */
  lemma {:induction false} EntriesTell(fills: seq<OwnedFill>, slice: Slice, lo: real, hi: real)
    requires !slice.Untagged?
    requires forall f :: f in fills && Belongs(f, slice) ==> f.fill.quantity != 0 && lo <= f.fill.price <= hi
    ensures Tells(Entry(AfterFills(fills), slice), InstrumentOf(slice), TagOf(slice), lo, hi)
    ensures Entry(AfterFills(fills), slice).Some? <==> exists f :: f in fills && Belongs(f, slice)
  {
    hide AfterFill, ApplySignedQty, Entry, Tells;
    if fills == [] {
      NothingYet(slice);
      assert Tells(None, InstrumentOf(slice), TagOf(slice), lo, hi) by { NoneTells(InstrumentOf(slice), TagOf(slice), lo, hi); }
    } else {
      var init, f := fills[..|fills| - 1], fills[|fills| - 1];
      EntriesTell(init, slice, lo, hi);
      AfterFillEntry(AfterFills(init), f, slice);
      assert f in fills;
      assert forall x :: x in fills <==> x in init || x == f;
      if Belongs(f, slice) {
        OneTells(Entry(AfterFills(init), slice), f.fill.instrument, SignedOf(f.fill), f.fill.price, TagOf(slice), lo, hi);
      }
    }
  }

  lemma NoneTells(i: Instrument, tradeId: Option<TradeId>, lo: real, hi: real)
    ensures Tells(None, i, tradeId, lo, hi)
  {
  }

  function NetOfTag(fills: seq<OwnedFill>, s: StrategyId, i: Instrument): TradeId -> real {
    t => NetOf(fills, Tagged(s, i, t)) as real
  }

  /** A strategy's position is what its tagged lots hold plus what it traded without a tag. */
  lemma {:induction false} LotsAndUntagged(fills: seq<OwnedFill>, s: StrategyId, i: Instrument, tags: set<TradeId>)
    requires forall f :: f in fills && f.strategyId == Some(s) && f.tradeId.Some? ==> f.tradeId.value in tags
    ensures NetOf(fills, Strategy(s, i)) as real
         == Sum(tags, NetOfTag(fills, s, i)) + NetOf(fills, Untagged(s, i)) as real
  {
    if fills == [] {
      SumWiden({}, tags, NetOfTag(fills, s, i));
    } else {
      var init, f := fills[..|fills| - 1], fills[|fills| - 1];
      LotsAndUntagged(init, s, i, tags);
      assert f in fills;
      hide Sum;
      if Belongs(f, Strategy(s, i)) && f.tradeId.Some? {
        SumPoint(tags, NetOfTag(fills, s, i), NetOfTag(init, s, i), f.tradeId.value);
      } else {
        SumSame(tags, NetOfTag(fills, s, i), NetOfTag(init, s, i));
      }
    }
  }

  function NetOfStrategy(fills: seq<OwnedFill>, i: Instrument): StrategyId -> real {
    s => NetOf(fills, Strategy(s, i)) as real
  }

  /** When every fill has an owner, the strategies' positions add up to the broker-wide one. */
  lemma {:induction false} StrategiesMakeBroker(fills: seq<OwnedFill>, i: Instrument, owners: set<StrategyId>)
    requires forall f :: f in fills ==> f.strategyId.Some? && f.strategyId.value in owners
    ensures NetOf(fills, Broker(i)) as real == Sum(owners, NetOfStrategy(fills, i))
  {
    if fills == [] {
      SumWiden({}, owners, NetOfStrategy(fills, i));
    } else {
      var init, f := fills[..|fills| - 1], fills[|fills| - 1];
      assert f in fills;
      StrategiesMakeBroker(init, i, owners);
      hide Sum;
      SumPoint(owners, NetOfStrategy(fills, i), NetOfStrategy(init, i), f.strategyId.value);
    }
  }

  // ---------------------------------------------------------------- what a strategy is shown

  /** Trade ids of a strategy's open lots in one instrument. */
  function OpenTags(b: Books, s: StrategyId, i: Instrument): set<TradeId> {
    set k | k in b.strategyLots && k.0 == s && k.1 == i && b.strategyLots[k].quantity != 0 :: k.2
  }

  /** The open lots if there are any, otherwise the aggregate position if it is open. */
  function StrategyPositions(b: Books, s: StrategyId, i: Instrument): set<Position> {
    var open := OpenTags(b, s, i);
    var whole := Find(b.strategyPositions, (s, i));
    if open != {} then set t | t in open :: b.strategyLots[(s, i, t)]
    else if IsFlat(whole) then {}
    else {whole.value}
  }

  function QuantityShown(): Position -> real {
    (p: Position) => p.quantity as real
  }

  ghost predicate TagsRecorded(b: Books) {
    forall k :: k in b.strategyLots ==> b.strategyLots[k].tradeId == Some(k.2)
  }

  lemma {:induction false} FillsRecordTags(fills: seq<OwnedFill>)
    ensures TagsRecorded(AfterFills(fills))
  {
    if fills != [] {
      FillsRecordTags(fills[..|fills| - 1]);
      hide AverageCost, NetOf;
    }
  }

  lemma {:induction false} ImageSum(b: Books, s: StrategyId, i: Instrument, tags: set<TradeId>, f: TradeId -> real)
    requires TagsRecorded(b)
    requires forall t :: t in tags ==> (s, i, t) in b.strategyLots && f(t) == b.strategyLots[(s, i, t)].quantity as real
    ensures Sum(set t | t in tags :: b.strategyLots[(s, i, t)], QuantityShown()) == Sum(tags, f)
    decreases |tags|
  {
    var image := set t | t in tags :: b.strategyLots[(s, i, t)];
    if tags == {} {
      assert image == {};
    } else {
      var t :| t in tags;
      var p := b.strategyLots[(s, i, t)];
      ImageSum(b, s, i, tags - {t}, f);
      var rest := set u | u in tags - {t} :: b.strategyLots[(s, i, u)];
      forall u | u in tags - {t} ensures b.strategyLots[(s, i, u)] != p {
        assert b.strategyLots[(s, i, u)].tradeId == Some(u);
      }
      assert image - {p} == rest;
      SumExtract(tags, f, t);
      SumExtract(image, QuantityShown(), p);
    }
  }

  /**
   What a strategy is shown for an instrument adds up to what it holds exactly
   when no tagged lot is open or its untagged fills net to zero.
   */
  lemma ShownIsHeld(fills: seq<OwnedFill>, s: StrategyId, i: Instrument)
    ensures var b := AfterFills(fills);
            Sum(StrategyPositions(b, s, i), QuantityShown()) == QuantityHeld(Find(b.strategyPositions, (s, i))) as real
            <==> OpenTags(b, s, i) == {} || NetOf(fills, Untagged(s, i)) == 0
  {
    var b := AfterFills(fills);
    var open := OpenTags(b, s, i);
    var whole := Find(b.strategyPositions, (s, i));
    EntriesAreNets(fills, Strategy(s, i));
    assert QuantityHeld(whole) == NetOf(fills, Strategy(s, i));
    if open == {} {
      ShownWhole(b, s, i);
    } else {
      FillsRecordTags(fills);
      TaggedShown(fills, s, i);
    }
  }

  lemma ShownWhole(b: Books, s: StrategyId, i: Instrument)
    requires OpenTags(b, s, i) == {}
    ensures Sum(StrategyPositions(b, s, i), QuantityShown()) == QuantityHeld(Find(b.strategyPositions, (s, i))) as real
  {
    var whole := Find(b.strategyPositions, (s, i));
    if !IsFlat(whole) {
      SumExtract({whole.value}, QuantityShown(), whole.value);
      assert {whole.value} - {whole.value} == {};
    }
  }

  lemma TaggedShown(fills: seq<OwnedFill>, s: StrategyId, i: Instrument)
    requires TagsRecorded(AfterFills(fills)) && OpenTags(AfterFills(fills), s, i) != {}
    ensures Sum(StrategyPositions(AfterFills(fills), s, i), QuantityShown())
         == (NetOf(fills, Strategy(s, i)) - NetOf(fills, Untagged(s, i))) as real
  {
    hide AfterFills, Sum, NetOf;
    var b := AfterFills(fills);
    var open := OpenTags(b, s, i);
    var tags := open + set f | f in fills && f.tradeId.Some? :: f.tradeId.value;
    forall t ensures QuantityHeld(Find(b.strategyLots, (s, i, t))) == NetOf(fills, Tagged(s, i, t)) {
      EntriesAreNets(fills, Tagged(s, i, t));
    }
    LotsAndUntagged(fills, s, i, tags);
    SumWiden(open, tags, NetOfTag(fills, s, i));
    ImageSum(b, s, i, open, NetOfTag(fills, s, i));
    assert StrategyPositions(b, s, i) == set t | t in open :: b.strategyLots[(s, i, t)];
  }

  function TaggedThenUntagged(s: StrategyId, i: Instrument, t: TradeId): seq<OwnedFill> {
    [OwnedFill(Fill("a", i, Long, 2, 1.0, 0), Some(s), Some(t)), OwnedFill(Fill("b", i, Long, 3, 1.0, 0), Some(s), None)]
  }

  /** Two shares bought under a trade id and three without: five are held, two are shown. */
  lemma UntaggedIsHidden(s: StrategyId, i: Instrument, t: TradeId)
    ensures var b := AfterFills(TaggedThenUntagged(s, i, t));
            && Sum(StrategyPositions(b, s, i), QuantityShown()) == 2.0
            && QuantityHeld(Find(b.strategyPositions, (s, i))) == 5
  {
    hide AfterFills, Sum, StrategyPositions;
    var fills := TaggedThenUntagged(s, i, t);
    assert fills[..1] == [fills[0]] && fills[..1][..0] == [];
    forall slice ensures NetOf(fills, slice) == (if Belongs(fills[0], slice) then 2 else 0) + (if Belongs(fills[1], slice) then 3 else 0) {
      assert NetOf(fills[..1], slice) == if Belongs(fills[0], slice) then 2 else 0;
    }
    hide NetOf;
    EntriesAreNets(fills, Tagged(s, i, t));
    EntriesAreNets(fills, Strategy(s, i));
    FillsRecordTags(fills);
    assert t in OpenTags(AfterFills(fills), s, i);
    TaggedShown(fills, s, i);
  }

  // ---------------------------------------------------------------- realised P&L over whole runs

  /** Cash the fills of a slice moved, before the multiplier. */
  function CashOf(fills: seq<OwnedFill>, slice: Slice): real {
    if fills == [] then 0.0
    else
      var f := fills[|fills| - 1];
      CashOf(fills[..|fills| - 1], slice)
      - (if Belongs(f, slice) then Value(SignedOf(f.fill) as real, f.fill.price, 1.0) else 0.0)
  }

  /** Realised P&L at average cost, added up over the fills of a slice. */
  function RealisedOver(fills: seq<OwnedFill>, slice: Slice): real
    requires !slice.Untagged?
  {
    if fills == [] then 0.0
    else
      var init, f := fills[..|fills| - 1], fills[|fills| - 1];
      RealisedOver(init, slice)
      + (if Belongs(f, slice) then RealisedBy(Entry(AfterFills(init), slice), SignedOf(f.fill), f.fill.price) else 0.0)
  }

  /** In every book, realised P&L less what is tied up equals the cash that came in. */
  lemma {:induction false} RealisedBalances(fills: seq<OwnedFill>, slice: Slice)
    requires !slice.Untagged?
    ensures RealisedOver(fills, slice) - Basis(Entry(AfterFills(fills), slice)) == CashOf(fills, slice)
  {
    hide AfterFill, ApplySignedQty, Entry, RealisedBy, Basis, Belongs, Value;
    if fills == [] {
      NothingYet(slice);
      FlatConserves(None, 0.0);
    } else {
      var b, f := AfterFills(fills[..|fills| - 1]), fills[|fills| - 1];
      RealisedBalances(fills[..|fills| - 1], slice);
      AfterFillEntry(b, f, slice);
      AverageCostConserves(Entry(b, slice), f.fill.instrument, SignedOf(f.fill), f.fill.price,
                           if slice.Tagged? then f.tradeId else None);
    }
  }

  // ---------------------------------------------------------------- adoption at startup

  /** Seeds a strategy's exposure; the broker-wide book is left alone. */
  function AdoptedByStrategy(b: Books, s: StrategyId, p: Position): Books {
    var key := (s, p.instrument);
    b.(strategyPositions :=
         b.strategyPositions[key := ApplySignedQty(Find(b.strategyPositions, key), p.instrument, p.quantity, p.avgCost, None)],
       strategyLots :=
         if p.tradeId.Some? then b.strategyLots[(s, p.instrument, p.tradeId.value) := p] else b.strategyLots)
  }

  function Adopted(b: Books, p: Position, s: Option<StrategyId>): Books {
    Books(
      b.positions[p.instrument := p],
      if s.None? then b.strategyPositions else b.strategyPositions[(s.value, p.instrument) := p],
      if s.None? || p.tradeId.None? then b.strategyLots
      else b.strategyLots[(s.value, p.instrument, p.tradeId.value) := p])
  }

  /** Adopting a position puts it, as it is, broker-wide, and for its strategy and trade id where given; nothing else moves. */
  lemma AdoptedSays(b: Books, p: Position, s: Option<StrategyId>, slice: Slice)
    requires !slice.Untagged?
    ensures Entry(Adopted(b, p, s), slice)
         == if slice.i == p.instrument && (slice.Strategy? || slice.Tagged? ==> s == Some(slice.s)) && (slice.Tagged? ==> p.tradeId == Some(slice.t))
            then Some(p) else Entry(b, slice)
  {
  }

  // ---------------------------------------------------------------- the mutable tracker

  class PortfolioState {
    var positions: map<Instrument, Position>
    var strategyPositions: map<GroupKey, Position>
    var strategyPositionLots: map<LotKey, Position>

    constructor ()
      ensures State() == EmptyBooks
    {
      positions, strategyPositions, strategyPositionLots := map[], map[], map[];
    }

    function State(): Books
      reads this
    {
      Books(positions, strategyPositions, strategyPositionLots)
    }

    method ApplyFill(fill: Fill, strategyId: Option<StrategyId>, tradeId: Option<TradeId>)
      modifies this
      ensures State() == AfterFill(old(State()), OwnedFill(fill, strategyId, tradeId))
    {
      hide ApplySignedQty;
      var i := fill.instrument;
      var signedQty := SignedQuantity(fill.side, fill.quantity);
      positions := positions[i := ApplySignedQty(Find(positions, i), i, signedQty, fill.price, None)];
      if strategyId.Some? {
        var key := (strategyId.value, i);
        strategyPositions := strategyPositions[
          key := ApplySignedQty(Find(strategyPositions, key), i, signedQty, fill.price, None)];
        if tradeId.Some? {
          var lotKey := (strategyId.value, i, tradeId.value);
          strategyPositionLots := strategyPositionLots[
            lotKey := ApplySignedQty(Find(strategyPositionLots, lotKey), i, signedQty, fill.price, tradeId)];
        }
      }
    }

    method AdoptPosition(position: Position, strategyId: Option<StrategyId>)
      modifies this
      ensures State() == Adopted(old(State()), position, strategyId)
    {
      positions := positions[position.instrument := position];
      if strategyId.Some? {
        strategyPositions := strategyPositions[(strategyId.value, position.instrument) := position];
        if position.tradeId.Some? {
          strategyPositionLots :=
            strategyPositionLots[(strategyId.value, position.instrument, position.tradeId.value) := position];
        }
      }
    }

    method AdoptStrategyPosition(strategyId: StrategyId, position: Position)
      modifies this
      ensures State() == AdoptedByStrategy(old(State()), strategyId, position)
      ensures positions == old(positions)
    {
      hide ApplySignedQty;
      var key := (strategyId, position.instrument);
      strategyPositions := strategyPositions[
        key := ApplySignedQty(Find(strategyPositions, key), position.instrument, position.quantity, position.avgCost, None)];
      if position.tradeId.Some? {
        strategyPositionLots := strategyPositionLots[(strategyId, position.instrument, position.tradeId.value) := position];
      }
    }
  }
}
