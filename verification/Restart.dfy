/**
 Surviving a restart: lots saved by strategy come back as allocations, clear
 the startup gate, and are adopted with their quantities and trade ids.
 */
module Restart {
  import opened Types
  import opened Sorting
  import opened Sums
  import opened Contracts
  import opened Portfolio
  import opened StartupGate
  import opened StartupStatus
  import opened Adoption

  // ---------------------------------------------------------------- the saved payload

  datatype SavedLot = SavedLot(
    quantity: int, facing: Facing, avgCost: real, entryTime: Option<int>, tradeId: Option<TradeId>, instrument: Instrument)

  type Saved = map<string, SavedLot>
  type Payload = map<StrategyId, Saved>

  /** How a saved lot is keyed inside its strategy's record: by contract identity and trade id. */
  type Keying = (Instrument, Option<TradeId>) -> string

  /** The entry time a strategy's own state gives a lot. */
  type EntryTimes = (StrategyId, Position) -> Option<int>

  function LotOf(s: StrategyId, p: Position, times: EntryTimes): SavedLot {
    SavedLot(p.quantity, FacingOf(p.quantity), p.avgCost, times(s, p), p.tradeId, p.instrument)
  }

  /** Flat positions are left out; a later one of the same key replaces an earlier one. */
  function RecordOf(s: StrategyId, positions: seq<Position>, keying: Keying, times: EntryTimes): Saved {
    if positions == [] then map[]
    else
      var earlier, p := RecordOf(s, positions[..|positions| - 1], keying, times), positions[|positions| - 1];
      if p.quantity == 0 then earlier else earlier[keying(p.instrument, p.tradeId) := LotOf(s, p, times)]
  }

  function PositionsOf(held: map<StrategyId, seq<Position>>, s: StrategyId): seq<Position> {
    if s in held then held[s] else []
  }

  /** Records of strategies not among the entries are kept as they were. */
  function SaveAll(
    payload: Payload, entries: seq<StrategyId>, held: map<StrategyId, seq<Position>>, keying: Keying, times: EntryTimes): Payload
  {
    if entries == [] then payload
    else
      var s := entries[|entries| - 1];
      SaveAll(payload, entries[..|entries| - 1], held, keying, times)[s := RecordOf(s, PositionsOf(held, s), keying, times)]
  }

  function Reopened(s: StrategyId, lot: SavedLot): RawAllocation {
    RawAllocation(
      "", Some(lot.instrument), Some(lot.facing), s, Quantity(Abs(lot.quantity) as real),
      if lot.entryTime.None? then NoTime else Time(lot.entryTime.value), lot.tradeId, STRATEGY_STATE)
  }

  /** Records come back in key order. */
  function OpenRecord(s: StrategyId, saved: Saved, keys: set<string>): seq<RawAllocation>
    requires keys <= saved.Keys
    decreases |keys|
  {
    if keys == {} then []
    else
      var k := Lowest(keys);
      (if saved[k].quantity == 0 then [] else [Reopened(s, saved[k])]) + OpenRecord(s, saved, keys - {k})
  }

  function OpenStrategies(payload: Payload, ids: set<StrategyId>): seq<RawAllocation>
    requires ids <= payload.Keys
    decreases |ids|
  {
    if ids == {} then []
    else
      var s := Lowest(ids);
      OpenRecord(s, payload[s], payload[s].Keys) + OpenStrategies(payload, ids - {s})
  }

  function OpenAllocations(payload: Payload): seq<RawAllocation> {
    OpenStrategies(payload, payload.Keys)
  }

  // ---------------------------------------------------------------- what was there to save

  type Lot = (StrategyId, Position)

  function LotsOf(s: StrategyId, positions: seq<Position>): seq<Lot> {
    if positions == [] then []
    else
      var earlier, p := LotsOf(s, positions[..|positions| - 1]), positions[|positions| - 1];
      if p.quantity == 0 then earlier else earlier + [(s, p)]
  }

  /** Every open lot of every entry. */
  function AllLots(entries: seq<StrategyId>, held: map<StrategyId, seq<Position>>): seq<Lot> {
    if entries == [] then []
    else
      var s := entries[|entries| - 1];
      AllLots(entries[..|entries| - 1], held) + LotsOf(s, PositionsOf(held, s))
  }

  function RawOf(lot: Lot, times: EntryTimes): RawAllocation {
    Reopened(lot.0, LotOf(lot.0, lot.1, times))
  }

  function Raws(lots: seq<Lot>, times: EntryTimes): seq<RawAllocation> {
    if lots == [] then [] else Raws(lots[..|lots| - 1], times) + [RawOf(lots[|lots| - 1], times)]
  }

  // ---------------------------------------------------------------- multisets of allocations

  /** Inside a strategy no two open lots share a key. */
  predicate DistinctKeys(positions: seq<Position>, keying: Keying) {
    forall i, j :: 0 <= i < j < |positions| && positions[i].quantity != 0 && positions[j].quantity != 0 ==>
      keying(positions[i].instrument, positions[i].tradeId) != keying(positions[j].instrument, positions[j].tradeId)
  }

  function Bag(s: StrategyId, saved: Saved, k: string): multiset<RawAllocation>
    requires k in saved
  {
    if saved[k].quantity == 0 then multiset{} else multiset{Reopened(s, saved[k])}
  }

  lemma {:induction false} OpenRecordExtract(s: StrategyId, saved: Saved, keys: set<string>, k: string)
    requires keys <= saved.Keys && k in keys
    ensures multiset(OpenRecord(s, saved, keys)) == Bag(s, saved, k) + multiset(OpenRecord(s, saved, keys - {k}))
    decreases |keys|
  {
    hide Reopened;
    var low := Lowest(keys);
    if k != low {
      OpenRecordExtract(s, saved, keys - {low}, k);
      assert Lowest(keys - {k}) == low by {
        LowestUnique(keys - {k}, Lowest(keys - {k}), low);
      }
      assert keys - {low} - {k} == keys - {k} - {low};
    }
  }

  lemma {:induction false} OpenRecordSame(s: StrategyId, a: Saved, b: Saved, keys: set<string>)
    requires keys <= a.Keys && keys <= b.Keys && forall k :: k in keys ==> a[k] == b[k]
    ensures OpenRecord(s, a, keys) == OpenRecord(s, b, keys)
    decreases |keys|
  {
    if keys != {} {
      OpenRecordSame(s, a, b, keys - {Lowest(keys)});
    }
  }

  lemma {:induction false} KeysSaved(s: StrategyId, positions: seq<Position>, keying: Keying, times: EntryTimes, k: string)
    requires k in RecordOf(s, positions, keying, times)
    ensures exists i :: 0 <= i < |positions| && positions[i].quantity != 0 && keying(positions[i].instrument, positions[i].tradeId) == k
  {
    hide LotOf;
    var init, p := positions[..|positions| - 1], positions[|positions| - 1];
    if k in RecordOf(s, init, keying, times) {
      KeysSaved(s, init, keying, times, k);
      var i :| 0 <= i < |init| && init[i].quantity != 0 && keying(init[i].instrument, init[i].tradeId) == k;
      assert positions[i] == init[i];
    }
  }

  lemma FreshKey(s: StrategyId, positions: seq<Position>, keying: Keying, times: EntryTimes)
    requires positions != [] && DistinctKeys(positions, keying) && positions[|positions| - 1].quantity != 0
    ensures var p := positions[|positions| - 1];
            DistinctKeys(positions[..|positions| - 1], keying)
            && keying(p.instrument, p.tradeId) !in RecordOf(s, positions[..|positions| - 1], keying, times)
  {
    hide LotOf, RecordOf;
    var init, p := positions[..|positions| - 1], positions[|positions| - 1];
    var k := keying(p.instrument, p.tradeId);
    if k in RecordOf(s, init, keying, times) {
      KeysSaved(s, init, keying, times, k);
      assert false;
    }
  }

  lemma LotAdded(s: StrategyId, earlier: Saved, k: string, lot: SavedLot)
    requires k !in earlier && lot.quantity != 0
    ensures var saved := earlier[k := lot];
            multiset(OpenRecord(s, saved, saved.Keys)) == multiset{Reopened(s, lot)} + multiset(OpenRecord(s, earlier, earlier.Keys))
  {
    hide Reopened;
    var saved := earlier[k := lot];
    OpenRecordExtract(s, saved, saved.Keys, k);
    assert saved.Keys - {k} == earlier.Keys;
    OpenRecordSame(s, saved, earlier, earlier.Keys);
  }

  /** A strategy's record opens to its open lots, each once, if no two share a key. */
  lemma {:induction false} RecordOpens(s: StrategyId, positions: seq<Position>, keying: Keying, times: EntryTimes)
    requires DistinctKeys(positions, keying)
    ensures var saved := RecordOf(s, positions, keying, times);
            multiset(OpenRecord(s, saved, saved.Keys)) == multiset(Raws(LotsOf(s, positions), times))
  {
    if positions != [] {
      var init, p := positions[..|positions| - 1], positions[|positions| - 1];
      DistinctBefore(positions, keying);
      RecordOpens(s, init, keying, times);
      hide Reopened, OpenRecord, DistinctKeys;
      if p.quantity != 0 {
        FreshKey(s, positions, keying, times);
        LotQuantity(s, p, times);
        LotAdded(s, RecordOf(s, init, keying, times), keying(p.instrument, p.tradeId), LotOf(s, p, times));
        hide LotOf;
        var lots := LotsOf(s, init);
        RawsSnoc(lots, (s, p), times);
      }
    }
  }

  lemma DistinctBefore(positions: seq<Position>, keying: Keying)
    requires positions != [] && DistinctKeys(positions, keying)
    ensures DistinctKeys(positions[..|positions| - 1], keying)
  {
  }

  lemma RawsSnoc(lots: seq<Lot>, lot: Lot, times: EntryTimes)
    ensures Raws(lots + [lot], times) == Raws(lots, times) + [RawOf(lot, times)]
    ensures multiset(Raws(lots + [lot], times)) == multiset(Raws(lots, times)) + multiset{RawOf(lot, times)}
  {
    assert (lots + [lot])[..|lots|] == lots;
  }

  lemma LotQuantity(s: StrategyId, p: Position, times: EntryTimes)
    ensures LotOf(s, p, times).quantity == p.quantity
  {
  }

  lemma {:induction false} OpenStrategiesExtract(payload: Payload, ids: set<StrategyId>, s: StrategyId)
    requires ids <= payload.Keys && s in ids
    ensures multiset(OpenStrategies(payload, ids))
         == multiset(OpenRecord(s, payload[s], payload[s].Keys)) + multiset(OpenStrategies(payload, ids - {s}))
    decreases |ids|
  {
    hide OpenRecord;
    var low := Lowest(ids);
    if s != low {
      OpenStrategiesExtract(payload, ids - {low}, s);
      assert Lowest(ids - {s}) == low by {
        LowestUnique(ids - {s}, Lowest(ids - {s}), low);
      }
      assert ids - {low} - {s} == ids - {s} - {low};
    }
  }

  lemma {:induction false} OpenStrategiesSame(a: Payload, b: Payload, ids: set<StrategyId>)
    requires ids <= a.Keys && ids <= b.Keys && forall s :: s in ids ==> a[s] == b[s]
    ensures OpenStrategies(a, ids) == OpenStrategies(b, ids)
    decreases |ids|
  {
    if ids != {} {
      OpenStrategiesSame(a, b, ids - {Lowest(ids)});
    }
  }

  predicate Distinct(entries: seq<StrategyId>) {
    forall i, j :: 0 <= i < j < |entries| ==> entries[i] != entries[j]
  }

  function Ids(entries: seq<StrategyId>): set<StrategyId> { set s | s in entries }

  lemma {:induction false} SaveAllKeys(
    payload: Payload, entries: seq<StrategyId>, held: map<StrategyId, seq<Position>>, keying: Keying, times: EntryTimes)
    ensures SaveAll(payload, entries, held, keying, times).Keys == payload.Keys + Ids(entries)
  {
    if entries != [] {
      SaveAllKeys(payload, entries[..|entries| - 1], held, keying, times);
    }
  }

  lemma RawsConcat(a: seq<Lot>, b: seq<Lot>, times: EntryTimes)
    ensures Raws(a + b, times) == Raws(a, times) + Raws(b, times)
  {
    if b == [] {
      assert a + b == a;
    } else {
      RawsConcat(a, b[..|b| - 1], times);
      assert (a + b)[..|a + b| - 1] == a + b[..|b| - 1];
    }
  }

  /** One more strategy's record opens besides the others'. */
  lemma EntryOpens(
    before: Payload, ids: set<StrategyId>, s: StrategyId, positions: seq<Position>, keying: Keying, times: EntryTimes)
    requires ids <= before.Keys && s !in ids && DistinctKeys(positions, keying)
    ensures var after := before[s := RecordOf(s, positions, keying, times)];
            && ids + {s} <= after.Keys
            && multiset(OpenStrategies(after, ids + {s}))
               == multiset(Raws(LotsOf(s, positions), times)) + multiset(OpenStrategies(before, ids))
  {
    hide DistinctKeys, RecordOf, OpenRecord, LotsOf, Raws, OpenStrategies;
    var after := before[s := RecordOf(s, positions, keying, times)];
    OpenStrategiesExtract(after, ids + {s}, s);
    assert ids + {s} - {s} == ids;
    OpenStrategiesSame(after, before, ids);
    RecordOpens(s, positions, keying, times);
  }

  lemma LastIsNewEntry(entries: seq<StrategyId>)
    requires Distinct(entries) && entries != []
    ensures var init, s := entries[..|entries| - 1], entries[|entries| - 1];
            Distinct(init) && s !in Ids(init) && Ids(entries) == Ids(init) + {s} && s in entries && forall x :: x in init ==> x in entries
  {
  }

  lemma LastSaved(
    payload: Payload, entries: seq<StrategyId>, held: map<StrategyId, seq<Position>>, keying: Keying, times: EntryTimes)
    requires entries != []
    ensures var init, s := entries[..|entries| - 1], entries[|entries| - 1];
            && SaveAll(payload, entries, held, keying, times)
               == SaveAll(payload, init, held, keying, times)[s := RecordOf(s, PositionsOf(held, s), keying, times)]
            && AllLots(entries, held) == AllLots(init, held) + LotsOf(s, PositionsOf(held, s))
  {
  }

  lemma {:induction false} EntriesOpen(
    payload: Payload, entries: seq<StrategyId>, held: map<StrategyId, seq<Position>>, keying: Keying, times: EntryTimes)
    requires Distinct(entries) && forall s :: s in entries ==> DistinctKeys(PositionsOf(held, s), keying)
    ensures Ids(entries) <= SaveAll(payload, entries, held, keying, times).Keys
    ensures multiset(OpenStrategies(SaveAll(payload, entries, held, keying, times), Ids(entries)))
         == multiset(Raws(AllLots(entries, held), times))
  {
    if entries == [] {
      assert Ids(entries) == {};
    } else {
      hide DistinctKeys, RecordOf, OpenRecord, PositionsOf, Distinct, LotsOf, Raws, OpenStrategies, Ids, SaveAll, AllLots;
      var init, s := entries[..|entries| - 1], entries[|entries| - 1];
      LastIsNewEntry(entries);
      LastSaved(payload, entries, held, keying, times);
      EntriesOpen(payload, init, held, keying, times);
      EntryOpens(SaveAll(payload, init, held, keying, times), Ids(init), s, PositionsOf(held, s), keying, times);
      RawsConcat(AllLots(init, held), LotsOf(s, PositionsOf(held, s)), times);
    }
  }

  /** What is saved is what is loaded after a restart: every open lot once, and nothing else. */
  lemma SavedIsOpened(
    payload: Payload, entries: seq<StrategyId>, held: map<StrategyId, seq<Position>>, keying: Keying, times: EntryTimes)
    requires Distinct(entries) && payload.Keys <= Ids(entries)
    requires forall s :: s in entries ==> DistinctKeys(PositionsOf(held, s), keying)
    ensures multiset(OpenAllocations(SaveAll(payload, entries, held, keying, times)))
         == multiset(Raws(AllLots(entries, held), times))
  {
    hide OpenStrategies, DistinctKeys, AllLots, Raws, SaveAll;
    SaveAllKeys(payload, entries, held, keying, times);
    EntriesOpen(payload, entries, held, keying, times);
    assert SaveAll(payload, entries, held, keying, times).Keys == Ids(entries);
  }

  // ---------------------------------------------------------------- which lots can come back

  /** The broker positions with the lot's contract and side. */
  function Homes(items: Items, p: Position): set<string> {
    Matches(items, p.instrument, Some(FacingOf(p.quantity)))
  }

  /** Exactly one broker position fits, and the strategy may take it over from saved state. */
  predicate Restorable(items: Items, lot: Lot, times: EntryTimes) {
    && |Homes(items, lot.1)| == 1
    && lot.0 != ""
    && var candidate := FindCandidate(items[TheOnly(Homes(items, lot.1))].candidates, lot.0);
       && candidate.Some?
       && !candidate.value.dryRun && candidate.value.supportsAdoption && candidate.value.adoptable
       && (candidate.value.needsEntryTime ==> times(lot.0, lot.1).Some?)
  }

  function TagOf(p: Position): Option<TradeId> {
    if p.tradeId == Some("") then None else p.tradeId
  }

  /** A saved lot passes the gate's own checks exactly when it is restorable, and keeps its quantity and trade id. */
  lemma RestorableIff(items: Items, lot: Lot, times: EntryTimes)
    requires lot.1.quantity != 0
    ensures Normal(items, RawOf(lot, times)).Success? <==> Restorable(items, lot, times)
    ensures Restorable(items, lot, times) ==>
              Normal(items, RawOf(lot, times)).value
              == Allocation(TheOnly(Homes(items, lot.1)), lot.0, Abs(lot.1.quantity) as real, times(lot.0, lot.1), TagOf(lot.1), STRATEGY_STATE)
  {
    hide Matches, FindCandidate;
    var raw := RawOf(lot, times);
    var homes := Homes(items, lot.1);
    assert FindPosition(items, raw) == if |homes| == 1 then Success(TheOnly(homes)) else Failure(if homes == {} then NoMatch else ManyMatches);
    if |homes| == 1 {
      HomesKnown(items, lot.1);
    }
    hide FindPosition, Homes;
    PositiveShares(lot.1.quantity);
  }

  lemma HomesKnown(items: Items, p: Position)
    requires |Homes(items, p)| == 1
    ensures TheOnly(Homes(items, p)) in items
  {
    assert TheOnly(Homes(items, p)) in Homes(items, p);
  }

  lemma PositiveShares(quantity: int)
    requires quantity != 0
    ensures Abs(quantity) as real > 0.0
  {
  }

  // ---------------------------------------------------------------- order does not matter

  function Weight(items: Items, id: string): RawAllocation -> real {
    (raw: RawAllocation) =>
      var a := Normal(items, raw);
      if a.Success? && a.value.positionId == id then a.value.quantity else 0.0
  }

  function LotWeight(items: Items, id: string, s: StrategyId): RawAllocation -> real {
    (raw: RawAllocation) =>
      var a := Normal(items, raw);
      if a.Success? && a.value.positionId == id && a.value.strategyId == s then 1.0 else 0.0
  }

  function GivenWeight(items: Items, brokers: Brokers, s: StrategyId, i: Instrument): RawAllocation -> real {
    (raw: RawAllocation) =>
      var a := Normal(items, raw);
      if a.Success? && a.value.positionId in brokers && a.value.strategyId == s && brokers[a.value.positionId].instrument == i
      then SignedShares(a.value, brokers[a.value.positionId]) as real else 0.0
  }

  lemma NormalsSnoc(items: Items, raws: seq<RawAllocation>, raw: RawAllocation)
    requires AllNormal(items, raws) && Normal(items, raw).Success?
    ensures AllNormal(items, raws + [raw]) && Normals(items, raws + [raw]) == Normals(items, raws) + [Normal(items, raw).value]
  {
    hide Normal;
    assert (raws + [raw])[..|raws|] == raws;
  }

  lemma GivenSnoc(brokers: Brokers, done: seq<Allocation>, a: Allocation, s: StrategyId, i: Instrument)
    ensures Given(brokers, done + [a], s, i)
         == Given(brokers, done, s, i)
            + if a.positionId in brokers && a.strategyId == s && brokers[a.positionId].instrument == i
              then SignedShares(a, brokers[a.positionId]) else 0
  {
    assert (done + [a])[..|done|] == done;
  }

  lemma {:induction false} AllocatedTotal(items: Items, raws: seq<RawAllocation>, id: string)
    requires AllNormal(items, raws)
    ensures Allocated(Normals(items, raws), id) == Total(raws, Weight(items, id))
  {
    hide Normal;
    if raws != [] {
      var init, raw := raws[..|raws| - 1], raws[|raws| - 1];
      assert AllNormal(items, init);
      AllocatedTotal(items, init, id);
      AllocatedSnoc(Normals(items, init), Normal(items, raw).value, id, "");
    }
  }

  lemma {:induction false} LotsTotal(items: Items, raws: seq<RawAllocation>, id: string, s: StrategyId)
    requires AllNormal(items, raws)
    ensures Lots(Normals(items, raws), id, s) as real == Total(raws, LotWeight(items, id, s))
  {
    hide Normal;
    if raws != [] {
      var init, raw := raws[..|raws| - 1], raws[|raws| - 1];
      assert AllNormal(items, init);
      LotsTotal(items, init, id, s);
      AllocatedSnoc(Normals(items, init), Normal(items, raw).value, id, s);
    }
  }

  lemma {:induction false} GivenTotal(items: Items, brokers: Brokers, raws: seq<RawAllocation>, s: StrategyId, i: Instrument)
    requires AllNormal(items, raws)
    ensures Given(brokers, Normals(items, raws), s, i) as real == Total(raws, GivenWeight(items, brokers, s, i))
  {
    hide Normal, SignedShares;
    if raws != [] {
      var init, raw := raws[..|raws| - 1], raws[|raws| - 1];
      assert AllNormal(items, init);
      GivenTotal(items, brokers, init, s, i);
      GivenSnoc(brokers, Normals(items, init), Normal(items, raw).value, s, i);
    }
  }

  lemma NormalRearranged(items: Items, a: seq<RawAllocation>, b: seq<RawAllocation>)
    requires multiset(a) == multiset(b) && AllNormal(items, a)
    ensures AllNormal(items, b)
  {
    hide Normal;
    forall k | 0 <= k < |b| ensures Normal(items, b[k]).Success? {
      assert b[k] in multiset(a);
    }
  }

  /** Sums over accepted allocations do not depend on the order they came in. */
  lemma SumsRearranged(
    items: Items, brokers: Brokers, a: seq<RawAllocation>, b: seq<RawAllocation>, id: string, s: StrategyId, i: Instrument)
    requires multiset(a) == multiset(b) && AllNormal(items, a) && AllNormal(items, b)
    ensures Allocated(Normals(items, a), id) == Allocated(Normals(items, b), id)
    ensures Lots(Normals(items, a), id, s) == Lots(Normals(items, b), id, s)
    ensures Given(brokers, Normals(items, a), s, i) == Given(brokers, Normals(items, b), s, i)
  {
    hide Normals, Allocated, Lots, Given, Weight, LotWeight, GivenWeight, Total;
    AllocatedTotal(items, a, id);
    AllocatedTotal(items, b, id);
    LotsTotal(items, a, id, s);
    LotsTotal(items, b, id, s);
    GivenTotal(items, brokers, a, s, i);
    GivenTotal(items, brokers, b, s, i);
    TotalRearranged(a, b, Weight(items, id));
    TotalRearranged(a, b, LotWeight(items, id, s));
    TotalRearranged(a, b, GivenWeight(items, brokers, s, i));
  }

  // ---------------------------------------------------------------- in terms of the lots

  predicate AllRestorable(items: Items, lots: seq<Lot>, times: EntryTimes) {
    forall k :: 0 <= k < |lots| ==> lots[k].1.quantity != 0 && Restorable(items, lots[k], times)
  }

  /** Shares of the lots that fit a broker position. */
  function SharesAt(items: Items, lots: seq<Lot>, id: string): nat {
    if lots == [] then 0
    else
      var lot := lots[|lots| - 1];
      SharesAt(items, lots[..|lots| - 1], id) + (if Homes(items, lot.1) == {id} then Abs(lot.1.quantity) else 0)
  }

  function LotsAt(items: Items, lots: seq<Lot>, id: string, s: StrategyId): nat {
    if lots == [] then 0
    else
      var lot := lots[|lots| - 1];
      LotsAt(items, lots[..|lots| - 1], id, s) + (if Homes(items, lot.1) == {id} && lot.0 == s then 1 else 0)
  }

  /** Signed shares of a strategy's lots that fit a broker position in the instrument. */
  function HeldIn(items: Items, brokers: Brokers, lots: seq<Lot>, s: StrategyId, i: Instrument): int {
    if lots == [] then 0
    else
      var lot := lots[|lots| - 1];
      HeldIn(items, brokers, lots[..|lots| - 1], s, i)
      + (if lot.0 == s && exists id :: id in brokers && Homes(items, lot.1) == {id} && brokers[id].instrument == i
         then lot.1.quantity else 0)
  }

  /** The managed items are broker positions. */
  predicate ItemsAreBrokers(items: Items, brokers: Brokers) {
    forall id :: id in items ==>
      && id in brokers
      && items[id].instrument == brokers[id].instrument
      && items[id].facing == FacingOf(brokers[id].quantity)
      && items[id].quantity == brokers[id].quantity as real
  }

  lemma SignRestored(items: Items, brokers: Brokers, lot: Lot, times: EntryTimes)
    requires ItemsAreBrokers(items, brokers) && lot.1.quantity != 0 && Restorable(items, lot, times)
    ensures var home, a := TheOnly(Homes(items, lot.1)), Normal(items, RawOf(lot, times));
            && Homes(items, lot.1) == {home} && home in items && home in brokers
            && a.Success? && a.value.positionId == home && a.value.strategyId == lot.0
            && a.value.quantity == Abs(lot.1.quantity) as real
            && a.value.tradeId == TagOf(lot.1) && a.value.source == STRATEGY_STATE
            && SignedShares(a.value, brokers[home]) == lot.1.quantity
  {
    RestorableIff(items, lot, times);
    hide Normal, RawOf;
    var home := TheOnly(Homes(items, lot.1));
    assert home in Homes(items, lot.1);
    assert items[home].facing == FacingOf(lot.1.quantity);
    assert (Abs(lot.1.quantity) as real).Floor == Abs(lot.1.quantity);
  }

  lemma RestorablePrefix(items: Items, lots: seq<Lot>, times: EntryTimes)
    requires AllRestorable(items, lots, times) && lots != []
    ensures AllRestorable(items, lots[..|lots| - 1], times)
    ensures lots[|lots| - 1].1.quantity != 0 && Restorable(items, lots[|lots| - 1], times)
  {
    hide Restorable;
    assert Restorable(items, lots[|lots| - 1], times);
  }

  lemma {:induction false} LotsAreNormal(
    items: Items, brokers: Brokers, lots: seq<Lot>, times: EntryTimes, id: string, s: StrategyId, i: Instrument)
    requires ItemsAreBrokers(items, brokers) && AllRestorable(items, lots, times)
    ensures var raws := Raws(lots, times);
            && AllNormal(items, raws)
            && Allocated(Normals(items, raws), id) == SharesAt(items, lots, id) as real
            && Lots(Normals(items, raws), id, s) == LotsAt(items, lots, id, s)
            && Given(brokers, Normals(items, raws), s, i) == HeldIn(items, brokers, lots, s, i)
  {
    hide Normal, Restorable, AllRestorable, ItemsAreBrokers, Homes, RawOf, SignedShares;
    if lots != [] {
      var init, lot := lots[..|lots| - 1], lots[|lots| - 1];
      RestorablePrefix(items, lots, times);
      LotsAreNormal(items, brokers, init, times, id, s, i);
      SignRestored(items, brokers, lot, times);
      var raws, raw := Raws(init, times), RawOf(lot, times);
      NormalsSnoc(items, raws, raw);
      var done, a := Normals(items, raws), Normal(items, raw).value;
      AllocatedSnoc(done, a, id, s);
      GivenSnoc(brokers, done, a, s, i);
      HomeOnly(items, lot.1, id);
      HomeInstrument(items, brokers, lot.1, i);
    }
  }

  lemma HomeOnly(items: Items, p: Position, id: string)
    requires |Homes(items, p)| == 1
    ensures Homes(items, p) == {id} <==> TheOnly(Homes(items, p)) == id
  {
  }

  lemma HomeInstrument(items: Items, brokers: Brokers, p: Position, i: Instrument)
    requires |Homes(items, p)| == 1 && TheOnly(Homes(items, p)) in brokers
    ensures (exists id :: id in brokers && Homes(items, p) == {id} && brokers[id].instrument == i)
            <==> brokers[TheOnly(Homes(items, p))].instrument == i
  {
  }

  // ---------------------------------------------------------------- the gate after a restart

  /** The broker reports one open position per contract and side. */
  predicate Reported(positions: seq<Position>, naming: Naming) {
    && (forall k :: 0 <= k < |positions| ==> positions[k].quantity != 0)
    && (forall j, k :: 0 <= j < k < |positions| ==> naming(positions[j]) != naming(positions[k]))
  }

  lemma {:induction false} RequiredFrom(positions: seq<Position>, strategies: seq<StrategySpec>, naming: Naming, k: nat)
    requires k < |Required(positions, strategies, naming)|
    ensures exists j :: 0 <= j < |positions| && Required(positions, strategies, naming)[k] == ItemOf(positions[j], strategies, naming)
  {
    hide ItemOf, Traded;
    var init := positions[..|positions| - 1];
    if k < |Required(init, strategies, naming)| {
      RequiredFrom(init, strategies, naming, k);
      var j :| 0 <= j < |init| && Required(init, strategies, naming)[k] == ItemOf(init[j], strategies, naming);
      assert positions[j] == init[j];
    }
  }

  lemma {:induction false} RequiredDistinct(positions: seq<Position>, strategies: seq<StrategySpec>, naming: Naming)
    requires Reported(positions, naming)
    ensures DistinctIds(Required(positions, strategies, naming))
  {
    hide Traded;
    if positions != [] {
      var init, p := positions[..|positions| - 1], positions[|positions| - 1];
      RequiredDistinct(init, strategies, naming);
      var earlier := Required(init, strategies, naming);
      forall k | 0 <= k < |earlier| ensures earlier[k].positionId != naming(p) {
        RequiredFrom(init, strategies, naming, k);
      }
    }
  }

  lemma {:induction false} BrokerAt(positions: seq<Position>, naming: Naming, k: nat)
    requires Reported(positions, naming) && k < |positions|
    ensures naming(positions[k]) in PositionsById(positions, naming)
            && PositionsById(positions, naming)[naming(positions[k])] == positions[k]
  {
    if k < |positions| - 1 {
      BrokerAt(positions[..|positions| - 1], naming, k);
    }
  }

  lemma ItemsReflectBrokers(positions: seq<Position>, strategies: seq<StrategySpec>, naming: Naming)
    requires Reported(positions, naming)
    ensures ItemsAreBrokers(ItemsOf(Required(positions, strategies, naming)), PositionsById(positions, naming))
    ensures var items := ItemsOf(Required(positions, strategies, naming));
            forall id :: id in items ==> items[id].quantity != 0.0
  {
    hide Required, PositionsById, ItemsOf, Reported, ExactCandidates;
    var required := Required(positions, strategies, naming);
    var items, brokers := ItemsOf(required), PositionsById(positions, naming);
    forall id | id in items
      ensures id in brokers && items[id].instrument == brokers[id].instrument
              && items[id].facing == FacingOf(brokers[id].quantity) && items[id].quantity == brokers[id].quantity as real
              && items[id].quantity != 0.0
    {
      ItemsOfHas(required, id);
      var k :| 0 <= k < |required| && required[k] == items[id];
      RequiredFrom(positions, strategies, naming, k);
      var j :| 0 <= j < |positions| && required[k] == ItemOf(positions[j], strategies, naming);
      BrokerAt(positions, naming, j);
      NotFlat(positions, naming, j);
    }
  }

  lemma NotFlat(positions: seq<Position>, naming: Naming, j: nat)
    requires Reported(positions, naming) && j < |positions|
    ensures positions[j].quantity != 0
  {
  }

  /** Everything managed is held by restorable lots, no more lots than a strategy may have. */
  ghost predicate CoveredByLots(items: Items, brokers: Brokers, lots: seq<Lot>, times: EntryTimes) {
    && AllRestorable(items, lots, times)
    && (forall id :: id in items && id in brokers ==> SharesAt(items, lots, id) == Abs(brokers[id].quantity))
    && (forall id, s :: SingleLot(items, id, s) ==> LotsAt(items, lots, id, s) <= 1)
  }

  lemma NormalsCover(items: Items, brokers: Brokers, lots: seq<Lot>, times: EntryTimes, loaded: seq<RawAllocation>)
    requires ItemsAreBrokers(items, brokers) && CoveredByLots(items, brokers, lots, times)
    requires multiset(loaded) == multiset(Raws(lots, times))
    ensures AllNormal(items, loaded)
    ensures LotsAllowed(items, Normals(items, loaded))
    ensures forall id :: id in items ==> Allocated(Normals(items, loaded), id) == AbsReal(items[id].quantity)
    ensures forall s, i :: Given(brokers, Normals(items, loaded), s, i) == HeldIn(items, brokers, lots, s, i)
  {
    hide AllNormal, AllRestorable, Normals, Allocated, Lots, Given, HeldIn, SharesAt, LotsAt, SingleLot, Raws;
    var any := Equity("", None);
    LotsAreNormal(items, brokers, lots, times, "", "", any);
    var raws := Raws(lots, times);
    NormalRearranged(items, raws, loaded);
    forall id, s | SingleLot(items, id, s) ensures Lots(Normals(items, loaded), id, s) <= 1 {
      LotsAreNormal(items, brokers, lots, times, id, s, any);
      SumsRearranged(items, brokers, raws, loaded, id, s, any);
    }
    forall id | id in items ensures Allocated(Normals(items, loaded), id) == AbsReal(items[id].quantity) {
      LotsAreNormal(items, brokers, lots, times, id, "", any);
      SumsRearranged(items, brokers, raws, loaded, id, "", any);
      IntegerIsWhole(brokers[id].quantity);
    }
    forall s, i ensures Given(brokers, Normals(items, loaded), s, i) == HeldIn(items, brokers, lots, s, i) {
      LotsAreNormal(items, brokers, lots, times, "", s, i);
      SumsRearranged(items, brokers, raws, loaded, "", s, i);
    }
  }

  lemma OpenedByInstrument(lots: seq<Lot>, times: EntryTimes, loaded: seq<RawAllocation>)
    requires multiset(loaded) == multiset(Raws(lots, times))
    ensures forall k :: 0 <= k < |loaded| ==> loaded[k].positionId == ""
  {
    forall k | 0 <= k < |loaded| ensures loaded[k].positionId == "" {
      assert loaded[k] in multiset(Raws(lots, times));
      RawsAre(lots, times, loaded[k]);
    }
  }

  lemma {:induction false} RawsAre(lots: seq<Lot>, times: EntryTimes, raw: RawAllocation)
    requires raw in Raws(lots, times)
    ensures exists k :: 0 <= k < |lots| && raw == RawOf(lots[k], times)
    ensures raw.positionId == ""
  {
    var init := lots[..|lots| - 1];
    if raw in Raws(init, times) {
      RawsAre(init, times, raw);
      var k :| 0 <= k < |init| && raw == RawOf(init[k], times);
      assert lots[k] == init[k];
    }
  }

  /**
   Saving, then starting again against the same broker positions, clears the
   gate without an operator, and what is to be adopted is the saved lots.
   */
  lemma GateClears(
    positions: seq<Position>, strategies: seq<StrategySpec>, naming: Naming, payload: Payload,
    entries: seq<StrategyId>, held: map<StrategyId, seq<Position>>, keying: Keying, times: EntryTimes)
    requires Reported(positions, naming) && !AnyStuck(positions, strategies)
    requires Distinct(entries) && payload.Keys <= Ids(entries)
    requires forall s :: s in entries ==> DistinctKeys(PositionsOf(held, s), keying)
    requires CoveredByLots(ItemsOf(Required(positions, strategies, naming)), PositionsById(positions, naming), AllLots(entries, held), times)
    ensures var loaded := OpenAllocations(SaveAll(payload, entries, held, keying, times));
            var items := ItemsOf(Required(positions, strategies, naming));
            var status := Build(positions, strategies, [], loaded, naming);
            && multiset(loaded) == multiset(Raws(AllLots(entries, held), times))
            && status.phase.Clear?
            && AllNormal(items, loaded)
            && status.allocations == Normals(items, loaded)
  {
    hide Build, Required, AnyStuck, OpenAllocations, SaveAll, AllLots, Raws, Reported, DistinctKeys, CoveredByLots, AllNormal, PositionsById, Allocated, LotsAllowed;
    var loaded := OpenAllocations(SaveAll(payload, entries, held, keying, times));
    var items, brokers := ItemsOf(Required(positions, strategies, naming)), PositionsById(positions, naming);
    var lots := AllLots(entries, held);
    SavedIsOpened(payload, entries, held, keying, times);
    ItemsReflectBrokers(positions, strategies, naming);
    RequiredDistinct(positions, strategies, naming);
    NormalsCover(items, brokers, lots, times, loaded);
    OpenedByInstrument(lots, times, loaded);
    SavedClears(positions, strategies, loaded, naming);
    if Required(positions, strategies, naming) == [] {
      NothingToRestore(lots, brokers, times, loaded);
      NothingRequired(positions, strategies, loaded, naming);
    }
  }

  lemma NothingRequired(positions: seq<Position>, strategies: seq<StrategySpec>, loaded: seq<RawAllocation>, naming: Naming)
    requires Required(positions, strategies, naming) == [] && !AnyStuck(positions, strategies)
    ensures Build(positions, strategies, [], loaded, naming).allocations == []
  {
  }

  lemma NothingToRestore(lots: seq<Lot>, brokers: Brokers, times: EntryTimes, loaded: seq<RawAllocation>)
    requires CoveredByLots(ItemsOf([]), brokers, lots, times) && multiset(loaded) == multiset(Raws(lots, times))
    ensures loaded == []
  {
    if lots != [] {
      assert Restorable(map[], lots[0], times);
      HomesKnown(map[], lots[0].1);
      assert false;
    }
    assert |multiset(loaded)| == 0;
  }

  // ---------------------------------------------------------------- the round trip

  /** No strategy has two lots with the same trade id in the same broker position. */
  predicate DistinctTags(items: Items, lots: seq<Lot>) {
    forall j, k :: 0 <= j < k < |lots| && lots[j].0 == lots[k].0 && Homes(items, lots[j].1) == Homes(items, lots[k].1) ==>
      TagOf(lots[j].1).None? || TagOf(lots[j].1) != TagOf(lots[k].1)
  }

  /** Two allocations that do not claim the same lot. */
  function Apart(items: Items): (RawAllocation, RawAllocation) -> bool {
    (x: RawAllocation, y: RawAllocation) =>
      var a, b := Normal(items, x), Normal(items, y);
      a.Success? && b.Success? && a.value.strategyId == b.value.strategyId && a.value.positionId == b.value.positionId
      ==> a.value.tradeId.None? || a.value.tradeId != b.value.tradeId
  }

  lemma {:induction false} RawsAt(lots: seq<Lot>, times: EntryTimes, k: nat)
    requires k < |lots|
    ensures |Raws(lots, times)| == |lots| && Raws(lots, times)[k] == RawOf(lots[k], times)
  {
    var init := lots[..|lots| - 1];
    if k < |init| {
      RawsAt(init, times, k);
    } else if init != [] {
      RawsAt(init, times, 0);
    }
  }

  lemma {:induction false} RawsLength(lots: seq<Lot>, times: EntryTimes)
    ensures |Raws(lots, times)| == |lots|
  {
    if lots != [] {
      RawsAt(lots, times, 0);
    }
  }

  lemma LotsApart(items: Items, brokers: Brokers, lots: seq<Lot>, times: EntryTimes)
    requires ItemsAreBrokers(items, brokers) && AllRestorable(items, lots, times) && DistinctTags(items, lots)
    ensures Pairwise(Raws(lots, times), Apart(items))
  {
    hide Normal, Restorable, RawOf, Homes, Raws, SignedShares, TagOf, ItemsAreBrokers;
    var raws := Raws(lots, times);
    RawsLength(lots, times);
    forall j, k | 0 <= j < k < |raws| ensures Apart(items)(raws[j], raws[k]) && Apart(items)(raws[k], raws[j]) {
      RawsAt(lots, times, j);
      RawsAt(lots, times, k);
      SignRestored(items, brokers, lots[j], times);
      SignRestored(items, brokers, lots[k], times);
    }
  }

  lemma {:induction false} NormalsAt(items: Items, raws: seq<RawAllocation>, k: nat)
    requires AllNormal(items, raws) && k < |raws|
    ensures |Normals(items, raws)| == |raws| && Normals(items, raws)[k] == Normal(items, raws[k]).value
  {
    hide Normal;
    var init := raws[..|raws| - 1];
    assert AllNormal(items, init);
    if k < |init| {
      NormalsAt(items, init, k);
    } else if init != [] {
      NormalsAt(items, init, 0);
    }
  }

  lemma NormalsLength(items: Items, raws: seq<RawAllocation>)
    requires AllNormal(items, raws)
    ensures |Normals(items, raws)| == |raws|
  {
    if raws != [] {
      NormalsAt(items, raws, 0);
    }
  }

  /** Saved allocations never ask the strategies. */
  lemma SavedUnchanged(
    items: Items, brokers: Brokers, lots: seq<Lot>, times: EntryTimes, loaded: seq<RawAllocation>, hook: Hook)
    requires ItemsAreBrokers(items, brokers) && AllRestorable(items, lots, times)
    requires multiset(loaded) == multiset(Raws(lots, times)) && AllNormal(items, loaded)
    ensures Unchanged(hook, brokers, Normals(items, loaded))
  {
    hide Normal, Restorable, RawOf, Homes, Raws, SignedShares, TagOf, ItemsAreBrokers, AllNormal, Normals;
    NormalsLength(items, loaded);
    var done := Normals(items, loaded);
    forall k | 0 <= k < |done|
      ensures done[k].positionId in brokers
              && TakenOver(done[k], brokers[done[k].positionId], hook) == Some(CandidatePosition(done[k], brokers[done[k].positionId]))
    {
      NormalsAt(items, loaded, k);
      assert loaded[k] in multiset(Raws(lots, times));
      RawsAre(lots, times, loaded[k]);
      var j :| 0 <= j < |lots| && loaded[k] == RawOf(lots[j], times);
      SignRestored(items, brokers, lots[j], times);
    }
  }

  /** Where a lot comes back: under the broker's instrument, with its own shares and tag, at the broker's cost. */
  function Returned(items: Items, brokers: Brokers, p: Position): Position
    requires |Homes(items, p)| == 1 && TheOnly(Homes(items, p)) in brokers
  {
    var broker := brokers[TheOnly(Homes(items, p))];
    Position(broker.instrument, p.quantity, broker.avgCost, TagOf(p))
  }

  lemma LotReturns(
    items: Items, brokers: Brokers, lots: seq<Lot>, times: EntryTimes, loaded: seq<RawAllocation>, hook: Hook, n: nat)
    requires ItemsAreBrokers(items, brokers) && OneContractEach(brokers)
    requires AllRestorable(items, lots, times) && DistinctTags(items, lots)
    requires multiset(loaded) == multiset(Raws(lots, times)) && AllNormal(items, loaded)
    requires n < |lots| && TagOf(lots[n].1).Some?
    requires |Homes(items, lots[n].1)| == 1 && TheOnly(Homes(items, lots[n].1)) in brokers
    ensures var r := AdoptAll(EmptyBooks, brokers, Normals(items, loaded), hook);
            var back := Returned(items, brokers, lots[n].1);
            && r.Success?
            && Entry(r.value, Tagged(lots[n].0, back.instrument, TagOf(lots[n].1).value)) == Some(back)
  {
    hide Normal, Restorable, RawOf, Homes, Raws, TagOf, ItemsAreBrokers, AllNormal, Normals, AdoptAll, Entry, AllRestorable;
    var lot, home, t := lots[n], TheOnly(Homes(items, lots[n].1)), TagOf(lots[n].1).value;
    var done := Normals(items, loaded);
    RawsAt(lots, times, n);
    assert RawOf(lot, times) in multiset(Raws(lots, times));
    assert RawOf(lot, times) in multiset(loaded);
    var k :| 0 <= k < |loaded| && loaded[k] == RawOf(lot, times);
    AllRestorableAt(items, lots, times, n);
    SignRestored(items, brokers, lot, times);
    SavedUnchanged(items, brokers, lots, times, loaded, hook);
    NormalsLength(items, loaded);
    NormalsAt(items, loaded, k);
    assert done[k].positionId == home && done[k].tradeId == Some(t) && done[k].strategyId == lot.0;
    LotsApart(items, brokers, lots, times);
    PairwiseRearranged(Raws(lots, times), loaded, Apart(items));
    forall j | k < j < |done| ensures !Tags(brokers, done[j], lot.0, brokers[home].instrument, t) {
      NormalsAt(items, loaded, j);
      assert Apart(items)(loaded[k], loaded[j]);
      NormalSucceeds(items, loaded, j);
    }
    LotRestored(EmptyBooks, brokers, done, hook, k, t);
  }

  lemma NormalSucceeds(items: Items, raws: seq<RawAllocation>, j: nat)
    requires AllNormal(items, raws) && j < |raws|
    ensures Normal(items, raws[j]).Success?
  {
  }

  lemma AllRestorableAt(items: Items, lots: seq<Lot>, times: EntryTimes, n: nat)
    requires AllRestorable(items, lots, times) && n < |lots|
    ensures lots[n].1.quantity != 0 && Restorable(items, lots[n], times)
  {
  }

  /**
   Save, restart, clear the gate, adopt: every strategy again holds what its
   saved lots held, and every tagged lot is there with its shares and trade id.
   */
  lemma RestartRoundTrip(
    positions: seq<Position>, strategies: seq<StrategySpec>, naming: Naming, payload: Payload,
    entries: seq<StrategyId>, held: map<StrategyId, seq<Position>>, keying: Keying, times: EntryTimes, hook: Hook)
    requires Reported(positions, naming) && !AnyStuck(positions, strategies)
    requires OneContractEach(PositionsById(positions, naming))
    requires Distinct(entries) && payload.Keys <= Ids(entries)
    requires forall s :: s in entries ==> DistinctKeys(PositionsOf(held, s), keying)
    requires var items := ItemsOf(Required(positions, strategies, naming));
             && CoveredByLots(items, PositionsById(positions, naming), AllLots(entries, held), times)
             && DistinctTags(items, AllLots(entries, held))
    ensures var loaded := OpenAllocations(SaveAll(payload, entries, held, keying, times));
            var status := Build(positions, strategies, [], loaded, naming);
            var items, brokers := ItemsOf(Required(positions, strategies, naming)), PositionsById(positions, naming);
            var lots := AllLots(entries, held);
            var r := AdoptAll(EmptyBooks, brokers, status.allocations, hook);
            && status.phase.Clear?
            && r.Success?
            && (forall s, i :: QuantityHeld(Entry(r.value, Strategy(s, i))) == HeldIn(items, brokers, lots, s, i))
            && (forall n :: 0 <= n < |lots| && TagOf(lots[n].1).Some? ==>
                  && |Homes(items, lots[n].1)| == 1
                  && TheOnly(Homes(items, lots[n].1)) in brokers
                  && var back := Returned(items, brokers, lots[n].1);
                     Entry(r.value, Tagged(lots[n].0, back.instrument, TagOf(lots[n].1).value)) == Some(back))
  {
    hide Build, Required, OpenAllocations, SaveAll, AllLots, PositionsById, Normals, AdoptAll, Entry, HeldIn, Given, Raws, Reported,
      AnyStuck, DistinctKeys, Distinct, AllNormal, ItemsAreBrokers, DistinctTags, Homes, Returned, Unchanged, LotsAllowed, Allocated;
    var loaded := OpenAllocations(SaveAll(payload, entries, held, keying, times));
    var items, brokers := ItemsOf(Required(positions, strategies, naming)), PositionsById(positions, naming);
    var lots := AllLots(entries, held);
    GateClears(positions, strategies, naming, payload, entries, held, keying, times);
    ItemsReflectBrokers(positions, strategies, naming);
    NormalsCover(items, brokers, lots, times, loaded);
    var done := Normals(items, loaded);
    SavedUnchanged(items, brokers, lots, times, loaded, hook);
    AdoptionGives(EmptyBooks, brokers, done, hook);
    var r := AdoptAll(EmptyBooks, brokers, done, hook);
    forall s, i ensures QuantityHeld(Entry(r.value, Strategy(s, i))) == HeldIn(items, brokers, lots, s, i) {
      NothingYet(Strategy(s, i));
    }
    forall n | 0 <= n < |lots| && TagOf(lots[n].1).Some?
      ensures |Homes(items, lots[n].1)| == 1 && TheOnly(Homes(items, lots[n].1)) in brokers
      ensures var back := Returned(items, brokers, lots[n].1);
              Entry(r.value, Tagged(lots[n].0, back.instrument, TagOf(lots[n].1).value)) == Some(back)
    {
      AllRestorableAt(items, lots, times, n);
      SignRestored(items, brokers, lots[n], times);
      LotReturns(items, brokers, lots, times, loaded, hook, n);
    }
  }
}
