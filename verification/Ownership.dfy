/**
 The ownership ledger: which strategy holds what, by strategy, instrument
 identity and trade id. Identity is a name derived from the instrument, and
 two instruments may share one, so it is a parameter here.
 */
module Ownership {
  import opened Types
  import opened Portfolio
  import opened Sums

  type Identity = Instrument -> string
  type RecordKey = (StrategyId, string, Option<TradeId>)

  datatype Record = Record(
    strategyId: StrategyId,
    quantity: int,
    side: Side,
    avgCost: real,
    entryTime: Option<int>,
    tradeId: Option<TradeId>,
    instrument: Instrument)

  type Records = map<RecordKey, Record>

  function KeyOf(identity: Identity, s: StrategyId, i: Instrument, t: Option<TradeId>): RecordKey {
    (s, identity(i), t)
  }

  function Recorded(records: Records, key: RecordKey): int {
    if key in records then records[key].quantity else 0
  }

  /** A fill without an owner is not recorded; a record that becomes flat is dropped. */
  function AfterLedgerFill(records: Records, identity: Identity, f: OwnedFill, isEntry: bool): Records {
    if f.strategyId.None? then records
    else
      var key := KeyOf(identity, f.strategyId.value, f.fill.instrument, f.tradeId);
      var signed, held := SignedOf(f.fill), Recorded(records, key);
      if held + signed == 0 then records - {key}
      else
        var since := if key in records then records[key].entryTime else None;
        var cost := if key in records then records[key].avgCost else f.fill.price;
        records[key := Record(
          f.strategyId.value, held + signed, if held + signed > 0 then Long else Short,
          if (held == 0 || (held > 0) == (signed > 0)) && Abs(held) + Abs(signed) > 0
          then AveragePrice(cost, Abs(held) as real, f.fill.price, Abs(signed) as real) else cost,
          if since.None? && isEntry then Some(f.fill.timestamp) else since,
          f.tradeId, f.fill.instrument)]
  }

  predicate LandsOn(f: OwnedFill, identity: Identity, key: RecordKey) {
    f.strategyId == Some(key.0) && identity(f.fill.instrument) == key.1 && f.tradeId == key.2
  }

  function NetOn(fills: seq<OwnedFill>, identity: Identity, key: RecordKey): int {
    if fills == [] then 0
    else
      var f := fills[|fills| - 1];
      NetOn(fills[..|fills| - 1], identity, key) + (if LandsOn(f, identity, key) then SignedOf(f.fill) else 0)
  }

  /** Every record is open and says its own side. */
  ghost predicate SidesRight(records: Records) {
    forall key :: key in records ==> records[key].quantity != 0 && (records[key].side.Long? <==> records[key].quantity > 0)
  }

  lemma LedgerStep(records: Records, identity: Identity, f: OwnedFill, isEntry: bool, key: RecordKey)
    ensures Recorded(AfterLedgerFill(records, identity, f, isEntry), key)
         == Recorded(records, key) + (if LandsOn(f, identity, key) then SignedOf(f.fill) else 0)
    ensures SidesRight(records) ==> SidesRight(AfterLedgerFill(records, identity, f, isEntry))
  {
    hide AveragePrice, SignedOf;
  }

  /**
   What an open record says after a fill: whose it is, since when (the first
   entry's fill, if it was not known), and at what cost: what both cost when the
   fill adds to it, the old cost when the fill takes from it, even past zero.
   No other record is touched, and an unowned fill touches none.
   */
  lemma RecordTells(records: Records, identity: Identity, f: OwnedFill, isEntry: bool, key: RecordKey)
    requires forall k :: k in records ==> records[k].quantity != 0
    ensures var after := AfterLedgerFill(records, identity, f, isEntry);
            && (!LandsOn(f, identity, key) ==>
                  (key in after <==> key in records) && (key in records ==> after[key] == records[key]))
            && (LandsOn(f, identity, key) && key in after ==>
                  var r, moved := after[key], SignedOf(f.fill);
                  && r.strategyId == key.0 && r.tradeId == key.2 && r.instrument == f.fill.instrument
                  && r.entryTime == (if key in records && records[key].entryTime.Some? then records[key].entryTime
                                     else if isEntry then Some(f.fill.timestamp) else None)
                  && (key !in records && moved != 0 ==> r.avgCost == f.fill.price)
                  && (key in records ==>
                        var was := records[key];
                        if (was.quantity > 0 && moved > 0) || (was.quantity < 0 && moved < 0)
                        then r.quantity as real * r.avgCost == was.quantity as real * was.avgCost + moved as real * f.fill.price
                        else moved != 0 ==> r.avgCost == was.avgCost))
  {
    if LandsOn(f, identity, key) && key in AfterLedgerFill(records, identity, f, isEntry) {
      var moved, price := SignedOf(f.fill), f.fill.price;
      hide SignedOf;
      if key in records {
        AddedCost(records[key].quantity, records[key].avgCost, moved, price);
      } else if moved != 0 {
        FirstCost(moved, price);
      }
      hide AveragePrice;
    }
  }

  lemma AddedCost(held: int, cost: real, moved: int, price: real)
    requires held != 0
    ensures (held > 0 && moved > 0) || (held < 0 && moved < 0) ==>
              (held + moved) as real * AveragePrice(cost, Abs(held) as real, price, Abs(moved) as real)
              == held as real * cost + moved as real * price
  {
    if (held > 0 && moved > 0) || (held < 0 && moved < 0) {
      var a, b := Abs(held) as real, Abs(moved) as real;
      WeightedAverage(cost, a, price, b, 1.0);
      var average := AveragePrice(cost, a, price, b);
      hide AveragePrice;
      assert (a + b) * average == a * cost + b * price;
      if held < 0 {
        assert (held + moved) as real == -(a + b);
        assert -(a + b) * average == -((a + b) * average);
        assert held as real * cost == -(a * cost) && moved as real * price == -(b * price);
      }
    }
  }

  lemma FirstCost(moved: int, price: real)
    requires moved != 0
    ensures AveragePrice(price, 0.0, price, Abs(moved) as real) == price
  {
  }

  /** Without name clashes a record is the net of a strategy's fills under one trade id. */
  lemma {:induction false} NetOnIsNetOf(fills: seq<OwnedFill>, identity: Identity, s: StrategyId, i: Instrument, t: Option<TradeId>)
    requires forall f :: f in fills && identity(f.fill.instrument) == identity(i) ==> f.fill.instrument == i
    ensures NetOn(fills, identity, KeyOf(identity, s, i, t))
         == NetOf(fills, if t.Some? then Tagged(s, i, t.value) else Untagged(s, i))
  {
    if fills != [] {
      assert fills[|fills| - 1] in fills;
      NetOnIsNetOf(fills[..|fills| - 1], identity, s, i, t);
    }
  }

  /** Keys under one instrument name. */
  predicate Named(key: RecordKey, name: string) { key.1 == name }

  function NetOnEach(fills: seq<OwnedFill>, identity: Identity): RecordKey -> real {
    (key: RecordKey) => NetOn(fills, identity, key) as real
  }

  function KeyOfFill(f: OwnedFill, identity: Identity): RecordKey
    requires f.strategyId.Some?
  {
    KeyOf(identity, f.strategyId.value, f.fill.instrument, f.tradeId)
  }

  /** What was traded, over all instruments of a name. */
  function NetNamed(fills: seq<OwnedFill>, identity: Identity, name: string): int {
    if fills == [] then 0
    else
      var f := fills[|fills| - 1];
      NetNamed(fills[..|fills| - 1], identity, name) + (if identity(f.fill.instrument) == name then SignedOf(f.fill) else 0)
  }

  /** Over all owners and trade ids, the records under a name net to what was traded under it. */
  lemma {:induction false} NamesNet(fills: seq<OwnedFill>, identity: Identity, name: string, keys: set<RecordKey>)
    requires forall f :: f in fills ==> f.strategyId.Some?
    requires forall f :: f in fills && identity(f.fill.instrument) == name ==> KeyOfFill(f, identity) in keys
    requires forall key :: key in keys ==> Named(key, name)
    ensures Sum(keys, NetOnEach(fills, identity)) == NetNamed(fills, identity, name) as real
  {
    if fills == [] {
      SumWiden({}, keys, NetOnEach(fills, identity));
    } else {
      var init, f := fills[..|fills| - 1], fills[|fills| - 1];
      assert f in fills;
      NamesNet(init, identity, name, keys);
      hide Sum, SignedOf;
      if identity(f.fill.instrument) == name {
        SumPoint(keys, NetOnEach(fills, identity), NetOnEach(init, identity), KeyOfFill(f, identity));
      } else {
        SumSame(keys, NetOnEach(fills, identity), NetOnEach(init, identity));
      }
    }
  }

  function NetOfEach(fills: seq<OwnedFill>): Instrument -> real {
    (i: Instrument) => NetOf(fills, Broker(i)) as real
  }

  function InstrumentsNamed(instruments: set<Instrument>, identity: Identity, name: string): set<Instrument> {
    set i | i in instruments && identity(i) == name
  }

  /** What was traded under a name is what was traded in the instruments of that name. */
  lemma {:induction false} NamedIsEach(fills: seq<OwnedFill>, identity: Identity, name: string, instruments: set<Instrument>)
    requires forall f :: f in fills ==> f.fill.instrument in instruments
    ensures NetNamed(fills, identity, name) as real == Sum(InstrumentsNamed(instruments, identity, name), NetOfEach(fills))
  {
    var named := InstrumentsNamed(instruments, identity, name);
    if fills == [] {
      SumWiden({}, named, NetOfEach(fills));
    } else {
      var init, f := fills[..|fills| - 1], fills[|fills| - 1];
      assert f in fills;
      NamedIsEach(init, identity, name, instruments);
      hide Sum, SignedOf;
      if identity(f.fill.instrument) == name {
        SumPoint(named, NetOfEach(fills), NetOfEach(init), f.fill.instrument);
      } else {
        SumSame(named, NetOfEach(fills), NetOfEach(init));
      }
    }
  }

  lemma {:induction false} OneOfItsName(fills: seq<OwnedFill>, identity: Identity, i: Instrument)
    requires forall f :: f in fills && identity(f.fill.instrument) == identity(i) ==> f.fill.instrument == i
    ensures NetNamed(fills, identity, identity(i)) == NetOf(fills, Broker(i))
  {
    if fills != [] {
      assert fills[|fills| - 1] in fills;
      OneOfItsName(fills[..|fills| - 1], identity, i);
    }
  }

  function KeysNamed(records: Records, name: string): set<RecordKey> {
    set key | key in records && Named(key, name)
  }

  function QuantityRecorded(records: Records): RecordKey -> real {
    (key: RecordKey) => Recorded(records, key) as real
  }

  /** The ledger's records under a name add up to what was traded in all instruments of that name. */
  lemma LedgerNamesAddUp(fills: seq<OwnedFill>, records: Records, identity: Identity, name: string)
    requires forall f :: f in fills ==> f.strategyId.Some?
    requires forall key :: Recorded(records, key) == NetOn(fills, identity, key)
    ensures Sum(KeysNamed(records, name), QuantityRecorded(records)) == NetNamed(fills, identity, name) as real
  {
    hide Sum, NetNamed, NetOn;
    var traded := set f | f in fills && identity(f.fill.instrument) == name :: (f.strategyId.GetOr(""), name, f.tradeId);
    var keys := KeysNamed(records, name) + traded;
    forall f | f in fills && identity(f.fill.instrument) == name ensures KeyOfFill(f, identity) in keys {
      assert (f.strategyId.GetOr(""), name, f.tradeId) in traded;
    }
    NamesNet(fills, identity, name, keys);
    SumSame(keys, QuantityRecorded(records), NetOnEach(fills, identity));
    SumWiden(KeysNamed(records, name), keys, QuantityRecorded(records));
  }

  /** So those of an instrument add up to what was traded in it, if no other traded one shares its name. */
  lemma LedgerAddsUp(fills: seq<OwnedFill>, records: Records, identity: Identity, i: Instrument)
    requires forall f :: f in fills ==> f.strategyId.Some?
    requires forall f :: f in fills && identity(f.fill.instrument) == identity(i) ==> f.fill.instrument == i
    requires forall key :: Recorded(records, key) == NetOn(fills, identity, key)
    ensures Sum(KeysNamed(records, identity(i)), QuantityRecorded(records)) == NetOf(fills, Broker(i)) as real
  {
    LedgerNamesAddUp(fills, records, identity, identity(i));
    OneOfItsName(fills, identity, i);
  }

  // ---------------------------------------------------------------- the ledger object

  class PositionOwnershipLedger {
    const identity: Identity
    var records: Records

    constructor (identity: Identity)
      ensures this.identity == identity && records == map[]
    {
      this.identity := identity;
      records := map[];
    }

    method ApplyFill(fill: Fill, strategyId: Option<StrategyId>, isEntry: bool, tradeId: Option<TradeId>)
      modifies this
      ensures records == AfterLedgerFill(old(records), identity, OwnedFill(fill, strategyId, tradeId), isEntry)
    {
      if strategyId.None? {
        return;
      }
      var signed := SignedQuantity(fill.side, fill.quantity);
      var key := KeyOf(identity, strategyId.value, fill.instrument, tradeId);
      var held := if key in records then records[key].quantity else 0;
      var total := held + signed;
      if total == 0 {
        if key in records {
          records := records - {key};
        }
        assert old(records) - {key} == records;
        return;
      }
      var since := if key in records then records[key].entryTime else None;
      if since.None? && isEntry {
        since := Some(fill.timestamp);
      }
      var cost := if key in records then records[key].avgCost else fill.price;
      if held == 0 || (held > 0) == (signed > 0) {
        var gross := Abs(held) + Abs(signed);
        if gross > 0 {
          cost := AveragePrice(cost, Abs(held) as real, fill.price, Abs(signed) as real);
        }
      }
      records := records[key := Record(
        strategyId.value, total, if total > 0 then Long else Short, cost, since, tradeId, fill.instrument)];
    }
  }
}
