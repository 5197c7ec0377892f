/** The strategy state store with its payload in memory. */
module StateStore {
  import opened Types
  import opened Sorting
  import opened StartupGate
  import opened Restart

  class StrategyStateStore {
    const enabled: bool
    const keying: Keying
    const times: EntryTimes
    var payload: Payload

    constructor (enabled: bool, keying: Keying, times: EntryTimes)
      ensures payload == map[] && this.enabled == enabled && this.keying == keying && this.times == times
    {
      this.enabled, this.keying, this.times := enabled, keying, times;
      payload := map[];
    }

    method SaveStrategy(s: StrategyId, positions: seq<Position>)
      modifies this
      ensures payload == if enabled then old(payload)[s := RecordOf(s, positions, keying, times)] else old(payload)
    {
      if !enabled {
        return;
      }
      var record: Saved := map[];
      for n := 0 to |positions|
        invariant payload == old(payload)
        invariant record == RecordOf(s, positions[..n], keying, times)
      {
        assert positions[..n + 1][..n] == positions[..n];
        var p := positions[n];
        if p.quantity != 0 {
          record := record[keying(p.instrument, p.tradeId) := LotOf(s, p, times)];
        }
      }
      assert positions[..|positions|] == positions;
      payload := payload[s := record];
    }

    method SaveAll(entries: seq<StrategyId>, held: map<StrategyId, seq<Position>>)
      modifies this
      ensures payload == if enabled then Restart.SaveAll(old(payload), entries, held, keying, times) else old(payload)
    {
      if !enabled {
        return;
      }
      for n := 0 to |entries|
        invariant payload == Restart.SaveAll(old(payload), entries[..n], held, keying, times)
      {
        assert entries[..n + 1][..n] == entries[..n];
        SaveStrategy(entries[n], PositionsOf(held, entries[n]));
      }
      assert entries[..|entries|] == entries;
    }

    method OpenAllocations() returns (allocations: seq<RawAllocation>)
      ensures allocations == if enabled then Restart.OpenAllocations(payload) else []
    {
      allocations := [];
      if !enabled {
        return;
      }
      var ids := payload.Keys;
      while ids != {}
        invariant ids <= payload.Keys
        invariant allocations + OpenStrategies(payload, ids) == OpenStrategies(payload, payload.Keys)
        decreases |ids|
      {
        var s := Lowest(ids);
        var record := OpenOne(s, payload[s]);
        assert allocations + OpenStrategies(payload, ids) == allocations + record + OpenStrategies(payload, ids - {s});
        allocations, ids := allocations + record, ids - {s};
      }
      assert allocations + [] == allocations;
    }
  }

  method OpenOne(s: StrategyId, saved: Saved) returns (allocations: seq<RawAllocation>)
    ensures allocations == OpenRecord(s, saved, saved.Keys)
    ensures forall raw :: raw in allocations ==> raw.strategyId == s && raw.quantity.Quantity? && raw.quantity.value > 0.0
  {
    allocations := [];
    var keys := saved.Keys;
    while keys != {}
      invariant keys <= saved.Keys
      invariant allocations + OpenRecord(s, saved, keys) == OpenRecord(s, saved, saved.Keys)
      invariant forall raw :: raw in allocations ==> raw.strategyId == s && raw.quantity.Quantity? && raw.quantity.value > 0.0
      decreases |keys|
    {
      var k := Lowest(keys);
      var lot := saved[k];
      if lot.quantity != 0 {
        PositiveShares(lot.quantity);
        var raw := Reopened(s, lot);
        assert allocations + OpenRecord(s, saved, keys) == allocations + [raw] + OpenRecord(s, saved, keys - {k});
        allocations := allocations + [raw];
      }
      keys := keys - {k};
    }
    assert allocations + [] == allocations;
  }
}
