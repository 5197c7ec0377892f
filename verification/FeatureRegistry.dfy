/**
 The shared feature cache. An instrument is read from its preloaded source, or
 from its bar store if it has none; the source's version or the store's
 revision is part of the cache keys, and entries are evicted least recently
 used first. Reading through the cache gives what computing from the current
 rows gives, and what stable indicators give from those up to the time asked for.
 */
module FeatureCache {
  import opened Types
  import opened Frames
  import opened Aggregation
  import opened Indicators
  import opened Features
  import M = DataStore

  type Parameters = seq<(string, real)>

  datatype Key =
    | BarsKey(instrument: Instrument, tf: int, version: nat)
    | FeatureKey(name: string, instrument: Instrument, tf: int, parameters: Parameters, version: nat)
    | LiveKey(name: string, instrument: Instrument, tf: int, parameters: Parameters, version: nat)

  datatype Cached<V> = CachedBars(bars: Candles) | CachedFeature(series: Series<V>)

  /** Least recently used first. */
  type Cache<V> = seq<(Key, Cached<V>)>

  function Lookup<V>(cache: Cache<V>, key: Key): Option<Cached<V>> {
    if cache == [] then None
    else if cache[0].0 == key then Some(cache[0].1)
    else Lookup(cache[1..], key)
  }

  function Without<V>(cache: Cache<V>, key: Key): Cache<V> {
    if cache == [] then []
    else if cache[0].0 == key then cache[1..]
    else [cache[0]] + Without(cache[1..], key)
  }

  /** Moves an entry to the most recently used end. */
  function Touched<V>(cache: Cache<V>, key: Key): Cache<V> {
    var value := Lookup(cache, key);
    if value.None? then cache else Without(cache, key) + [(key, value.value)]
  }

  function Stored<V>(cache: Cache<V>, key: Key, value: Cached<V>, limit: nat): Cache<V> {
    var all := cache + [(key, value)];
    if |all| > limit then all[1..] else all
  }

  /** An indicator, with the empty frame answered before it is asked. */
  function Computed<V>(f: Candles -> Series<V>, bars: Candles): Series<V> {
    if bars == [] then [] else f(bars)
  }

  /** Each name and parameters' indicator. */
  type Library<!V> = (string, Parameters) -> Candles -> Series<V>

  /** What features are computed from: sources with their versions, and the bar stores with the days each keeps. */
  datatype Feeds = Feeds(
    sources: map<Instrument, Candles>, versions: map<Instrument, nat>,
    stores: map<Instrument, M.Store>, days: Instrument -> int)
  {
    function LiveRows(i: Instrument): Candles
      requires i in stores
    {
      M.Prices(M.Flush(stores[i], days(i)).bars)
    }

    function Rows(i: Instrument): Candles
      requires i in stores
    {
      if i in sources then sources[i] else LiveRows(i)
    }
  }

  predicate Right<V(==)>(entry: (Key, Cached<V>), feeds: Feeds, library: Library<V>) {
    var (key, value) := entry;
    && key.tf > 0
    && match key
       case LiveKey(name, i, tf, parameters, revision) =>
         && i in feeds.stores
         && revision <= feeds.stores[i].revision
         && (revision == feeds.stores[i].revision ==>
               value == CachedFeature(Computed(library(name, parameters), TimeframeBars(feeds.LiveRows(i), tf))))
       case BarsKey(i, tf, version) =>
         && i in feeds.sources && i in feeds.versions && version <= feeds.versions[i]
         && (version == feeds.versions[i] ==> value == CachedBars(TimeframeBars(feeds.sources[i], tf)))
       case FeatureKey(name, i, tf, parameters, version) =>
         && i in feeds.sources && i in feeds.versions && version <= feeds.versions[i]
         && (version == feeds.versions[i] ==>
               value == CachedFeature(Computed(library(name, parameters), TimeframeBars(feeds.sources[i], tf))))
  }

  predicate AllRight<V(==)>(cache: Cache<V>, feeds: Feeds, library: Library<V>) {
    forall i :: 0 <= i < |cache| ==> Right(cache[i], feeds, library)
  }

  lemma {:induction false} LookupFinds<V>(cache: Cache<V>, key: Key)
    ensures Lookup(cache, key).Some? ==> (key, Lookup(cache, key).value) in cache
  {
    if cache != [] && cache[0].0 != key {
      LookupFinds(cache[1..], key);
    }
  }

  lemma {:induction false} WithoutKeeps<V>(cache: Cache<V>, key: Key)
    ensures forall e :: e in Without(cache, key) ==> e in cache
    ensures |Without(cache, key)| == if Lookup(cache, key).Some? then |cache| - 1 else |cache|
  {
    if cache != [] && cache[0].0 != key {
      WithoutKeeps(cache[1..], key);
    }
  }

  lemma TouchedRight<V>(cache: Cache<V>, key: Key, feeds: Feeds, library: Library<V>)
    requires AllRight(cache, feeds, library)
    ensures AllRight(Touched(cache, key), feeds, library) && |Touched(cache, key)| == |cache|
    ensures Lookup(cache, key).Some? ==> Right((key, Lookup(cache, key).value), feeds, library)
  {
    hide Right;
    LookupFinds(cache, key);
    WithoutKeeps(cache, key);
    var left := Without(cache, key);
    forall i | 0 <= i < |left| ensures Right(left[i], feeds, library) {
      assert left[i] in left;
    }
  }

  lemma StoredRight<V>(cache: Cache<V>, key: Key, value: Cached<V>, limit: nat, feeds: Feeds, library: Library<V>)
    requires AllRight(cache, feeds, library) && Right((key, value), feeds, library)
    requires |cache| <= limit
    ensures AllRight(Stored(cache, key, value, limit), feeds, library)
    ensures |Stored(cache, key, value, limit)| <= limit
  {
    hide Right;
  }

  function Replaced(feeds: Feeds, instrument: Instrument, source: Candles): Feeds {
    var version := if instrument in feeds.versions then feeds.versions[instrument] + 1 else 1;
    feeds.(sources := feeds.sources[instrument := source], versions := feeds.versions[instrument := version])
  }

  /** A new version of a source makes every entry of the old one unreachable. */
  lemma NewVersionRight<V>(cache: Cache<V>, instrument: Instrument, source: Candles, feeds: Feeds, library: Library<V>)
    requires AllRight(cache, feeds, library)
    requires instrument in feeds.sources <==> instrument in feeds.versions
    ensures AllRight(cache, Replaced(feeds, instrument, source), library)
  {
    hide TimeframeBars, Computed, M.Flush, M.Prices;
  }

  // ---------------------------------------------------------------- stores that move on

  /** A store that has not moved to a new revision has, once flushed, the bars it had. */
  predicate SameOrNewer(s: M.Store, t: M.Store, days: int) {
    t.revision > s.revision || (t.revision == s.revision && M.Flush(t, days).bars == M.Flush(s, days).bars)
  }

  lemma MovedRight<V>(cache: Cache<V>, i: Instrument, t: M.Store, feeds: Feeds, library: Library<V>)
    requires AllRight(cache, feeds, library) && i in feeds.stores && SameOrNewer(feeds.stores[i], t, feeds.days(i))
    ensures AllRight(cache, feeds.(stores := feeds.stores[i := t]), library)
  {
    hide TimeframeBars, Computed, M.Flush, M.Prices;
  }

  lemma FlushedTwice(s: M.Store, days: int)
    ensures M.Flush(M.Flush(s, days), days) == M.Flush(s, days)
  {
    hide M.Trimmed, M.Appended;
  }

  /** Bars, history, loads and reads raise the revision or leave the flushed bars alone. */
  lemma StepMoves(s: M.Store, op: M.Op, setup: M.Setup)
    ensures SameOrNewer(s, M.Step(s, op, setup), setup.lookbackDays)
  {
    FlushedTwice(s, setup.lookbackDays);
    M.FlushKeepsRevision(s, setup.lookbackDays);
    hide M.Flush, M.Kept, M.Accepted, M.LoadedFrame, M.FromCsv, M.Trimmed, Frames.Merged, Resampling.Resample, M.Prices;
    match op
    case Live(x) => LiveMoves(s, x, setup.lookbackDays);
    case Backfill(_, _, _) =>
    case Read =>
    case ReadResampled(tf, lookback) =>
      if tf > 0 {
        var flushed := M.Flush(s, setup.lookbackDays);
        FlushIgnoresCache(flushed, M.Resampled(flushed, tf, lookback).0.cache, setup.lookbackDays);
      }
    case Load(_) =>
  }

  lemma LiveMoves(s: M.Store, x: Stamped<M.Row>, days: int)
    ensures M.OnBar(s, x, days).revision == s.revision + 1
  {
    hide M.Flush, Frames.Merged;
  }

  /** A store tracks the map it holds, so every step keeps it sound. */
  lemma StepSound(s: M.Store, op: M.Op, setup: M.Setup)
    requires M.Sound(s)
    ensures M.Sound(M.Step(s, op, setup))
  {
    var all := M.All(s);
    var r := M.Record(MapOf(all), if all == [] then None else Some(all[|all| - 1].ts));
    if all == [] {
      EmptySays<M.Row>();
    } else {
      M.LastIn(all);
    }
    assert M.Tracks(s, r, setup.lookbackDays) by {
      hide M.CacheCurrent, MapOf, Increasing;
    }
    hide M.Step;
    M.StepTracks(s, op, r, setup);
  }

  lemma {:induction false} PricesIncreasing(f: M.Frame)
    requires Increasing(f)
    ensures |M.Prices(f)| == |f| && Increasing(M.Prices(f))
    ensures forall k :: 0 <= k < |f| ==> M.Prices(f)[k].ts == f[k].ts
  {
    if f != [] {
      PricesIncreasing(f[..|f| - 1]);
    }
  }

  // ---------------------------------------------------------------- close rows

  const RELATIVE: real := 0.00001
  const ABSOLUTE: real := 0.00000001

  predicate Near(held: real, given: real) {
    AbsReal(held - given) <= ABSOLUTE + RELATIVE * AbsReal(given)
  }

  /** Rows that count as equal: every column within the tolerance, relative to the new one. */
  predicate CloseRows(held: Ohlcv, given: Ohlcv) {
    && Near(held.open, given.open) && Near(held.high, given.high) && Near(held.low, given.low)
    && Near(held.close, given.close) && Near(held.volume, given.volume)
  }

  class FeatureRegistry<V(==,!new)> {
    const maxCacheSize: nat
    const library: Library<V>
    const setups: Instrument -> M.Setup
    var cache: Cache<V>
    var sourceBars: map<Instrument, Candles>
    var sourceVersions: map<Instrument, nat>
    var managers: map<Instrument, M.Store>

    function State(): Feeds
      reads this
    {
      Feeds(sourceBars, sourceVersions, managers, i => setups(i).lookbackDays)
    }

    ghost predicate Valid()
      reads this
    {
      && |cache| <= maxCacheSize
      && sourceBars.Keys == sourceVersions.Keys
      && sourceBars.Keys <= managers.Keys
      && (forall k :: k in sourceBars ==> Increasing(sourceBars[k]))
      && (forall k :: k in managers ==> M.Sound(managers[k]))
      && AllRight(cache, State(), library)
    }

    /** What the registry computes from, for the instruments it has a store for. */
    function Rows(instrument: Instrument): Candles
      requires instrument in managers
      reads this
    {
      State().Rows(instrument)
    }

    constructor (library: Library<V>, instruments: set<Instrument>, setups: Instrument -> M.Setup, maxCacheSize: nat)
      ensures Valid() && sourceBars == map[] && managers.Keys == instruments
      ensures this.library == library && this.setups == setups && this.maxCacheSize == maxCacheSize
    {
      this.library, this.setups, this.maxCacheSize := library, setups, maxCacheSize;
      cache, sourceBars, sourceVersions := [], map[], map[];
      managers := map i | i in instruments :: M.EmptyStore;
    }

    /** Something happens to an instrument's bar store. */
    method ManagerMoves(instrument: Instrument, op: M.Op)
      requires Valid() && instrument in managers
      modifies this`managers
      ensures Valid()
      ensures managers == old(managers)[instrument := M.Step(old(managers[instrument]), op, setups(instrument))]
    {
      hide AllRight, M.Step, SameOrNewer, M.Sound, Increasing;
      var moved := M.Step(managers[instrument], op, setups(instrument));
      StepMoves(managers[instrument], op, setups(instrument));
      StepSound(managers[instrument], op, setups(instrument));
      MovedRight(cache, instrument, moved, State(), library);
      managers := managers[instrument := moved];
    }

    /** Sorted, last of each timestamp; a version is spent only on a change. */
    method SetSource(instrument: Instrument, rows: Candles)
      requires Valid() && instrument in managers
      modifies this`sourceBars, this`sourceVersions
      ensures Valid()
      ensures instrument in sourceBars && MapOf(sourceBars[instrument]) == MapOf(rows)
      ensures forall k :: k != instrument ==>
                (k in sourceBars <==> k in old(sourceBars))
                && (k in sourceBars ==> sourceBars[k] == old(sourceBars[k]) && sourceVersions[k] == old(sourceVersions[k]))
      ensures sourceVersions[instrument]
           == if instrument !in old(sourceBars) then 1
              else if sourceBars[instrument] == old(sourceBars[instrument]) then old(sourceVersions[instrument])
              else old(sourceVersions[instrument]) + 1
    {
      hide MapOf, Increasing, AllRight, SortIndex, KeepLast, M.Sound;
      SortSays(rows);
      KeepLastOrder(SortIndex(rows));
      KeepLastSays(SortIndex(rows));
      var clean := KeepLast(SortIndex(rows));
      if instrument in sourceBars && clean == sourceBars[instrument] {
        return;
      }
      NewVersionRight(cache, instrument, clean, State(), library);
      sourceVersions := sourceVersions[instrument := (if instrument in sourceVersions then sourceVersions[instrument] else 0) + 1];
      sourceBars := sourceBars[instrument := clean];
    }

    /**
     A bar the source already holds, within the tolerance, changes nothing, so a
     replay over preloaded bars keeps its cache; any other overwrites its time.
     */
    method OnBar(instrument: Instrument, bar: Candle)
      requires Valid()
      modifies this`sourceBars, this`sourceVersions
      ensures Valid() && sourceBars.Keys == old(sourceBars.Keys)
      ensures forall k :: k in sourceBars && k != instrument ==>
                sourceBars[k] == old(sourceBars[k]) && sourceVersions[k] == old(sourceVersions[k])
      ensures instrument in old(sourceBars) ==>
                var was := MapOf(old(sourceBars[instrument]));
                if bar.ts in was && CloseRows(was[bar.ts], bar.value) then
                  sourceBars == old(sourceBars) && sourceVersions == old(sourceVersions)
                else
                  MapOf(sourceBars[instrument]) == was[bar.ts := bar.value]
      ensures instrument in old(sourceBars) ==>
                bar.ts in MapOf(sourceBars[instrument]) && CloseRows(MapOf(sourceBars[instrument])[bar.ts], bar.value)
    {
      CloseToItself(bar.value);
      hide MapOf, Increasing, AllRight, CloseRows, M.Sound;
      if instrument !in sourceBars {
        return;
      }
      var existing := sourceBars[instrument];
      if bar.ts in MapOf(existing) && CloseRows(MapOf(existing)[bar.ts], bar.value) {
        return;
      }
      MapSnoc(existing, bar);
      SetSource(instrument, existing + [bar]);
    }

    method CachedBarsOf(instrument: Instrument, tf: int) returns (bars: Candles)
      requires Valid() && instrument in sourceBars && tf > 0
      modifies this`cache
      ensures Valid() && bars == TimeframeBars(sourceBars[instrument], tf)
    {
      hide Increasing, AllRight, TimeframeBars, Lookup, Touched, Stored, M.Sound;
      var key := BarsKey(instrument, tf, sourceVersions[instrument]);
      TouchedRight(cache, key, State(), library);
      var cached := Lookup(cache, key);
      if cached.Some? {
        cache := Touched(cache, key);
        return cached.value.bars;
      }
      bars := TimeframeBars(sourceBars[instrument], tf);
      StoredRight(cache, key, CachedBars(bars), maxCacheSize, State(), library);
      cache := Stored(cache, key, CachedBars(bars), maxCacheSize);
    }

    /** Reading a store flushes it; what it holds then stays what it was. */
    method ManagedBarsOf(instrument: Instrument, tf: int) returns (bars: Candles)
      requires Valid() && instrument in managers && tf > 0
      modifies this`managers
      ensures Valid() && managers.Keys == old(managers.Keys)
      ensures bars == TimeframeBars(old(State()).LiveRows(instrument), tf)
      ensures forall k :: k in managers ==> managers[k].revision == old(managers[k].revision)
      ensures forall k :: k in managers ==> State().LiveRows(k) == old(State()).LiveRows(k)
    {
      hide AllRight, TimeframeBars, M.Step, M.Sound, M.Flush, M.Prices, M.Resampled, Increasing, Resampling.Resample;
      var flushed := M.Flush(managers[instrument], setups(instrument).lookbackDays);
      StoreAnswers(managers[instrument], tf, setups(instrument).lookbackDays);
      ReadsKeep(managers[instrument], tf, setups(instrument));
      bars := if tf == MINUTE then M.Prices(flushed.bars) else M.Resampled(flushed, tf, 0).1;
      ManagerMoves(instrument, if tf == MINUTE then M.Read else M.ReadResampled(tf, 0));
    }

    /** A feature as of a time: as if computed now, and for stable indicators as if nothing later were known. */
    method Get(name: string, instrument: Instrument, tf: int, parameters: Parameters, asOf: Option<int>)
      returns (r: Result<Series<V>, Instrument>)
      requires Valid() && tf > 0
      modifies this`cache, this`managers
      ensures Valid() && managers.Keys == old(managers.Keys)
      ensures forall k :: k in managers ==> Rows(k) == old(Rows(k))
      ensures r.Failure? <==> instrument !in managers
      ensures r.Success? ==>
                r.value == SliceAsOf(Computed(library(name, parameters), TimeframeBars(Rows(instrument), tf)), tf, asOf)
      ensures r.Success? && asOf.Some? && PrefixStable(library(name, parameters)) && tf == MINUTE ==>
                r.value == library(name, parameters)(Before(Rows(instrument), asOf.value + 1))
      ensures r.Success? && asOf.Some? && PrefixStable(library(name, parameters)) && MINUTE < tf < DAY ==>
                r.value == library(name, parameters)(Resampling.Resample(Before(Rows(instrument), Bucket(asOf.value, tf)), tf, 0))
    {
      hide Increasing, AllRight, TimeframeBars, Lookup, Touched, Stored, PrefixStable, SliceAsOf, Before, Resampling.Resample, Bucket,
        M.Sound, M.Flush, M.Prices, Computed;
      if instrument !in managers {
        return Failure(instrument);
      }
      ghost var rows := Rows(instrument);
      var value: Series<V>;
      if instrument in sourceBars {
        value := FromSource(name, instrument, tf, parameters);
      } else {
        value := FromStore(name, instrument, tf, parameters);
      }
      r := Success(SliceAsOf(value, tf, asOf));
      if asOf.Some? && PrefixStable(library(name, parameters)) {
        RowsIncrease(instrument);
        SlicedIsPast(library(name, parameters), rows, tf, asOf.value);
      }
    }

    method FromSource(name: string, instrument: Instrument, tf: int, parameters: Parameters) returns (value: Series<V>)
      requires Valid() && instrument in sourceBars && tf > 0
      modifies this`cache
      ensures Valid() && value == Computed(library(name, parameters), TimeframeBars(sourceBars[instrument], tf))
    {
      hide Increasing, AllRight, TimeframeBars, Lookup, Touched, Stored, M.Sound;
      var key := FeatureKey(name, instrument, tf, parameters, sourceVersions[instrument]);
      TouchedRight(cache, key, State(), library);
      var cached := Lookup(cache, key);
      if cached.Some? {
        cache := Touched(cache, key);
        return cached.value.series;
      }
      var bars := CachedBarsOf(instrument, tf);
      value := Computed(library(name, parameters), bars);
      StoredRight(cache, key, CachedFeature(value), maxCacheSize, State(), library);
      cache := Stored(cache, key, CachedFeature(value), maxCacheSize);
    }

    method FromStore(name: string, instrument: Instrument, tf: int, parameters: Parameters) returns (value: Series<V>)
      requires Valid() && instrument in managers && tf > 0
      modifies this`cache, this`managers
      ensures Valid() && managers.Keys == old(managers.Keys)
      ensures value == Computed(library(name, parameters), TimeframeBars(old(State()).LiveRows(instrument), tf))
      ensures forall k :: k in managers ==> State().LiveRows(k) == old(State()).LiveRows(k)
    {
      hide Increasing, AllRight, TimeframeBars, Lookup, Touched, Stored, M.Sound, M.Flush, M.Prices;
      var key := LiveKey(name, instrument, tf, parameters, managers[instrument].revision);
      TouchedRight(cache, key, State(), library);
      var cached := Lookup(cache, key);
      if cached.Some? {
        cache := Touched(cache, key);
        return cached.value.series;
      }
      var bars := ManagedBarsOf(instrument, tf);
      value := Computed(library(name, parameters), bars);
      StoredRight(cache, key, CachedFeature(value), maxCacheSize, State(), library);
      cache := Stored(cache, key, CachedFeature(value), maxCacheSize);
    }

    lemma RowsIncrease(instrument: Instrument)
      requires Valid() && instrument in managers
      ensures Increasing(Rows(instrument))
    {
      hide AllRight, Increasing;
      if instrument !in sourceBars {
        FlushedIncreasing(managers[instrument], setups(instrument).lookbackDays);
        PricesIncreasing(M.Flush(managers[instrument], setups(instrument).lookbackDays).bars);
      }
    }

    method LatestBarOf(instrument: Instrument, tf: int, asOf: Option<int>) returns (r: Result<Option<Candle>, Instrument>)
      requires Valid() && tf > 0
      modifies this`cache, this`managers
      ensures Valid() && managers.Keys == old(managers.Keys)
      ensures forall k :: k in managers ==> Rows(k) == old(Rows(k))
      ensures r.Failure? <==> instrument !in managers
      ensures r.Success? ==>
                var seen := SliceAsOf(TimeframeBars(Rows(instrument), tf), tf, asOf);
                r.value == if seen == [] then None else Some(seen[|seen| - 1])
    {
      hide Increasing, AllRight, TimeframeBars, M.Sound, M.Flush, M.Prices;
      if instrument !in managers {
        return Failure(instrument);
      }
      var bars: Candles;
      if instrument in sourceBars {
        bars := CachedBarsOf(instrument, tf);
      } else {
        bars := ManagedBarsOf(instrument, tf);
      }
      r := Success(LatestBar(bars, tf, asOf));
      LatestIsLast(bars, tf, asOf);
    }

    /**
     Clears everything, or what is kept of one instrument that has no source:
     the features of its bar store. Clearing is never needed for correctness.
     */
    method Invalidate(instrument: Option<Instrument>)
      requires Valid()
      modifies this`cache
      ensures Valid()
      ensures instrument.None? ==> cache == []
      ensures instrument.Some? && instrument.value in sourceBars ==> cache == old(cache)
      ensures instrument.Some? && instrument.value !in sourceBars ==>
                cache == NotLive(old(cache), instrument.value)
    {
      hide Increasing, TimeframeBars, Computed, M.Sound, M.Flush, M.Prices;
      if instrument.Some? && instrument.value in sourceBars {
        return;
      }
      if instrument.None? {
        cache := [];
        return;
      }
      var left: Cache<V> := [];
      for n := 0 to |cache|
        invariant left == NotLive(cache[..n], instrument.value)
        invariant |left| <= n && AllRight(left, State(), library)
      {
        assert Right(cache[n], State(), library);
        assert cache[..n + 1][..n] == cache[..n];
        if !(!cache[n].0.FeatureKey? && cache[n].0.instrument == instrument.value) {
          left := left + [cache[n]];
        }
      }
      assert cache[..|cache|] == cache;
      cache := left;
    }
  }

  /** The entries left, in order, when the features computed from an instrument's bar store go. */
  function NotLive<V>(cache: Cache<V>, instrument: Instrument): Cache<V> {
    if cache == [] then []
    else
      var init, entry := NotLive(cache[..|cache| - 1], instrument), cache[|cache| - 1];
      if entry.0.LiveKey? && entry.0.instrument == instrument then init else init + [entry]
  }

  lemma FlushedIncreasing(s: M.Store, days: int)
    requires M.Sound(s)
    ensures Increasing(M.Flush(s, days).bars)
  {
    StepSound(s, M.Read, M.Setup(days, t => t));
    hide M.CacheCurrent, M.Trimmed, M.Appended;
    assert M.Flush(s, days).pending == [];
    assert M.Flush(s, days).bars + [] == M.Flush(s, days).bars;
  }

  /** Remembered or not, a store's resampled frame is that of its current bars. */
  lemma StoreAnswers(s: M.Store, tf: int, days: int)
    requires M.Sound(s) && tf > 0
    ensures var flushed := M.Flush(s, days);
            TimeframeBars(M.Prices(flushed.bars), tf)
            == if tf == MINUTE then M.Prices(flushed.bars) else M.Resampled(flushed, tf, 0).1
  {
    StepSound(s, M.Read, M.Setup(days, t => t));
    hide M.Trimmed, M.Appended, M.Prices, Resampling.Resample, Increasing;
    assert M.Flush(s, days).pending == [];
  }

  /** A read changes neither the revision nor what a store holds once flushed. */
  lemma ReadsKeep(s: M.Store, tf: int, setup: M.Setup)
    requires tf > 0
    ensures var t := M.Step(s, if tf == MINUTE then M.Read else M.ReadResampled(tf, 0), setup);
            t.revision == s.revision && M.Flush(t, setup.lookbackDays).bars == M.Flush(s, setup.lookbackDays).bars
  {
    hide M.Flush, Resampling.Resample, M.Prices;
    var days := setup.lookbackDays;
    FlushedTwice(s, days);
    M.FlushKeepsRevision(s, days);
    FlushIgnoresCache(M.Flush(s, days), if tf == MINUTE then M.Flush(s, days).cache else M.Resampled(M.Flush(s, days), tf, 0).0.cache, days);
  }

  lemma FlushIgnoresCache(s: M.Store, cache: map<(int, int), (nat, Candles)>, days: int)
    ensures M.Flush(s.(cache := cache), days).bars == M.Flush(s, days).bars
  {
    hide M.Trimmed, M.Appended;
  }

  /** A bar half a unit above a row held at a hundred thousand is dropped. */
  lemma NearbyBarIsDropped()
    ensures var held := Ohlcv(100000.0, 100000.0, 100000.0, 100000.0, 1.0);
            var given := Ohlcv(100000.5, 100000.5, 100000.5, 100000.5, 1.0);
            held != given && CloseRows(held, given)
  {
    assert RELATIVE * 100000.5 > 0.5;
    CloseToItself(Ohlcv(1.0, 1.0, 1.0, 1.0, 1.0));
  }

  lemma CloseToItself(row: Ohlcv)
    ensures CloseRows(row, row)
  {
  }

  lemma SlicedIsPast<V(!new)>(f: Candles -> Series<V>, source: Candles, tf: int, asOf: int)
    requires PrefixStable(f) && Increasing(source) && tf > 0
    ensures tf == MINUTE ==>
              SliceAsOf(Computed(f, TimeframeBars(source, tf)), tf, Some(asOf)) == f(Before(source, asOf + 1))
    ensures MINUTE < tf < DAY ==>
              SliceAsOf(Computed(f, TimeframeBars(source, tf)), tf, Some(asOf))
              == f(Resampling.Resample(Before(source, Bucket(asOf, tf)), tf, 0))
  {
    EmptyStable(f);
    hide PrefixStable, Increasing, TimeframeBars, SliceAsOf, Before, Resampling.Resample, Bucket;
    assert Computed(f, TimeframeBars(source, tf)) == f(TimeframeBars(source, tf));
    if tf == MINUTE {
      NoLeakMinute(f, source, asOf);
    }
    if MINUTE < tf < DAY {
      NoLeakIntraday(f, source, tf, asOf, Bucket(asOf, tf));
    }
  }

  lemma EmptyStable<V(!new)>(f: Candles -> Series<V>)
    requires PrefixStable(f)
    ensures f([]) == []
  {
  }
}
