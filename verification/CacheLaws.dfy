/** What the feature cache keeps, in which order, and which rows count as equal. */
module CacheLaws {
  import opened Types
  import opened Aggregation
  import opened Indicators
  import opened FeatureCache

  /** Apart by no more than the absolute tolerance and a hundred-thousandth of the new value. */
  predicate Within(held: real, given: real) {
    var tolerance := 0.00000001 + 0.00001 * (if given < 0.0 then -given else given);
    -tolerance <= held - given <= tolerance
  }

  /** Rows count as equal exactly when every column is within the tolerance. */
  lemma CloseMeans(held: Ohlcv, given: Ohlcv)
    ensures CloseRows(held, given)
       <==> Within(held.open, given.open) && Within(held.high, given.high) && Within(held.low, given.low)
            && Within(held.close, given.close) && Within(held.volume, given.volume)
  {
    NearMeans(held.open, given.open);
    NearMeans(held.high, given.high);
    NearMeans(held.low, given.low);
    NearMeans(held.close, given.close);
    NearMeans(held.volume, given.volume);
    hide Near, Within;
  }

  lemma NearMeans(held: real, given: real)
    ensures Near(held, given) <==> Within(held, given)
  {
  }

  predicate IsFirstOf<V>(cache: Cache<V>, key: Key, k: int) {
    0 <= k < |cache| && cache[k].0 == key && forall j :: 0 <= j < k ==> cache[j].0 != key
  }

  /** An entry asked for moves behind all others, which keep their order; asking for what is not there changes nothing. */
  lemma AskedMovesLast<V>(cache: Cache<V>, key: Key, k: int)
    ensures IsFirstOf(cache, key, k) ==>
              Lookup(cache, key) == Some(cache[k].1) && Touched(cache, key) == cache[..k] + cache[k + 1..] + [cache[k]]
    ensures (forall j :: 0 <= j < |cache| ==> cache[j].0 != key) ==> Touched(cache, key) == cache && Lookup(cache, key).None?
  {
    if IsFirstOf(cache, key, k) {
      Found(cache, key, k);
    }
    if forall j :: 0 <= j < |cache| ==> cache[j].0 != key {
      NotThere(cache, key);
    }
  }

  lemma {:induction false} Found<V>(cache: Cache<V>, key: Key, k: int)
    requires IsFirstOf(cache, key, k)
    ensures Lookup(cache, key) == Some(cache[k].1) && Without(cache, key) == cache[..k] + cache[k + 1..]
  {
    if k > 0 {
      var rest := cache[1..];
      assert forall j :: 0 <= j < |rest| ==> rest[j] == cache[j + 1];
      Found(rest, key, k - 1);
      assert cache[..k] == [cache[0]] + rest[..k - 1];
      assert cache[k + 1..] == rest[k..];
      Joined([cache[0]], rest[..k - 1], rest[k..]);
    }
  }

  lemma Joined<T>(x: seq<T>, y: seq<T>, z: seq<T>)
    ensures x + (y + z) == x + y + z
  {
  }

  lemma {:induction false} NotThere<V>(cache: Cache<V>, key: Key)
    requires forall j :: 0 <= j < |cache| ==> cache[j].0 != key
    ensures Lookup(cache, key).None?
  {
    if cache != [] {
      NotThere(cache[1..], key);
    }
  }

  /** What is computed is remembered last; a full cache forgets what was not asked for longest. */
  lemma RememberedLast<V>(cache: Cache<V>, key: Key, value: Cached<V>, limit: nat)
    requires |cache| <= limit
    ensures Stored(cache, key, value, limit)
         == if |cache| < limit then cache + [(key, value)] else (cache + [(key, value)])[1..]
  {
  }

  /** What goes when a bar store's features go: its entries, and no other, whose order stays. */
  lemma LiveEntriesGo<V>(cache: Cache<V>, entry: (Key, Cached<V>), i: Instrument)
    ensures NotLive(cache + [entry], i) == NotLive(cache, i) + if entry.0.LiveKey? && entry.0.instrument == i then [] else [entry]
    ensures NotLive<V>([], i) == []
  {
    assert (cache + [entry])[..|cache|] == cache;
  }

  /** An empty frame gives an empty feature whatever the indicator; any other is computed. */
  lemma EmptyIsEmpty<V>(f: Candles -> Series<V>, bars: Candles)
    ensures Computed(f, bars) == if |bars| == 0 then [] else f(bars)
  {
  }
}
