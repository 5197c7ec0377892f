/** The bar store as it is kept: fields changed in place, against the store on values and the record. */
module DataManagement {
  import opened Types
  import opened Frames
  import opened Aggregation
  import opened Resampling
  import opened DataStore

  class DataManager {
    const setup: Setup
    var bars: Frame
    var pendingRows: Frame
    var revision: nat
    var resampleCache: map<(int, int), (nat, Candles)>
    /** The plain map this store stands for. */
    ghost var record: Record

    function State(): Store
      reads this
    {
      Store(bars, pendingRows, revision, resampleCache)
    }

    ghost predicate Valid()
      reads this
    {
      Tracks(State(), record, setup.lookbackDays)
    }

    constructor (setup: Setup)
      ensures Valid() && this.setup == setup
      ensures State() == EmptyStore && record == RecordOf([], setup.localDate)
    {
      this.setup := setup;
      bars, pendingRows, revision, resampleCache := [], [], 0, map[];
      record := Record(map[], None);
      new;
      RunsTrack([], setup);
    }

    method FlushPending()
      requires Valid()
      modifies this
      ensures Valid() && pendingRows == [] && record == old(record)
      ensures State() == Flush(old(State()), setup.lookbackDays)
    {
      hide Tracks, Trimmed, Merged;
      FlushTracks(State(), record, setup.lookbackDays);
      if pendingRows == [] {
        return;
      }
      var pending := pendingRows;
      pendingRows := [];
      if bars == [] {
        bars := pending;
      } else if pending[0].ts > bars[|bars| - 1].ts {
        bars := bars + pending;
      } else {
        bars := Merged(bars, pending);
      }
      TrimLookback();
    }

    method TrimLookback()
      modifies this`bars
      ensures bars == Trimmed(old(bars), setup.lookbackDays)
    {
      if setup.lookbackDays <= 0 || bars == [] {
        return;
      }
      var cutoff := bars[|bars| - 1].ts - setup.lookbackDays * DAY;
      if bars[0].ts >= cutoff {
        return;
      }
      bars := From(bars, cutoff);
    }

    /** A live bar overwrites its timestamp or appends it. */
    method OnBar(ts: int, row: Row)
      requires Valid()
      modifies this
      ensures Valid()
      ensures State() == DataStore.OnBar(old(State()), Stamped(ts, row), setup.lookbackDays)
      ensures record == RecordStep(old(record), Live(Stamped(ts, row)), setup.localDate)
      ensures revision == old(revision) + 1
    {
      hide Tracks, Merged, Trimmed, Appended;
      ghost var before := State();
      ghost var r := record;
      var x := Stamped(ts, row);
      OnBarTracks(before, x, r, setup.lookbackDays);
      FlushKeepsRevision(before, setup.lookbackDays);
      var latest := LatestTimestamp(State());
      if latest == None || ts > latest.value {
        QueuedTracks(before, x, r, setup.lookbackDays);
        FlushKeepsRevision(before.(pending := before.pending + [x]), setup.lookbackDays);
        FlushKeepsRevision(before.(pending := before.pending + [x], revision := revision + 1), setup.lookbackDays);
        record := Record(r.rows[ts := row], Raised(r.high, ts));
        pendingRows, revision := pendingRows + [x], revision + 1;
        if |pendingRows| >= FLUSH_SIZE {
          FlushPending();
        }
      } else {
        FlushPending();
        bars, revision := Merged(bars, [x]), revision + 1;
        record := Record(r.rows[ts := row], Raised(r.high, ts));
      }
    }

    /** Merges history into the gaps; returns how many rows of the batch were taken. */
    method MergeBackfill(batch: Frame, day: Option<int>, policy: Policy) returns (added: nat)
      requires Valid()
      modifies this
      ensures Valid()
      ensures State() == DataStore.MergeBackfill(old(State()), batch, day, policy, setup)
      ensures record == RecordStep(old(record), Backfill(batch, day, policy), setup.localDate)
      ensures added > 0 ==> revision == old(revision) + 1
    {
      hide Tracks, Merged, Trimmed, Kept, Replaced, Welcome, Flush, RaisedAll;
      ghost var before, r := State(), record;
      if batch == [] {
        return 0;
      }
      BackfillTracks(before, batch, day, policy, r, setup);
      FlushKeepsRevision(before, setup.lookbackDays);
      FlushPending();
      var kept := Kept(bars, day, policy, setup.localDate);
      var replaced := |bars| - |kept|;
      var existing := MapOf(kept).Keys;
      var newRows: Frame := [];
      for i := 0 to |batch|
        invariant newRows == Accepted(batch[..i], existing, day, policy, setup.localDate)
      {
        assert batch[..i + 1][..i] == batch[..i];
        if Welcome(batch[i], day, policy, setup.localDate) && batch[i].ts !in existing {
          newRows := newRows + [batch[i]];
        }
      }
      assert batch[..|batch|] == batch;
      added := |newRows|;
      record := RecordStep(r, Backfill(batch, day, policy), setup.localDate);
      if newRows == [] && replaced == 0 {
        return;
      }
      bars, revision := if newRows == [] then kept else Merged(kept, newRows), revision + 1;
      TrimLookback();
    }

    method Bars1m(days: int) returns (seen: Frame)
      requires Valid()
      modifies this
      ensures Valid() && record == old(record)
      ensures State() == Flush(old(State()), setup.lookbackDays)
      ensures seen == DataStore.Bars1m(State(), days)
    {
      hide Tracks, Flush, From;
      FlushPending();
      seen := DataStore.Bars1m(State(), days);
    }

    /** Answers with the resample of the bars as they are now, whether remembered or computed. */
    method Resampled(tf: int, lookback: int) returns (candles: Candles)
      requires Valid() && tf > 0
      modifies this
      ensures Valid() && record == old(record)
      ensures bars == Flush(old(State()), setup.lookbackDays).bars && revision == old(revision)
      ensures candles == Resample(Prices(bars), tf, lookback)
    {
      hide Tracks, Flush, Resample, Prices;
      FlushKeepsRevision(State(), setup.lookbackDays);
      FlushPending();
      ResampledTracks(State(), tf, lookback, record, setup.lookbackDays);
      var key := (tf, lookback);
      if key in resampleCache && resampleCache[key].0 == revision {
        return resampleCache[key].1;
      }
      candles := Resample(Prices(bars), tf, lookback);
      resampleCache := resampleCache[key := (revision, candles)];
    }

    /** Counting needs no flush; with nothing trimmed it is the size of the map. */
    method BarCount() returns (count: nat)
      requires Valid()
      ensures count == |bars| + |pendingRows|
      ensures setup.lookbackDays <= 0 ==> count == |record.rows|
    {
      hide MapOf, Increasing, Below, CacheCurrent;
      count := |bars| + |pendingRows|;
      CountIsSize(All(State()));
      if setup.lookbackDays <= 0 {
        AgreeEverywhere(MapOf(All(State())), record.rows);
      }
    }
  }
}
