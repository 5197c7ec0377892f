/**
 The bar store by what goes in: which rows a live bar, a load and a backfill
 leave at each time, what is queued and what is dropped, and what a resample
 remembers.
 */
module StoreLaws {
  import opened Types
  import opened Frames
  import opened Aggregation
  import opened Resampling
  import opened DataStore

  // ---------------------------------------------------------------- rows by time

  /** The last row of a list at a time. */
  predicate IsLastRow(rows: Frame, k: int, t: int) {
    0 <= k < |rows| && rows[k].ts == t && forall j :: k < j < |rows| ==> rows[j].ts != t
  }

  lemma {:induction false} LastRowSays(rows: Frame, k: int, t: int)
    requires IsLastRow(rows, k, t)
    ensures t in MapOf(rows) && MapOf(rows)[t] == rows[k].value
  {
    var n := |rows| - 1;
    if k < n {
      assert rows[..n][k] == rows[k];
      assert forall j :: k < j < n ==> rows[..n][j] == rows[j];
      LastRowSays(rows[..n], k, t);
    }
  }

  lemma {:induction false} FromCsvIs(rows: Frame)
    ensures |FromCsv(rows)| == |rows|
    ensures forall k :: 0 <= k < |rows| ==> FromCsv(rows)[k] == Stamped(rows[k].ts, Row(rows[k].value.bar, "csv"))
  {
    if rows != [] {
      FromCsvIs(rows[..|rows| - 1]);
    }
  }

  /** A load leaves the last row of each time it has, as an offline one, and nothing else. */
  lemma LoadSays(r: Record, rows: Frame, localDate: int -> int, t: int)
    requires rows != []
    ensures var after := RecordStep(r, Load(rows), localDate).rows;
            && (forall k :: IsLastRow(rows, k, t) ==> t in after && after[t] == Row(rows[k].value.bar, "csv"))
            && (t in after ==> Occurs(rows, t))
  {
    FromCsvIs(rows);
    var csv := FromCsv(rows);
    hide MapOf, FromCsv;
    forall k | IsLastRow(rows, k, t) ensures t in MapOf(csv) && MapOf(csv)[t] == Row(rows[k].value.bar, "csv") {
      assert IsLastRow(csv, k, t);
      LastRowSays(csv, k, t);
    }
    MapKeys(csv, t);
    if Occurs(csv, t) {
      var k :| 0 <= k < |csv| && csv[k].ts == t;
      assert rows[k].ts == t;
    }
  }

  /** A stored offline row of the session that the live provider's history replaces. */
  predicate GivesWay(t: int, row: Row, day: Option<int>, policy: Policy, localDate: int -> int) {
    policy == LiveProviderWins && day == Some(localDate(t)) && row.source == "csv"
  }

  /** A row of history that may fill a gap: no offline row of a live session, and under the preserving policy only before it. */
  predicate MayFill(t: int, row: Row, day: Option<int>, policy: Policy, localDate: int -> int) {
    && !GivesWay(t, row, day, policy, localDate)
    && (policy == Preserve && day.Some? ==> localDate(t) < day.value)
  }

  /** The last row of the batch at a time that may fill a gap. */
  predicate IsFiller(batch: Frame, k: int, t: int, day: Option<int>, policy: Policy, localDate: int -> int) {
    && 0 <= k < |batch| && batch[k].ts == t && MayFill(t, batch[k].value, day, policy, localDate)
    && forall j :: k < j < |batch| && batch[j].ts == t ==> !MayFill(t, batch[j].value, day, policy, localDate)
  }

  lemma FillerSnoc(init: Frame, x: Stamped<Row>, k: int, t: int, day: Option<int>, policy: Policy, localDate: int -> int)
    ensures IsFiller(init + [x], k, t, day, policy, localDate)
       <==> if x.ts == t && MayFill(t, x.value, day, policy, localDate) then k == |init|
            else IsFiller(init, k, t, day, policy, localDate)
    ensures 0 <= k < |init| ==> (init + [x])[k] == init[k]
  {
    hide MayFill;
    var batch := init + [x];
    assert batch[|init|] == x;
    assert forall j :: 0 <= j < |init| ==> batch[j] == init[j];
  }

  lemma {:induction false} FilledBy(batch: Frame, existing: set<int>, t: int, day: Option<int>, policy: Policy, localDate: int -> int)
    ensures var m := MapOf(Accepted(batch, existing, day, policy, localDate));
            && (t in existing ==> t !in m)
            && (t in m ==> exists k :: IsFiller(batch, k, t, day, policy, localDate) && m[t] == batch[k].value)
            && (t !in existing ==> forall k :: IsFiller(batch, k, t, day, policy, localDate) ==> t in m && m[t] == batch[k].value)
  {
    if batch == [] {
      EmptySays<Row>();
    } else {
      var n := |batch| - 1;
      var init, x := batch[..n], batch[n];
      assert batch == init + [x];
      FilledBy(init, existing, t, day, policy, localDate);
      MapSnoc(Accepted(init, existing, day, policy, localDate), x);
      WelcomeIs(x, day, policy, localDate);
      forall k
        ensures IsFiller(batch, k, t, day, policy, localDate)
           <==> if x.ts == t && MayFill(t, x.value, day, policy, localDate) then k == n else IsFiller(init, k, t, day, policy, localDate)
        ensures IsFiller(init, k, t, day, policy, localDate) ==> 0 <= k < n && batch[k] == init[k]
      {
        FillerSnoc(init, x, k, t, day, policy, localDate);
      }
      hide MapOf, MayFill, IsFiller, Welcome;
    }
  }

  lemma WelcomeIs(x: Stamped<Row>, day: Option<int>, policy: Policy, localDate: int -> int)
    ensures Welcome(x, day, policy, localDate) <==> MayFill(x.ts, x.value, day, policy, localDate)
  {
  }

  /**
   After a backfill a stored row stands unless it gives way; where none stands
   there is the last row of the batch that may fill the gap, or nothing.
   */
  lemma BackfillSays(r: Record, batch: Frame, day: Option<int>, policy: Policy, localDate: int -> int, t: int)
    requires batch != []
    ensures var after := RecordStep(r, Backfill(batch, day, policy), localDate).rows;
            if t in r.rows && !GivesWay(t, r.rows[t], day, policy, localDate) then t in after && after[t] == r.rows[t]
            else
              && (t in after ==> exists k :: IsFiller(batch, k, t, day, policy, localDate) && after[t] == batch[k].value)
              && (forall k :: IsFiller(batch, k, t, day, policy, localDate) ==> t in after && after[t] == batch[k].value)
  {
    FilledBy(batch, KeptRows(r.rows, day, policy, localDate).Keys, t, day, policy, localDate);
    hide MapOf, Accepted, RaisedAll, IsFiller;
  }

  // ---------------------------------------------------------------- queueing and dropping

  /**
   A bar later than all others is only queued; the 512th moves the queue into
   the frame. Any other bar moves the queue first, and every bar counts as a change.
   */
  lemma LiveQueues(s: Store, x: Stamped<Row>, days: int)
    requires Increasing(s.bars + s.pending)
    ensures var after := OnBar(s, x, days);
            && after.revision == s.revision + 1 && after.cache == s.cache
            && (if forall k :: 0 <= k < |s.bars + s.pending| ==> (s.bars + s.pending)[k].ts < x.ts then
                  if |s.pending| < 511 then after.bars == s.bars && after.pending == s.pending + [x]
                  else after.pending == []
                else after.pending == [])
  {
    hide Trimmed, Merged, Appended;
    var all := s.bars + s.pending;
    LatestIsLast(s);
    if all != [] {
      assert all[|all| - 1] == all[|all| - 1];
      forall k | 0 <= k < |all| ensures all[k].ts <= all[|all| - 1].ts { }
    }
  }

  lemma {:induction false} QueueBounded(ops: seq<Op>, setup: Setup)
    ensures |After(ops, setup).pending| < 512
  {
    if ops != [] {
      QueueBounded(ops[..|ops| - 1], setup);
      hide Trimmed, Merged, Appended, Accepted, Kept, LoadedFrame, Resample, Prices;
    }
  }

  /** No row lies more than the days kept before the last. */
  ghost predicate WithinDays(f: Frame, days: int) {
    days > 0 ==> forall k :: 0 <= k < |f| ==> f[k].ts >= f[|f| - 1].ts - days * 86400
  }

  lemma TrimmedWithin(f: Frame, days: int)
    requires Increasing(f)
    ensures WithinDays(Trimmed(f, days), days)
    ensures Trimmed(f, days) != [] <==> f != []
    ensures f != [] ==> Trimmed(f, days)[|Trimmed(f, days)| - 1] == f[|f| - 1]
  {
    if days > 0 && f != [] {
      var cutoff := f[|f| - 1].ts - days * DAY;
      FromOrder(f, cutoff);
      assert forall k :: 0 <= k < |f| ==> f[0].ts <= f[k].ts;
    }
  }

  /** Moving the queue, loading, and a backfill that changes anything drop what is older than the days kept. */
  lemma OldRowsGo(s: Store, op: Op, setup: Setup)
    requires Increasing(s.bars + s.pending)
    requires op.Load? || op.Backfill? || op.Read?
    ensures var after := Step(s, op, setup);
            || WithinDays(after.bars, setup.lookbackDays)
            || (after.bars == s.bars && s.pending == [])
            || after == s
  {
    hide From, Merged, Trimmed, WithinDays, Accepted, Kept;
    var days := setup.lookbackDays;
    if s.pending != [] {
      AppendedIs(s.bars, s.pending);
      TrimmedWithin(s.bars + s.pending, days);
    }
    match op
    case Load(rows) =>
      var csv := FromCsv(rows);
      SortSays(csv);
      KeepLastOrder(SortIndex(csv));
      TrimmedWithin(KeepLast(SortIndex(csv)), days);
      hide Increasing, KeepLast, SortIndex, FromCsv;
    case Backfill(batch, day, policy) => BackfillWithin(s, batch, day, policy, setup);
    case Read =>
  }

  lemma BackfillWithin(s: Store, batch: Frame, day: Option<int>, policy: Policy, setup: Setup)
    requires Increasing(s.bars + s.pending)
    ensures var after, flushed := MergeBackfill(s, batch, day, policy, setup), Flush(s, setup.lookbackDays);
            WithinDays(after.bars, setup.lookbackDays) || after == flushed || after == s
  {
    hide Merged, Trimmed, WithinDays, Accepted, Kept, Increasing, Flush;
    if batch != [] {
      FlushedIncreasing(s, setup.lookbackDays);
      var flushed := Flush(s, setup.lookbackDays);
      var kept := Kept(flushed.bars, day, policy, setup.localDate);
      KeptOrder(flushed.bars, day, policy, setup.localDate);
      var rows := Accepted(batch, MapOf(kept).Keys, day, policy, setup.localDate);
      MergedSays(kept, rows);
      TrimmedWithin(if rows == [] then kept else Merged(kept, rows), setup.lookbackDays);
    }
  }

  lemma FlushedIncreasing(s: Store, days: int)
    requires Increasing(s.bars + s.pending)
    ensures Increasing(Flush(s, days).bars)
  {
    hide Trimmed, Appended, MapOf;
    var all := s.bars + s.pending;
    if s.pending == [] {
      assert all == s.bars;
    } else {
      AppendedIs(s.bars, s.pending);
      var high := Some(all[|all| - 1].ts);
      LastIn(all);
      TrimmedSays(all, days, high);
    }
  }

  // ---------------------------------------------------------------- reading

  /** Price columns are the rows' bars, time by time. */
  lemma {:induction false} PricesAre(f: Frame)
    ensures |Prices(f)| == |f|
    ensures forall k :: 0 <= k < |f| ==> Prices(f)[k] == Stamped(f[k].ts, f[k].value.bar)
  {
    if f != [] {
      PricesAre(f[..|f| - 1]);
    }
  }

  /** A resample is remembered for the revision it was made at, and asking again changes nothing. */
  lemma ResampleRemembered(s: Store, tf: int, lookback: int)
    requires tf > 0
    ensures var (after, seen) := Resampled(s, tf, lookback);
            && (tf, lookback) in after.cache && after.cache[(tf, lookback)] == (s.revision, seen)
            && (forall k :: k in s.cache && k != (tf, lookback) ==> k in after.cache && after.cache[k] == s.cache[k])
            && after.bars == s.bars && after.pending == s.pending && after.revision == s.revision
            && Resampled(after, tf, lookback) == (after, seen)
  {
    hide Resample, Prices;
  }
}
