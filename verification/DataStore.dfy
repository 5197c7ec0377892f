/**
 The one-minute bar store: a sorted frame, a buffer of newer rows not yet in it,
 a revision, and resampled frames remembered by revision. It is compared with a
 plain map in which live bars overwrite and history only fills gaps.
 */
module DataStore {
  import opened Types
  import opened Frames
  import opened Aggregation
  import opened Resampling

  datatype Row = Row(bar: Ohlcv, source: string)

  type Frame = seq<Stamped<Row>>

  datatype Policy = Preserve | LiveProviderWins | OtherPolicy

  const FLUSH_SIZE := 512
  const OFFLINE := "csv"

  /** Parameters of a store: days kept (none dropped when not positive) and the session date of a timestamp. */
  datatype Setup = Setup(lookbackDays: int, localDate: int -> int)

  datatype Store = Store(
    bars: Frame, pending: Frame, revision: nat, cache: map<(int, int), (nat, Candles)>)

  function Prices(f: Frame): Candles {
    if f == [] then [] else Prices(f[..|f| - 1]) + [Stamped(f[|f| - 1].ts, f[|f| - 1].value.bar)]
  }

  function All(s: Store): Frame { s.bars + s.pending }

  function LatestTimestamp(s: Store): Option<int> {
    if s.pending != [] then Some(s.pending[|s.pending| - 1].ts)
    else if s.bars == [] then None
    else Some(s.bars[|s.bars| - 1].ts)
  }

  /** Drops rows more than the given days before the last one. */
  function Trimmed(f: Frame, days: int): Frame {
    if days <= 0 || f == [] then f
    else
      var cutoff := f[|f| - 1].ts - days * DAY;
      if f[0].ts >= cutoff then f else From(f, cutoff)
  }

  function Appended(stored: Frame, pending: Frame): Frame {
    if stored == [] then pending
    else if pending == [] then stored
    else if pending[0].ts > stored[|stored| - 1].ts then stored + pending
    else Merged(stored, pending)
  }

  function Flush(s: Store, days: int): Store {
    if s.pending == [] then s
    else s.(bars := Trimmed(Appended(s.bars, s.pending), days), pending := [])
  }

  function OnBar(s: Store, x: Stamped<Row>, days: int): Store {
    var latest := LatestTimestamp(s);
    var s' :=
      if latest.None? || x.ts > latest.value then
        var queued := s.(pending := s.pending + [x]);
        if |queued.pending| >= FLUSH_SIZE then Flush(queued, days) else queued
      else
        var flushed := Flush(s, days);
        flushed.(bars := Merged(flushed.bars, [x]));
    s'.(revision := s.revision + 1)
  }

  // ---------------------------------------------------------------- backfill

  predicate LiveWins(day: Option<int>, policy: Policy) { day.Some? && policy.LiveProviderWins? }

  /** A stored row that the live provider's history is to replace. */
  predicate Replaced(ts: int, row: Row, day: Option<int>, policy: Policy, localDate: int -> int) {
    LiveWins(day, policy) && localDate(ts) == day.value && row.source == OFFLINE
  }

  function Kept(f: Frame, day: Option<int>, policy: Policy, localDate: int -> int): Frame {
    if f == [] then []
    else
      var init, x := Kept(f[..|f| - 1], day, policy, localDate), f[|f| - 1];
      if Replaced(x.ts, x.value, day, policy, localDate) then init else init + [x]
  }

  /** A row of the batch that may fill a gap. */
  predicate Welcome(x: Stamped<Row>, day: Option<int>, policy: Policy, localDate: int -> int) {
    && !Replaced(x.ts, x.value, day, policy, localDate)
    && !(policy.Preserve? && day.Some? && localDate(x.ts) >= day.value)
  }

  function Accepted(batch: Frame, existing: set<int>, day: Option<int>, policy: Policy, localDate: int -> int): Frame {
    if batch == [] then []
    else
      var init, x := Accepted(batch[..|batch| - 1], existing, day, policy, localDate), batch[|batch| - 1];
      if Welcome(x, day, policy, localDate) && x.ts !in existing then init + [x] else init
  }

  function MergeBackfill(s: Store, batch: Frame, day: Option<int>, policy: Policy, setup: Setup): Store {
    if batch == [] then s
    else
      var flushed := Flush(s, setup.lookbackDays);
      var kept := Kept(flushed.bars, day, policy, setup.localDate);
      var rows := Accepted(batch, MapOf(kept).Keys, day, policy, setup.localDate);
      if rows == [] && |kept| == |flushed.bars| then flushed
      else
        var merged := if rows == [] then kept else Merged(kept, rows);
        flushed.(bars := Trimmed(merged, setup.lookbackDays), revision := s.revision + 1)
  }

  // ---------------------------------------------------------------- reading

  function Bars1m(s: Store, days: int): Frame {
    if days > 0 && s.bars != [] then From(s.bars, s.bars[|s.bars| - 1].ts - days * DAY) else s.bars
  }

  /** Answers from memory when nothing has changed since, and remembers otherwise. */
  function Resampled(s: Store, tf: int, lookback: int): (Store, Candles)
    requires tf > 0
  {
    if (tf, lookback) in s.cache && s.cache[(tf, lookback)].0 == s.revision then (s, s.cache[(tf, lookback)].1)
    else
      var computed := Resample(Prices(s.bars), tf, lookback);
      (s.(cache := s.cache[(tf, lookback) := (s.revision, computed)]), computed)
  }

  function LoadedFrame(rows: Frame, days: int): Frame {
    Trimmed(KeepLast(SortIndex(rows)), days)
  }

  // ---------------------------------------------------------------- runs

  datatype Op =
    | Live(x: Stamped<Row>)
    | Backfill(batch: Frame, day: Option<int>, policy: Policy)
    | Read
    | ReadResampled(tf: int, lookback: int)
    | Load(rows: Frame)

  function FromCsv(rows: Frame): Frame {
    if rows == [] then [] else FromCsv(rows[..|rows| - 1]) + [rows[|rows| - 1].(value := rows[|rows| - 1].value.(source := OFFLINE))]
  }

  function Step(s: Store, op: Op, setup: Setup): Store {
    match op
    case Live(x) => OnBar(s, x, setup.lookbackDays)
    case Backfill(batch, day, policy) => MergeBackfill(s, batch, day, policy, setup)
    case Read => Flush(s, setup.lookbackDays)
    case ReadResampled(tf, lookback) =>
      if tf > 0 then Resampled(Flush(s, setup.lookbackDays), tf, lookback).0 else s
    case Load(rows) =>
      if rows == [] then s
      else s.(bars := LoadedFrame(FromCsv(rows), setup.lookbackDays), pending := [], revision := s.revision + 1)
  }

  const EmptyStore := Store([], [], 0, map[])

  function After(ops: seq<Op>, setup: Setup): Store {
    if ops == [] then EmptyStore else Step(After(ops[..|ops| - 1], setup), ops[|ops| - 1], setup)
  }

  // ---------------------------------------------------------------- what it stands for

  /** The plain map, and the latest time it ever held. */
  datatype Record = Record(rows: map<int, Row>, high: Option<int>)

  function Raised(high: Option<int>, ts: int): Option<int> {
    if high.None? || high.value < ts then Some(ts) else high
  }

  function RaisedAll(high: Option<int>, f: Frame): Option<int> {
    if f == [] then high else Raised(RaisedAll(high, f[..|f| - 1]), f[|f| - 1].ts)
  }

  function KeptRows(m: map<int, Row>, day: Option<int>, policy: Policy, localDate: int -> int): map<int, Row> {
    map t | t in m && !Replaced(t, m[t], day, policy, localDate) :: m[t]
  }

  function RecordStep(r: Record, op: Op, localDate: int -> int): Record {
    match op
    case Live(x) => Record(r.rows[x.ts := x.value], Raised(r.high, x.ts))
    case Backfill(batch, day, policy) =>
      if batch == [] then r
      else
        var kept := KeptRows(r.rows, day, policy, localDate);
        var rows := Accepted(batch, kept.Keys, day, policy, localDate);
        Record(kept + MapOf(rows), RaisedAll(r.high, rows))
    case Read => r
    case ReadResampled(_, _) => r
    case Load(rows) => if rows == [] then r else Record(MapOf(FromCsv(rows)), RaisedAll(None, rows))
  }

  function RecordOf(ops: seq<Op>, localDate: int -> int): Record {
    if ops == [] then Record(map[], None) else RecordStep(RecordOf(ops[..|ops| - 1], localDate), ops[|ops| - 1], localDate)
  }

  // ---------------------------------------------------------------- invariants

  predicate CacheCurrent(s: Store) {
    forall k :: k in s.cache ==>
      && s.cache[k].0 <= s.revision
      && (s.cache[k].0 == s.revision ==> k.0 > 0 && s.pending == [] && s.cache[k].1 == Resample(Prices(s.bars), k.0, k.1))
  }

  predicate Sound(s: Store) { Increasing(All(s)) && CacheCurrent(s) }

  predicate AtOrAfter(t: int, cut: Option<int>) { cut.None? || t >= cut.value }

  /** Two maps say the same from the cut on. */
  ghost predicate AgreeFrom<V(!new)>(a: map<int, V>, b: map<int, V>, cut: Option<int>) {
    forall t :: AtOrAfter(t, cut) ==> (t in a <==> t in b) && (t in a ==> a[t] == b[t])
  }

  function Cut(high: Option<int>, days: int): Option<int> {
    if days <= 0 || high.None? then None else Some(high.value - days * DAY)
  }

  predicate Below<V>(m: map<int, V>, high: Option<int>) {
    forall t :: t in m ==> high.Some? && t <= high.value
  }

  /** The store holds what the record says, at least for the days kept. */
  ghost predicate Tracks(s: Store, r: Record, days: int) {
    && Sound(s)
    && AgreeFrom(MapOf(All(s)), r.rows, Cut(r.high, days))
    && Below(MapOf(All(s)), r.high)
    && Below(r.rows, r.high)
  }

  // ---------------------------------------------------------------- trimming and flushing

  lemma LastIn<V>(f: seq<Stamped<V>>)
    requires f != [] && Increasing(f)
    ensures f[|f| - 1].ts in MapOf(f)
    ensures forall t :: t in MapOf(f) ==> t <= f[|f| - 1].ts
  {
    MapAt(f, |f| - 1);
    forall t | t in MapOf(f) ensures t <= f[|f| - 1].ts {
      MapKeys(f, t);
    }
  }

  lemma TrimmedSays(f: Frame, days: int, high: Option<int>)
    requires Increasing(f) && Below(MapOf(f), high)
    ensures Increasing(Trimmed(f, days))
    ensures AgreeFrom(MapOf(Trimmed(f, days)), MapOf(f), Cut(high, days))
    ensures Below(MapOf(Trimmed(f, days)), high)
    ensures days <= 0 ==> Trimmed(f, days) == f
  {
    hide MapOf, Increasing, From;
    if days > 0 && f != [] {
      var cutoff := f[|f| - 1].ts - days * DAY;
      LastIn(f);
      FromOrder(f, cutoff);
      FromSays(f, cutoff);
    }
  }

  lemma AppendedIs(stored: Frame, pending: Frame)
    requires Increasing(stored + pending) && pending != []
    ensures Appended(stored, pending) == stored + pending
  {
    if stored == [] {
      assert stored + pending == pending;
    } else {
      assert (stored + pending)[|stored| - 1] == stored[|stored| - 1];
      assert (stored + pending)[|stored|] == pending[0];
    }
  }

  lemma FlushTracks(s: Store, r: Record, days: int)
    requires Tracks(s, r, days)
    ensures Tracks(Flush(s, days), r, days) && Flush(s, days).pending == []
  {
    hide MapOf, Increasing, Trimmed, Cut, Resample, Prices, AgreeFrom, Below;
    if s.pending != [] {
      AppendedIs(s.bars, s.pending);
      TrimmedSays(All(s), days, r.high);
      AgreeTransitive(MapOf(Trimmed(All(s), days)), MapOf(All(s)), r.rows, Cut(r.high, days));
      assert All(Flush(s, days)) == Trimmed(All(s), days);
    }
  }

  lemma AgreeTransitive(a: map<int, Row>, b: map<int, Row>, c: map<int, Row>, cut: Option<int>)
    requires AgreeFrom(a, b, cut) && AgreeFrom(b, c, cut)
    ensures AgreeFrom(a, c, cut)
  {
  }

  // ---------------------------------------------------------------- live bars

  /** The cut only moves forward. */
  ghost predicate Later(cut: Option<int>, cut': Option<int>) {
    forall t :: AtOrAfter(t, cut') ==> AtOrAfter(t, cut)
  }

  lemma CutRises(high: Option<int>, high': Option<int>, days: int)
    requires high.Some? ==> high'.Some? && high.value <= high'.value
    ensures Later(Cut(high, days), Cut(high', days))
  {
  }

  lemma AgreeAdd(a: map<int, Row>, b: map<int, Row>, x: map<int, Row>, y: map<int, Row>, cut: Option<int>, cut': Option<int>)
    requires AgreeFrom(a, b, cut) && AgreeFrom(x, y, cut) && Later(cut, cut')
    ensures AgreeFrom(a + x, b + y, cut')
  {
  }

  lemma AgreePut(a: map<int, Row>, b: map<int, Row>, ts: int, row: Row, cut: Option<int>, cut': Option<int>)
    requires AgreeFrom(a, b, cut) && Later(cut, cut')
    ensures AgreeFrom(a[ts := row], b[ts := row], cut')
  {
  }

  lemma BelowPut(m: map<int, Row>, high: Option<int>, ts: int, row: Row)
    requires Below(m, high)
    ensures Below(m[ts := row], Raised(high, ts))
  {
  }

  lemma LatestIsLast(s: Store)
    ensures LatestTimestamp(s) == if All(s) == [] then None else Some(All(s)[|All(s)| - 1].ts)
  {
  }

  lemma QueuedTracks(s: Store, x: Stamped<Row>, r: Record, days: int)
    requires Tracks(s, r, days)
    requires LatestTimestamp(s).None? || x.ts > LatestTimestamp(s).value
    ensures Tracks(
      s.(pending := s.pending + [x], revision := s.revision + 1),
      Record(r.rows[x.ts := x.value], Raised(r.high, x.ts)), days)
  {
    hide MapOf, Increasing, Cut, Resample, Prices, AgreeFrom, Below, Raised, Later;
    assert s.bars + (s.pending + [x]) == All(s) + [x];
    LatestIsLast(s);
    IncreasingSnoc(All(s), x);
    MapSnoc(All(s), x);
    RaisedIs(r.high, x.ts);
    CutRises(r.high, Raised(r.high, x.ts), days);
    AgreePut(MapOf(All(s)), r.rows, x.ts, x.value, Cut(r.high, days), Cut(Raised(r.high, x.ts), days));
    BelowPut(MapOf(All(s)), r.high, x.ts, x.value);
    BelowPut(r.rows, r.high, x.ts, x.value);
  }

  lemma RaisedIs(high: Option<int>, ts: int)
    ensures Raised(high, ts).Some? && Raised(high, ts).value >= ts
    ensures high.Some? ==> high.value <= Raised(high, ts).value
  {
  }

  lemma MergedOneTracks(s: Store, x: Stamped<Row>, r: Record, days: int)
    requires Tracks(s, r, days) && s.pending == []
    ensures Tracks(
      s.(bars := Merged(s.bars, [x]), revision := s.revision + 1),
      Record(r.rows[x.ts := x.value], Raised(r.high, x.ts)), days)
  {
    hide MapOf, Increasing, Cut, Resample, Prices, AgreeFrom, Below, Raised, Later, Merged;
    assert All(s) == s.bars;
    MergedSays(s.bars, [x]);
    MapCons(x, []);
    EmptySays<Row>();
    assert [x] + [] == [x];
    assert MapOf(Merged(s.bars, [x])) == MapOf(s.bars)[x.ts := x.value];
    assert Merged(s.bars, [x]) + [] == Merged(s.bars, [x]);
    RaisedIs(r.high, x.ts);
    CutRises(r.high, Raised(r.high, x.ts), days);
    AgreePut(MapOf(s.bars), r.rows, x.ts, x.value, Cut(r.high, days), Cut(Raised(r.high, x.ts), days));
    BelowPut(MapOf(s.bars), r.high, x.ts, x.value);
    BelowPut(r.rows, r.high, x.ts, x.value);
  }

  lemma OnBarTracks(s: Store, x: Stamped<Row>, r: Record, days: int)
    requires Tracks(s, r, days)
    ensures Tracks(OnBar(s, x, days), Record(r.rows[x.ts := x.value], Raised(r.high, x.ts)), days)
  {
    hide Tracks, Merged, Trimmed, Appended, Raised;
    var r' := Record(r.rows[x.ts := x.value], Raised(r.high, x.ts));
    var latest := LatestTimestamp(s);
    if latest.None? || x.ts > latest.value {
      QueuedTracks(s, x, r, days);
      FlushTracks(s.(pending := s.pending + [x], revision := s.revision + 1), r', days);
    } else {
      FlushTracks(s, r, days);
      MergedOneTracks(Flush(s, days), x, r, days);
    }
  }

  // ---------------------------------------------------------------- backfill

  lemma KeptRowsPut(m: map<int, Row>, x: Stamped<Row>, day: Option<int>, policy: Policy, localDate: int -> int)
    requires x.ts !in m
    ensures KeptRows(m[x.ts := x.value], day, policy, localDate)
         == if Replaced(x.ts, x.value, day, policy, localDate) then KeptRows(m, day, policy, localDate)
            else KeptRows(m, day, policy, localDate)[x.ts := x.value]
  {
    hide Replaced;
  }

  lemma KeptSnoc(init: Frame, x: Stamped<Row>, day: Option<int>, policy: Policy, localDate: int -> int)
    ensures Kept(init + [x], day, policy, localDate)
         == if Replaced(x.ts, x.value, day, policy, localDate) then Kept(init, day, policy, localDate)
            else Kept(init, day, policy, localDate) + [x]
  {
    assert (init + [x])[..|init|] == init;
  }

  lemma {:induction false} KeptOrder(f: Frame, day: Option<int>, policy: Policy, localDate: int -> int)
    requires Increasing(f)
    ensures var k := Kept(f, day, policy, localDate);
            Increasing(k) && (k != [] ==> f != [] && k[|k| - 1].ts <= f[|f| - 1].ts)
  {
    if f != [] {
      hide Replaced, Increasing, Kept, MapOf;
      var init, x := f[..|f| - 1], f[|f| - 1];
      assert f == init + [x];
      KeptSnoc(init, x, day, policy, localDate);
      InitIncreasing(f);
      KeptOrder(init, day, policy, localDate);
      LastOfIncreasing(init, x);
      IncreasingSnoc(Kept(init, day, policy, localDate), x);
    }
  }

  lemma {:induction false} KeptSize(f: Frame, day: Option<int>, policy: Policy, localDate: int -> int)
    ensures var k := Kept(f, day, policy, localDate);
            |k| <= |f| && (|k| == |f| ==> k == f)
  {
    if f != [] {
      hide Replaced, Kept;
      var init, x := f[..|f| - 1], f[|f| - 1];
      assert f == init + [x];
      KeptSnoc(init, x, day, policy, localDate);
      KeptSize(init, day, policy, localDate);
    }
  }

  lemma {:induction false} KeptSays(f: Frame, day: Option<int>, policy: Policy, localDate: int -> int)
    requires Increasing(f)
    ensures MapOf(Kept(f, day, policy, localDate)) == KeptRows(MapOf(f), day, policy, localDate)
  {
    if f == [] {
      EmptySays<Row>();
      NothingKept(day, policy, localDate);
    } else {
      hide Replaced, Increasing, MapOf, KeptRows, Kept;
      var init, x := f[..|f| - 1], f[|f| - 1];
      assert f == init + [x];
      KeptSnoc(init, x, day, policy, localDate);
      InitIncreasing(f);
      KeptSays(init, day, policy, localDate);
      MapSnoc(init, x);
      MapSnoc(Kept(init, day, policy, localDate), x);
      LastOfIncreasing(init, x);
      KeptRowsPut(MapOf(init), x, day, policy, localDate);
    }
  }

  lemma NothingKept(day: Option<int>, policy: Policy, localDate: int -> int)
    ensures KeptRows(map[], day, policy, localDate) == map[]
  {
  }

  lemma AgreeKept(a: map<int, Row>, b: map<int, Row>, cut: Option<int>, day: Option<int>, policy: Policy, localDate: int -> int)
    requires AgreeFrom(a, b, cut)
    ensures AgreeFrom(KeptRows(a, day, policy, localDate), KeptRows(b, day, policy, localDate), cut)
  {
    hide Replaced;
  }

  lemma BelowKept(m: map<int, Row>, high: Option<int>, day: Option<int>, policy: Policy, localDate: int -> int)
    requires Below(m, high)
    ensures Below(KeptRows(m, day, policy, localDate), high)
  {
    hide Replaced;
  }

  lemma {:induction false} AcceptedAgree(
    batch: Frame, a: map<int, Row>, b: map<int, Row>, cut: Option<int>, day: Option<int>, policy: Policy, localDate: int -> int)
    requires AgreeFrom(a, b, cut)
    ensures AgreeFrom(
      MapOf(Accepted(batch, a.Keys, day, policy, localDate)),
      MapOf(Accepted(batch, b.Keys, day, policy, localDate)), cut)
  {
    hide Welcome, MapOf, AtOrAfter;
    if batch != [] {
      var init, x := batch[..|batch| - 1], batch[|batch| - 1];
      AcceptedAgree(init, a, b, cut, day, policy, localDate);
      MapSnoc(Accepted(init, a.Keys, day, policy, localDate), x);
      MapSnoc(Accepted(init, b.Keys, day, policy, localDate), x);
    }
  }

  lemma {:induction false} RaisedAllIs(high: Option<int>, f: Frame)
    ensures Below(MapOf(f), RaisedAll(high, f))
    ensures high.Some? ==> RaisedAll(high, f).Some? && high.value <= RaisedAll(high, f).value
  {
    hide MapOf, Raised;
    if f == [] {
      EmptySays<Row>();
    } else {
      var init, x := f[..|f| - 1], f[|f| - 1];
      RaisedAllIs(high, init);
      RaisedIs(RaisedAll(high, init), x.ts);
      MapSnoc(init, x);
      assert f == init + [x];
    }
  }

  /** Rows the store takes in but the record does not lie before the days kept. */
  lemma BelowMerged(
    kept: map<int, Row>, rows: map<int, Row>, modelled: map<int, Row>, high: Option<int>, high': Option<int>, days: int)
    requires Below(kept, high) && AgreeFrom(rows, modelled, Cut(high, days)) && Below(modelled, high')
    requires high.Some? ==> high'.Some? && high.value <= high'.value
    ensures Below(kept + rows, high')
  {
    forall t | t in rows ensures high'.Some? && t <= high'.value {
      if AtOrAfter(t, Cut(high, days)) {
        assert t in modelled;
      }
    }
  }

  lemma BelowRecord(kept: map<int, Row>, rows: map<int, Row>, high: Option<int>, high': Option<int>)
    requires Below(kept, high) && Below(rows, high')
    requires high.Some? ==> high'.Some? && high.value <= high'.value
    ensures Below(kept + rows, high')
  {
  }

  /** Merging the accepted rows into what was kept, before trimming. */
  lemma MergedTracks(
    kept: Frame, keptRows: map<int, Row>, batch: Frame, high: Option<int>, days: int,
    day: Option<int>, policy: Policy, localDate: int -> int)
    requires Increasing(kept) && AgreeFrom(MapOf(kept), keptRows, Cut(high, days))
    requires Below(MapOf(kept), high) && Below(keptRows, high)
    ensures var rows := Accepted(batch, MapOf(kept).Keys, day, policy, localDate);
            var modelled := Accepted(batch, keptRows.Keys, day, policy, localDate);
            var merged := if rows == [] then kept else Merged(kept, rows);
            var high' := RaisedAll(high, modelled);
            && Increasing(merged)
            && AgreeFrom(MapOf(merged), keptRows + MapOf(modelled), Cut(high', days))
            && Below(MapOf(merged), high')
            && Below(keptRows + MapOf(modelled), high')
  {
    hide MapOf, Increasing, Cut, Below, AgreeFrom, Accepted, RaisedAll, Merged, Later;
    var rows := Accepted(batch, MapOf(kept).Keys, day, policy, localDate);
    var modelled := Accepted(batch, keptRows.Keys, day, policy, localDate);
    var high' := RaisedAll(high, modelled);
    AcceptedAgree(batch, MapOf(kept), keptRows, Cut(high, days), day, policy, localDate);
    RaisedAllIs(high, modelled);
    CutRises(high, high', days);
    AgreeAdd(MapOf(kept), keptRows, MapOf(rows), MapOf(modelled), Cut(high, days), Cut(high', days));
    BelowMerged(MapOf(kept), MapOf(rows), MapOf(modelled), high, high', days);
    BelowRecord(keptRows, MapOf(modelled), high, high');
    MergedSays(kept, rows);
    if rows == [] {
      EmptySays<Row>();
      assert MapOf(kept) + MapOf(rows) == MapOf(kept);
    }
  }

  lemma CacheBumped(s: Store, bars: Frame)
    requires CacheCurrent(s)
    ensures CacheCurrent(s.(bars := bars, revision := s.revision + 1))
  {
    hide Resample, Prices;
  }

  /** A frame that tracks a record goes on doing so in a store of the next revision, trimmed. */
  lemma TrimmedTracks(s: Store, f: Frame, r: Record, days: int)
    requires CacheCurrent(s) && s.pending == []
    requires Increasing(f) && AgreeFrom(MapOf(f), r.rows, Cut(r.high, days)) && Below(MapOf(f), r.high) && Below(r.rows, r.high)
    ensures Tracks(s.(bars := Trimmed(f, days), revision := s.revision + 1), r, days)
  {
    hide MapOf, Increasing, Cut, Below, AgreeFrom, Trimmed, CacheCurrent;
    TrimmedSays(f, days, r.high);
    AgreeTransitive(MapOf(Trimmed(f, days)), MapOf(f), r.rows, Cut(r.high, days));
    CacheBumped(s, Trimmed(f, days));
    assert Trimmed(f, days) + [] == Trimmed(f, days);
  }

  lemma BackfillTracks(
    s: Store, batch: Frame, day: Option<int>, policy: Policy, r: Record, setup: Setup)
    requires Tracks(s, r, setup.lookbackDays) && batch != []
    ensures var r' := RecordStep(r, Backfill(batch, day, policy), setup.localDate);
            Tracks(MergeBackfill(s, batch, day, policy, setup), r', setup.lookbackDays)
  {
    hide MapOf, Increasing, Cut, Below, AgreeFrom, Accepted, RaisedAll, Merged, Trimmed, Kept, KeptRows, Flush, CacheCurrent;
    var days := setup.lookbackDays;
    var flushed := Flush(s, days);
    FlushTracks(s, r, days);
    assert All(flushed) == flushed.bars;
    FlushKeepsRevision(s, days);
    var kept := Kept(flushed.bars, day, policy, setup.localDate);
    var keptRows := KeptRows(r.rows, day, policy, setup.localDate);
    KeptOrder(flushed.bars, day, policy, setup.localDate);
    KeptSize(flushed.bars, day, policy, setup.localDate);
    KeptSays(flushed.bars, day, policy, setup.localDate);
    AgreeKept(MapOf(flushed.bars), r.rows, Cut(r.high, days), day, policy, setup.localDate);
    BelowKept(MapOf(flushed.bars), r.high, day, policy, setup.localDate);
    BelowKept(r.rows, r.high, day, policy, setup.localDate);
    MergedTracks(kept, keptRows, batch, r.high, days, day, policy, setup.localDate);
    var rows := Accepted(batch, MapOf(kept).Keys, day, policy, setup.localDate);
    var r' := RecordStep(r, Backfill(batch, day, policy), setup.localDate);
    var merged := if rows == [] then kept else Merged(kept, rows);
    if rows == [] && |kept| == |flushed.bars| {
      assert flushed.bars == merged;
    } else {
      TrimmedTracks(flushed, merged, r', days);
    }
  }

  lemma FlushKeepsRevision(s: Store, days: int)
    ensures Flush(s, days).revision == s.revision && Flush(s, days).cache == s.cache
  {
  }

  // ---------------------------------------------------------------- every run

  lemma {:induction false} LoadTracks(s: Store, rows: Frame, r: Record, setup: Setup)
    requires Tracks(s, r, setup.lookbackDays)
    ensures Tracks(Step(s, Load(rows), setup), RecordStep(r, Load(rows), setup.localDate), setup.lookbackDays)
  {
    hide MapOf, Increasing, Cut, Below, AgreeFrom, RaisedAll, Trimmed, Resample, Prices, SortIndex, KeepLast, FromCsv;
    if rows != [] {
      var csv := FromCsv(rows);
      var f := KeepLast(SortIndex(csv));
      SortSays(csv);
      KeepLastOrder(SortIndex(csv));
      KeepLastSays(SortIndex(csv));
      RaisedAllIs(None, csv);
      CsvStamps(rows, None);
      TrimmedSays(f, setup.lookbackDays, RaisedAll(None, csv));
      var s' := Step(s, Load(rows), setup);
      assert All(s') == s'.bars;
    }
  }

  lemma {:induction false} CsvStamps(rows: Frame, high: Option<int>)
    ensures RaisedAll(high, FromCsv(rows)) == RaisedAll(high, rows)
  {
    if rows != [] {
      CsvStamps(rows[..|rows| - 1], high);
    }
  }

  lemma ResampledTracks(s: Store, tf: int, lookback: int, r: Record, days: int)
    requires Tracks(s, r, days) && tf > 0 && s.pending == []
    ensures Tracks(Resampled(s, tf, lookback).0, r, days)
    ensures Resampled(s, tf, lookback).1 == Resample(Prices(s.bars), tf, lookback)
  {
    hide MapOf, Increasing, Cut, Below, AgreeFrom, Resample, Prices;
  }

  lemma StepTracks(s: Store, op: Op, r: Record, setup: Setup)
    requires Tracks(s, r, setup.lookbackDays)
    ensures Tracks(Step(s, op, setup), RecordStep(r, op, setup.localDate), setup.lookbackDays)
  {
    hide Tracks, OnBar, MergeBackfill, Flush, Resampled, Accepted, Raised, RaisedAll, LoadedFrame, FromCsv;
    var days := setup.lookbackDays;
    match op
    case Live(x) => OnBarTracks(s, x, r, days);
    case Backfill(batch, day, policy) =>
      if batch != [] { BackfillTracks(s, batch, day, policy, r, setup); } else { NoBackfill(s, day, policy, setup); }
    case Read => FlushTracks(s, r, days);
    case ReadResampled(tf, lookback) =>
      if tf > 0 {
        FlushTracks(s, r, days);
        ResampledTracks(Flush(s, days), tf, lookback, r, days);
      }
    case Load(rows) => LoadTracks(s, rows, r, setup);
  }

  lemma NoBackfill(s: Store, day: Option<int>, policy: Policy, setup: Setup)
    ensures MergeBackfill(s, [], day, policy, setup) == s
  {
  }

  /** Whatever is fed in and read out, in any order, the store holds what the record says. */
  lemma {:induction false} RunsTrack(ops: seq<Op>, setup: Setup)
    ensures Tracks(After(ops, setup), RecordOf(ops, setup.localDate), setup.lookbackDays)
  {
    if ops == [] {
      assert All(EmptyStore) == [];
    } else {
      hide Tracks, Step, RecordStep;
      RunsTrack(ops[..|ops| - 1], setup);
      StepTracks(After(ops[..|ops| - 1], setup), ops[|ops| - 1], RecordOf(ops[..|ops| - 1], setup.localDate), setup);
    }
  }

  // ---------------------------------------------------------------- what readers see

  /** Nothing trimmed: the store is the map, its counters are the map's, and reads give the map in order. */
  lemma StoreIsMap(ops: seq<Op>, setup: Setup)
    requires setup.lookbackDays <= 0
    ensures var s, m := After(ops, setup), RecordOf(ops, setup.localDate).rows;
            && Increasing(All(s))
            && MapOf(All(s)) == m
            && |s.bars| + |s.pending| == |m|
            && Bars1m(Flush(s, setup.lookbackDays), 0) == All(s)
            && (LatestTimestamp(s).None? <==> m == map[])
            && (LatestTimestamp(s).Some? ==> LatestTimestamp(s).value in m)
            && (forall t :: t in m ==> LatestTimestamp(s).Some? && t <= LatestTimestamp(s).value)
  {
    hide After, RecordOf, MapOf, Increasing, Resample, Prices, Below, Trimmed;
    var s, m := After(ops, setup), RecordOf(ops, setup.localDate).rows;
    RunsTrack(ops, setup);
    AgreeEverywhere(MapOf(All(s)), m);
    CountIsSize(All(s));
    LatestIsLast(s);
    if All(s) != [] {
      LastIn(All(s));
    } else {
      EmptySays<Row>();
    }
    if s.pending != [] {
      AppendedIs(s.bars, s.pending);
      TrimmedSays(All(s), setup.lookbackDays, RecordOf(ops, setup.localDate).high);
    } else {
      assert All(s) == s.bars;
    }
  }

  lemma AgreeEverywhere(a: map<int, Row>, b: map<int, Row>)
    requires AgreeFrom(a, b, None)
    ensures a == b
  {
    forall t ensures (t in a <==> t in b) && (t in a ==> a[t] == b[t]) {
      assert AtOrAfter(t, None);
    }
  }

  /** Reading a resampled frame, from memory or not, gives the resample of the bars as they now are. */
  lemma CachedIsCurrent(ops: seq<Op>, tf: int, lookback: int, setup: Setup)
    requires tf > 0
    ensures var s := Flush(After(ops, setup), setup.lookbackDays);
            Resampled(s, tf, lookback).1 == Resample(Prices(s.bars), tf, lookback)
  {
    hide After, RecordOf, Resampled, Resample, Prices, Flush, Tracks;
    RunsTrack(ops, setup);
    FlushTracks(After(ops, setup), RecordOf(ops, setup.localDate), setup.lookbackDays);
    ResampledTracks(Flush(After(ops, setup), setup.lookbackDays), tf, lookback, RecordOf(ops, setup.localDate), setup.lookbackDays);
  }

  /** Only the record matters: how rows arrived, when they were flushed and what was read before do not. */
  lemma SameRecordSameAnswers(a: seq<Op>, b: seq<Op>, tf: int, lookback: int, setup: Setup)
    requires tf > 0 && setup.lookbackDays <= 0
    requires RecordOf(a, setup.localDate).rows == RecordOf(b, setup.localDate).rows
    ensures var x, y := Flush(After(a, setup), setup.lookbackDays), Flush(After(b, setup), setup.lookbackDays);
            x.bars == y.bars && Resampled(x, tf, lookback).1 == Resampled(y, tf, lookback).1
  {
    hide After, RecordOf, MapOf, Increasing, Resampled, Resample, Prices, Flush;
    StoreIsMap(a, setup);
    StoreIsMap(b, setup);
    FrameUnique(All(After(a, setup)), All(After(b, setup)));
    CachedIsCurrent(a, tf, lookback, setup);
    CachedIsCurrent(b, tf, lookback, setup);
  }

  lemma FlushedTracks(ops: seq<Op>, setup: Setup)
    ensures var s := Flush(After(ops, setup), setup.lookbackDays);
            Tracks(s, RecordOf(ops, setup.localDate), setup.lookbackDays) && s.pending == [] && All(s) == s.bars
  {
    hide After, RecordOf, Flush, Tracks;
    RunsTrack(ops, setup);
    FlushTracks(After(ops, setup), RecordOf(ops, setup.localDate), setup.lookbackDays);
  }

  ghost predicate IsLatest(m: map<int, Row>, t: int) {
    t in m && forall u :: u in m ==> u <= t
  }

  /** What a read of some days should give: the record's rows of that many days up to its latest. */
  ghost predicate ShowsWindow(seen: Frame, m: map<int, Row>, days: int) {
    && Increasing(seen)
    && (m == map[] ==> seen == [])
    && (forall t :: IsLatest(m, t) ==> MapOf(seen) == Since(m, t - days * DAY))
  }

  ghost predicate Exact(ops: seq<Op>, days: int, setup: Setup) {
    ShowsWindow(Bars1m(Flush(After(ops, setup), setup.lookbackDays), days), RecordOf(ops, setup.localDate).rows, days)
  }

  /** Nothing is ever trimmed, or the window up to the latest row starts after everything that may have been. */
  ghost predicate WindowKept(r: Record, days: int, lookback: int) {
    || lookback <= 0
    || r.high.None?
    || exists t :: IsLatest(r.rows, t) && t - days * DAY >= r.high.value - lookback * DAY
  }

  /** A read then sees exactly the record's rows of the days asked for. */
  lemma WindowIsExact(ops: seq<Op>, days: int, setup: Setup)
    requires days > 0 && WindowKept(RecordOf(ops, setup.localDate), days, setup.lookbackDays)
    ensures Exact(ops, days, setup)
  {
    hide After, RecordOf, MapOf, Increasing, Resample, Prices, Flush, CacheCurrent, From;
    var r, s := RecordOf(ops, setup.localDate), Flush(After(ops, setup), setup.lookbackDays);
    FlushedTracks(ops, setup);
    EmptySays<Row>();
    if r.high.None? {
      NothingBelow(s.bars);
    } else if setup.lookbackDays <= 0 && s.bars == [] {
      AgreeEverywhere(MapOf(s.bars), r.rows);
    } else {
      var t: int;
      if setup.lookbackDays <= 0 {
        t := s.bars[|s.bars| - 1].ts;
        AgreeEverywhere(MapOf(s.bars), r.rows);
        LastIn(s.bars);
      } else {
        t :| IsLatest(r.rows, t) && t - days * DAY >= r.high.value - setup.lookbackDays * DAY;
      }
      LastAgrees(s.bars, r, t, setup.lookbackDays);
      FromSays(s.bars, t - days * DAY);
      FromOrder(s.bars, t - days * DAY);
      SinceAgrees(MapOf(s.bars), r.rows, t - days * DAY, Cut(r.high, setup.lookbackDays));
    }
  }

  /** A latest row that cannot have been trimmed is the store's last. */
  lemma LastAgrees(f: Frame, r: Record, t: int, lookback: int)
    requires Increasing(f) && AgreeFrom(MapOf(f), r.rows, Cut(r.high, lookback)) && Below(MapOf(f), r.high)
    requires IsLatest(r.rows, t) && r.high.Some? && (lookback <= 0 || t >= r.high.value - lookback * DAY)
    ensures f != [] && f[|f| - 1].ts == t
  {
    hide MapOf, Increasing;
    assert AtOrAfter(t, Cut(r.high, lookback));
    assert t in MapOf(f);
    EmptySays<Row>();
    LastIn(f);
    assert AtOrAfter(f[|f| - 1].ts, Cut(r.high, lookback));
  }

  lemma NothingBelow(f: Frame)
    requires Increasing(f) && Below(MapOf(f), None)
    ensures f == []
  {
    if f != [] {
      LastIn(f);
    }
  }

  lemma SinceAgrees(a: map<int, Row>, b: map<int, Row>, from: int, cut: Option<int>)
    requires AgreeFrom(a, b, cut) && AtOrAfter(from, cut)
    ensures Since(a, from) == Since(b, from)
  {
    forall t | t >= from ensures AtOrAfter(t, cut) {
    }
  }

  // ---------------------------------------------------------------- exactly which windows are safe

  /** A run after which the record's latest row is one time and the latest it ever held another. */
  ghost predicate Reaches(ops: seq<Op>, localDate: int -> int, latest: int, high: int) {
    IsLatest(RecordOf(ops, localDate).rows, latest) && RecordOf(ops, localDate).high == Some(high)
  }

  ghost predicate AlwaysExact(lookback: int, days: int, latest: int, high: int) {
    forall ops: seq<Op>, localDate: int -> int :: Reaches(ops, localDate, latest, high) ==> Exact(ops, days, Setup(lookback, localDate))
  }

  const AnyBar := Ohlcv(1.0, 1.0, 1.0, 1.0, 1.0)

  function OneDay(t: int): int -> int { x => if x == t then 1 else 0 }

  /** Two offline rows, the later of them the next session's, which live history then replaces by an earlier row. */
  function TrimThenReplace(first: int, latest: int, high: int): seq<Op> {
    [Load([LiveRow(first), LiveRow(high)])]
    + if latest == high then [] else [Backfill([LiveRow(latest)], Some(1), LiveProviderWins)]
  }

  function OfflineRow(t: int): Stamped<Row> { Stamped(t, Row(AnyBar, OFFLINE)) }

  function LiveRow(t: int): Stamped<Row> { Stamped(t, Row(AnyBar, "live")) }

  lemma TwoOffline(first: int, high: int)
    requires first < high
    ensures FromCsv([LiveRow(first), LiveRow(high)]) == [OfflineRow(first), OfflineRow(high)]
    ensures MapOf([OfflineRow(first), OfflineRow(high)]) == map[first := Row(AnyBar, OFFLINE), high := Row(AnyBar, OFFLINE)]
    ensures RaisedAll(None, [LiveRow(first), LiveRow(high)]) == Some(high)
  {
    var rows, csv := [LiveRow(first), LiveRow(high)], [OfflineRow(first), OfflineRow(high)];
    assert rows[..1] == [LiveRow(first)] && rows[..1][..0] == [];
    assert csv[..1] == [OfflineRow(first)] && csv[..1][..0] == [];
    assert MapOf(csv[..1]) == map[first := Row(AnyBar, OFFLINE)];
    assert FromCsv(rows[..1]) == [OfflineRow(first)];
    assert RaisedAll(None, rows[..1]) == Some(first);
  }

  /** Loading drops the earlier row when it lies before the days kept. */
  lemma FirstTrimmed(first: int, high: int, lookback: int)
    requires lookback > 0 && first < high - lookback * DAY
    ensures LoadedFrame([OfflineRow(first), OfflineRow(high)], lookback) == [OfflineRow(high)]
  {
    var f := [OfflineRow(first), OfflineRow(high)];
    assert f[..1] == [OfflineRow(first)] && f[..1][..0] == [];
    assert SortIndex(f[..1]) == Insert([], OfflineRow(first)) == [OfflineRow(first)];
    assert SortIndex(f) == Insert([OfflineRow(first)], OfflineRow(high)) == f;
    assert f[1..] == [OfflineRow(high)] && !Occurs(f[1..], first);
    assert f[1..][1..] == [] && KeepLast(f[1..]) == [OfflineRow(high)];
    assert KeepLast(f) == f;
    var cutoff := high - lookback * DAY;
    assert From(f[..1], cutoff) == [];
  }

  lemma LoadedOnly(first: int, high: int, setup: Setup)
    requires setup.lookbackDays > 0 && first < high - setup.lookbackDays * DAY
    ensures var ops := [Load([LiveRow(first), LiveRow(high)])];
            && After(ops, setup) == EmptyStore.(bars := [OfflineRow(high)], revision := 1)
            && RecordOf(ops, setup.localDate)
               == Record(map[first := Row(AnyBar, OFFLINE), high := Row(AnyBar, OFFLINE)], Some(high))
  {
    hide LoadedFrame, FromCsv, RaisedAll, MapOf;
    TwoOffline(first, high);
    FirstTrimmed(first, high, setup.lookbackDays);
    var ops := [Load([LiveRow(first), LiveRow(high)])];
    assert ops[..0] == [];
    assert After(ops[..0], setup) == EmptyStore;
    assert RecordOf(ops[..0], setup.localDate) == Record(map[], None);
  }

  lemma Replacing(s: Store, first: int, latest: int, high: int, lookback: int)
    requires first < latest < high && s.bars == [OfflineRow(high)] && s.pending == [] && lookback > 0
    ensures MergeBackfill(s, [LiveRow(latest)], Some(1), LiveProviderWins, Setup(lookback, OneDay(high))).bars == [LiveRow(latest)]
    ensures MergeBackfill(s, [LiveRow(latest)], Some(1), LiveProviderWins, Setup(lookback, OneDay(high))).pending == []
  {
    var batch, bars, localDate := [LiveRow(latest)], [OfflineRow(high)], OneDay(high);
    assert bars[..0] == [] && batch[..0] == [];
    assert Kept(bars, Some(1), LiveProviderWins, localDate) == [];
    var none: Frame := [];
    assert none + batch == batch;
    assert Accepted(batch, MapOf(none).Keys, Some(1), LiveProviderWins, localDate) == batch;
    assert SortIndex(batch) == Insert([], LiveRow(latest)) == batch;
    assert batch[1..] == [] && KeepLast(batch) == batch;
  }

  lemma RecordReplacing(r: Record, first: int, latest: int, high: int)
    requires first < latest < high
    requires r == Record(map[first := Row(AnyBar, OFFLINE), high := Row(AnyBar, OFFLINE)], Some(high))
    ensures RecordStep(r, Backfill([LiveRow(latest)], Some(1), LiveProviderWins), OneDay(high))
         == Record(map[first := Row(AnyBar, OFFLINE), latest := Row(AnyBar, "live")], Some(high))
  {
    var batch, localDate := [LiveRow(latest)], OneDay(high);
    var kept := KeptRows(r.rows, Some(1), LiveProviderWins, localDate);
    assert kept == map[first := Row(AnyBar, OFFLINE)];
    assert batch[..0] == [];
    assert Accepted(batch, kept.Keys, Some(1), LiveProviderWins, localDate) == batch;
    assert MapOf(batch) == map[latest := Row(AnyBar, "live")];
    assert RaisedAll(Some(high), batch[..0]) == Some(high);
  }

  /** The record and the store after that run. */
  lemma TrimThenReplaceIs(first: int, latest: int, high: int, lookback: int)
    requires lookback > 0 && first < high - lookback * DAY && first < latest <= high
    ensures var s := After(TrimThenReplace(first, latest, high), Setup(lookback, OneDay(high)));
            s.pending == [] && |s.bars| == 1 && s.bars[0].ts == latest
    ensures var r := RecordOf(TrimThenReplace(first, latest, high), OneDay(high));
            r.rows.Keys == {first, latest} && r.high == Some(high)
  {
    hide After, RecordOf, MergeBackfill, KeptRows;
    var setup := Setup(lookback, OneDay(high));
    LoadedOnly(first, high, setup);
    var loaded := [Load([LiveRow(first), LiveRow(high)])];
    if latest == high {
      assert TrimThenReplace(first, latest, high) == loaded;
    } else {
      var op := Backfill([LiveRow(latest)], Some(1), LiveProviderWins);
      assert TrimThenReplace(first, latest, high) == loaded + [op];
      AfterSnoc(loaded, op, setup);
      Replacing(After(loaded, setup), first, latest, high, lookback);
      RecordReplacing(RecordOf(loaded, OneDay(high)), first, latest, high);
    }
  }

  lemma AfterSnoc(ops: seq<Op>, op: Op, setup: Setup)
    ensures After(ops + [op], setup) == Step(After(ops, setup), op, setup)
    ensures RecordOf(ops + [op], setup.localDate) == RecordStep(RecordOf(ops, setup.localDate), op, setup.localDate)
  {
    hide Step, RecordStep;
    assert (ops + [op])[..|ops|] == ops;
  }

  /** Of the record's last days a row is missing in the read. */
  lemma WindowMisses(latest: int, high: int, lookback: int, days: int)
    requires days > 0 && latest <= high && lookback > 0 && latest - days * DAY < high - lookback * DAY
    ensures var ops := TrimThenReplace(latest - days * DAY, latest, high);
            Reaches(ops, OneDay(high), latest, high) && !Exact(ops, days, Setup(lookback, OneDay(high)))
  {
    hide After, RecordOf, From;
    var first := latest - days * DAY;
    TrimThenReplaceIs(first, latest, high, lookback);
    var ops, setup := TrimThenReplace(first, latest, high), Setup(lookback, OneDay(high));
    var r, s := RecordOf(ops, setup.localDate), After(ops, setup);
    assert IsLatest(r.rows, latest);
    FromFew(s.bars, first);
    assert first in Since(r.rows, first);
  }

  lemma FromFew(f: Frame, first: int)
    requires |f| == 1 && f[0].ts > first
    ensures From(f, first) == f && first !in MapOf(f)
  {
    assert f[..0] == [] && f == [f[0]];
  }

  /**
   Reads of some days are right in every run with the given latest row and the
   given latest time ever held, exactly when nothing is trimmed or the window
   starts no earlier than the days kept before that latest time.
   */
  lemma WindowsSafeIff(latest: int, high: int, lookback: int, days: int)
    requires days > 0 && latest <= high
    ensures AlwaysExact(lookback, days, latest, high) <==> lookback <= 0 || latest - days * DAY >= high - lookback * DAY
  {
    hide Exact, RecordOf;
    if lookback <= 0 || latest - days * DAY >= high - lookback * DAY {
      forall ops: seq<Op>, localDate: int -> int | Reaches(ops, localDate, latest, high)
        ensures Exact(ops, days, Setup(lookback, localDate))
      {
        assert IsLatest(RecordOf(ops, localDate).rows, latest);
        WindowIsExact(ops, days, Setup(lookback, localDate));
      }
    } else {
      WindowMisses(latest, high, lookback, days);
    }
  }

  // ---------------------------------------------------------------- runs without such a replacement

  /** The latest row the record ever held is still there. */
  predicate HighStands(r: Record) { r.high.Some? ==> r.high.value in r.rows }

  /** Only a backfill in which the live provider wins can take the latest row away. */
  lemma {:induction false} HighStandsUnlessReplaced(ops: seq<Op>, localDate: int -> int)
    requires forall i :: 0 <= i < |ops| && ops[i].Backfill? ==> !LiveWins(ops[i].day, ops[i].policy)
    ensures HighStands(RecordOf(ops, localDate))
  {
    hide MapOf, Accepted, RaisedAll, Raised;
    if ops != [] {
      var init, op := ops[..|ops| - 1], ops[|ops| - 1];
      assert ops[|ops| - 1] == op;
      HighStandsUnlessReplaced(init, localDate);
      var r := RecordOf(init, localDate);
      match op
      case Live(x) => RaisedStands(r.rows, r.high, x.ts, x.value);
      case Backfill(batch, day, policy) =>
        var kept := KeptRows(r.rows, day, policy, localDate);
        assert kept == r.rows;
        RaisedAllStands(kept, r.high, Accepted(batch, kept.Keys, day, policy, localDate));
      case Load(rows) =>
        RaisedAllStands(map[], None, FromCsv(rows));
        CsvStamps(rows, None);
        assert map[] + MapOf(FromCsv(rows)) == MapOf(FromCsv(rows));
      case Read =>
      case ReadResampled(_, _) =>
    }
  }

  /** So without such a backfill every read of no more days than are kept is right. */
  lemma WindowExactUnlessReplaced(ops: seq<Op>, days: int, setup: Setup)
    requires days > 0 && (setup.lookbackDays > 0 ==> days <= setup.lookbackDays)
    requires forall i :: 0 <= i < |ops| && ops[i].Backfill? ==> !LiveWins(ops[i].day, ops[i].policy)
    ensures Exact(ops, days, setup)
  {
    hide After, RecordOf, MapOf, Exact, Increasing;
    HighStandsUnlessReplaced(ops, setup.localDate);
    RunsTrack(ops, setup);
    var r := RecordOf(ops, setup.localDate);
    if r.high.Some? { assert IsLatest(r.rows, r.high.value); }
    WindowIsExact(ops, days, setup);
  }

  lemma RaisedStands(m: map<int, Row>, high: Option<int>, ts: int, row: Row)
    requires high.Some? ==> high.value in m
    ensures Raised(high, ts).Some? && Raised(high, ts).value in m[ts := row]
  {
  }

  lemma {:induction false} RaisedAllStands(m: map<int, Row>, high: Option<int>, f: Frame)
    requires high.Some? ==> high.value in m
    ensures RaisedAll(high, f).Some? ==> RaisedAll(high, f).value in m + MapOf(f)
  {
    hide MapOf, Raised;
    if f == [] {
      EmptySays<Row>();
    } else {
      var init, x := f[..|f| - 1], f[|f| - 1];
      RaisedAllStands(m, high, init);
      MapSnoc(init, x);
      assert f == init + [x];
      RaisedStands(m + MapOf(init), RaisedAll(high, init), x.ts, x.value);
      assert (m + MapOf(init))[x.ts := x.value] == m + MapOf(f);
    }
  }

  // ---------------------------------------------------------------- what a backfill may change

  lemma {:induction false} AcceptedAre(batch: Frame, existing: set<int>, day: Option<int>, policy: Policy, localDate: int -> int, t: int)
    ensures var m := MapOf(Accepted(batch, existing, day, policy, localDate));
            && (t in m <==> t !in existing && exists i :: 0 <= i < |batch| && batch[i].ts == t && Welcome(batch[i], day, policy, localDate))
            && (t in m ==> Welcome(Stamped(t, m[t]), day, policy, localDate))
  {
    hide Welcome, MapOf;
    if batch == [] {
      EmptySays<Row>();
    } else {
      var init, x := batch[..|batch| - 1], batch[|batch| - 1];
      AcceptedAre(init, existing, day, policy, localDate, t);
      MapSnoc(Accepted(init, existing, day, policy, localDate), x);
      if i :| 0 <= i < |init| && init[i].ts == t && Welcome(init[i], day, policy, localDate) {
        assert batch[i].ts == t && Welcome(batch[i], day, policy, localDate);
      }
      if i :| 0 <= i < |batch| && batch[i].ts == t && Welcome(batch[i], day, policy, localDate) {
        assert i < |init| ==> init[i] == batch[i];
      }
    }
  }

  /**
   Under the preserving policy a backfill changes no row, adds exactly the
   timestamps of its rows that were missing and lie before the session date,
   and under the live-provider policy it leaves no offline row in the session
   and touches no other stored row.
   */
  lemma BackfillChanges(r: Record, batch: Frame, day: Option<int>, policy: Policy, localDate: int -> int, t: int)
    requires batch != []
    ensures var r' := RecordStep(r, Backfill(batch, day, policy), localDate);
            && (policy.Preserve? ==>
                  && (t in r.rows ==> t in r'.rows && r'.rows[t] == r.rows[t])
                  && (t in r'.rows && t !in r.rows <==>
                        && t !in r.rows
                        && (day.Some? ==> localDate(t) < day.value)
                        && exists i :: 0 <= i < |batch| && batch[i].ts == t))
            && (LiveWins(day, policy) ==>
                  && (t in r'.rows && localDate(t) == day.value ==> r'.rows[t].source != OFFLINE)
                  && (t in r.rows && !(localDate(t) == day.value && r.rows[t].source == OFFLINE) ==>
                        t in r'.rows && r'.rows[t] == r.rows[t]))
  {
    hide MapOf, Accepted, RaisedAll;
    AcceptedAre(batch, KeptRows(r.rows, day, policy, localDate).Keys, day, policy, localDate, t);
  }
}
