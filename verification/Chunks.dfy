/** Splitting a backtest by session dates into chunks that workers run on their own. */
module Chunks {
  import opened Types
  import opened Sorting

  /** Rounded-up division. */
  function Ceil(n: nat, d: nat): nat
    requires d > 0
  {
    (n + d - 1) / d
  }

  /** Each chunk takes its share of what remains; empty chunks are dropped. */
  function Split(dates: seq<int>, workers: nat): seq<seq<int>>
    decreases workers
  {
    if workers == 0 then []
    else
      CeilBound(|dates|, workers);
      var size := Ceil(|dates|, workers);
      (if size == 0 then [] else [dates[..size]]) + Split(dates[size..], workers - 1)
  }

  lemma CeilBound(n: nat, d: nat)
    requires d > 0
    ensures Ceil(n, d) <= n && (n > 0 ==> Ceil(n, d) > 0)
  {
    if n == 0 {
      assert (d - 1) / d == 0;
    } else {
      DivMod(n + d - 1, d);
      if Ceil(n, d) > n {
        AtLeastOne(Ceil(n, d) - n, d);
        Grows(n, d);
      }
    }
  }

  lemma WholeWorkers(n: nat)
    ensures Ceil(n, 1) == n
  {
  }

  lemma Grows(n: nat, d: nat)
    requires d > 0 && n > 0
    ensures n * d >= n + d - 1
  {
    assert n * d == (n - 1) * d + d;
    if n > 1 { AtLeastOne(d, n - 1); }
  }

  function Joined(chunks: seq<seq<int>>): seq<int> {
    if chunks == [] then [] else chunks[0] + Joined(chunks[1..])
  }

  /** Nothing is lost, repeated or reordered, however many workers there are. */
  lemma {:induction false} SplitJoins(dates: seq<int>, workers: nat)
    requires workers > 0 || dates == []
    ensures Joined(Split(dates, workers)) == dates
    decreases workers
  {
    if workers > 0 {
      CeilBound(|dates|, workers);
      var size := Ceil(|dates|, workers);
      if workers == 1 {
        WholeWorkers(|dates|);
        assert dates[size..] == [];
      }
      SplitJoins(dates[size..], workers - 1);
      var rest := Split(dates[size..], workers - 1);
      assert dates == dates[..size] + dates[size..];
      if size > 0 {
        assert ([dates[..size]] + rest)[1..] == rest;
      } else {
        assert dates[size..] == dates && [] + rest == rest;
      }
    }
  }

  lemma DivIs(x: int, d: int, q: int, r: int)
    requires d > 0 && x == q * d + r && 0 <= r < d
    ensures x / d == q && x % d == r
  {
    DivMod(x, d);
    QuotientUnique(x / d, x % d, q, r, d);
  }

  /** With q whole shares and r dates over, the first share takes one of those over. */
  lemma OneShare(n: nat, workers: nat)
    requires workers > 1
    ensures var q, r := n / workers, n % workers;
            var size := Ceil(n, workers);
            && size == (if r > 0 then q + 1 else q)
            && size <= n
            && (n - size) / (workers - 1) == q
            && (n - size) % (workers - 1) == (if r > 0 then r - 1 else 0)
  {
    CeilBound(n, workers);
    DivMod(n, workers);
    ShareOf(n, workers, n / workers, n % workers);
  }

  lemma ShareOf(n: nat, workers: nat, q: nat, r: nat)
    requires workers > 1 && n == q * workers + r && r < workers
    ensures var size := Ceil(n, workers);
            && size == (if r > 0 then q + 1 else q)
            && (n - size) / (workers - 1) == q
            && (n - size) % (workers - 1) == (if r > 0 then r - 1 else 0)
  {
    var d := workers - 1;
    assert q * workers == q * d + q && (q + 1) * workers == q * workers + workers;
    if r > 0 {
      DivIs(n + d, workers, q + 1, r - 1);
      DivIs(n - (q + 1), d, q, r - 1);
    } else {
      DivIs(n + d, workers, q, d);
      DivIs(n - q, d, q, 0);
    }
  }

  /** With at least a date per worker, every worker gets a chunk and the longer ones come first. */
  lemma {:induction false} SplitBalances(dates: seq<int>, workers: nat)
    requires 1 <= workers <= |dates|
    ensures var chunks := Split(dates, workers);
            var q, r := |dates| / workers, |dates| % workers;
            && |chunks| == workers
            && (forall k :: 0 <= k < workers ==> |chunks[k]| == if k < r then q + 1 else q)
            && q >= 1
    decreases workers
  {
    var n := |dates|;
    CeilBound(n, workers);
    var size := Ceil(n, workers);
    var q, r := n / workers, n % workers;
    if workers == 1 {
      DivMod(n, 1);
      assert size == n;
      assert Split(dates, 1) == [dates[..size]] + Split(dates[size..], 0);
    } else {
      OneShare(n, workers);
      AtLeastOneEach(n, workers);
      SplitBalances(dates[size..], workers - 1);
      var rest := Split(dates[size..], workers - 1);
      assert Split(dates, workers) == [dates[..size]] + rest;
      forall k | 0 <= k < workers ensures |Split(dates, workers)[k]| == if k < r then q + 1 else q {
        if k > 0 {
          assert Split(dates, workers)[k] == rest[k - 1];
        }
      }
    }
  }

  lemma AtLeastOneEach(n: nat, workers: nat)
    requires 1 < workers <= n
    ensures n / workers >= 1 && n - Ceil(n, workers) >= workers - 1
  {
    OneShare(n, workers);
    DivMod(n, workers);
    var q, r := n / workers, n % workers;
    assert q == 0 ==> n == r;
    var m := n - Ceil(n, workers);
    DivMod(m, workers - 1);
    AtLeastOne(q, workers - 1);
  }

  // ---------------------------------------------------------------- windows

  /** Local days as intervals of UTC seconds. */
  datatype Calendar = Calendar(localDate: int -> int, start: int -> int, end: int -> int)

  ghost predicate Regular(c: Calendar) {
    forall ts, d :: c.localDate(ts) == d <==> c.start(d) <= ts <= c.end(d)
  }

  ghost predicate Ordered(c: Calendar) {
    forall x, y :: x <= y ==> c.localDate(x) <= c.localDate(y)
  }

  /** Every date has a moment of its own. */
  ghost predicate Inhabited(c: Calendar, dates: seq<int>) {
    forall k :: 0 <= k < |dates| ==> c.start(dates[k]) <= c.end(dates[k])
  }

  /** From the start of the first date to the end of the last. */
  predicate Active(chunk: seq<int>, ts: int, c: Calendar)
    requires chunk != []
  {
    c.start(chunk[0]) <= ts <= c.end(chunk[|chunk| - 1])
  }

  /** A time is in a chunk's window exactly when its date lies between the chunk's first and last. */
  lemma ActiveByDate(chunk: seq<int>, ts: int, c: Calendar)
    requires Regular(c) && Ordered(c) && Inhabited(c, chunk) && chunk != []
    ensures Active(chunk, ts, c) <==> chunk[0] <= c.localDate(ts) <= chunk[|chunk| - 1]
  {
    var first, last := chunk[0], chunk[|chunk| - 1];
    var d := c.localDate(ts);
    assert c.localDate(c.start(first)) == first && c.localDate(c.end(last)) == last;
    assert ts <= c.start(first) ==> d <= first;
    assert c.end(last) <= ts ==> last <= d;
    assert d == first ==> c.start(first) <= ts;
    assert d == last ==> ts <= c.end(last);
  }

  /** How many chunks' windows hold a time. */
  function Windows(chunks: seq<seq<int>>, ts: int, c: Calendar): nat
    requires forall k :: 0 <= k < |chunks| ==> chunks[k] != []
  {
    if chunks == [] then 0 else (if Active(chunks[0], ts, c) then 1 else 0) + Windows(chunks[1..], ts, c)
  }

  predicate NonEmpty(chunks: seq<seq<int>>) {
    forall k :: 0 <= k < |chunks| ==> chunks[k] != []
  }

  lemma {:induction false} SplitNonEmpty(dates: seq<int>, workers: nat)
    ensures NonEmpty(Split(dates, workers))
    decreases workers
  {
    if workers > 0 {
      CeilBound(|dates|, workers);
      SplitNonEmpty(dates[Ceil(|dates|, workers)..], workers - 1);
    }
  }

  lemma Parts(chunks: seq<seq<int>>, c: Calendar)
    requires NonEmpty(chunks) && chunks != [] && Inhabited(c, Joined(chunks))
    ensures var first, rest, all := chunks[0], chunks[1..], Joined(chunks);
            && NonEmpty(rest) && first != []
            && Inhabited(c, first) && Inhabited(c, Joined(rest))
            && (forall k :: 0 <= k < |first| ==> k < |all| && first[k] == all[k])
            && (forall k :: 0 <= k < |Joined(rest)| ==> |first| + k < |all| && Joined(rest)[k] == all[|first| + k])
            && |all| == |first| + |Joined(rest)|
  {
    var first, rest, all := chunks[0], chunks[1..], Joined(chunks);
    assert all == first + Joined(rest);
    assert forall k :: 0 <= k < |first| ==> first[k] == all[k];
    assert forall k :: 0 <= k < |Joined(rest)| ==> Joined(rest)[k] == all[|first| + k];
  }

  lemma PartsIncrease(chunks: seq<seq<int>>, c: Calendar)
    requires NonEmpty(chunks) && chunks != [] && Inhabited(c, Joined(chunks)) && StrictlyIncreasing(Joined(chunks))
    ensures var first, rest := chunks[0], chunks[1..];
            && first != []
            && StrictlyIncreasing(Joined(rest))
            && (forall k :: 0 <= k < |first| ==> first[0] <= first[k] <= first[|first| - 1])
            && (forall k :: 0 <= k < |Joined(rest)| ==> first[|first| - 1] < Joined(rest)[k])
            && (forall d :: d in Joined(chunks) <==> d in first || d in Joined(rest))
  {
    Parts(chunks, c);
    hide Inhabited, NonEmpty;
    var first, rest, all := chunks[0], chunks[1..], Joined(chunks);
    assert all == first + Joined(rest);
    assert first[0] == all[0] && first[|first| - 1] == all[|first| - 1];
  }

  /** A date of the list lies in exactly one chunk's window. */
  lemma {:induction false} SpansOnce(chunks: seq<seq<int>>, ts: int, c: Calendar)
    requires Regular(c) && Ordered(c) && Inhabited(c, Joined(chunks))
    requires NonEmpty(chunks) && StrictlyIncreasing(Joined(chunks)) && c.localDate(ts) in Joined(chunks)
    ensures Windows(chunks, ts, c) == 1
    decreases |chunks|
  {
    hide Regular, Ordered, Inhabited, StrictlyIncreasing, Active;
    var d, first, rest := c.localDate(ts), chunks[0], chunks[1..];
    Parts(chunks, c);
    PartsIncrease(chunks, c);
    ActiveByDate(first, ts, c);
    hide Joined;
    if d in first {
      var k :| 0 <= k < |first| && first[k] == d;
      NoneLater(rest, ts, c, first[|first| - 1]);
    } else {
      var k :| 0 <= k < |Joined(rest)| && Joined(rest)[k] == d;
      SpansOnce(rest, ts, c);
    }
  }

  lemma {:induction false} NoneLater(chunks: seq<seq<int>>, ts: int, c: Calendar, last: int)
    requires Regular(c) && Ordered(c) && Inhabited(c, Joined(chunks)) && NonEmpty(chunks)
    requires c.localDate(ts) <= last && forall k :: 0 <= k < |Joined(chunks)| ==> last < Joined(chunks)[k]
    ensures Windows(chunks, ts, c) == 0
    decreases |chunks|
  {
    hide Regular, Ordered, Inhabited, Active;
    if chunks != [] {
      Parts(chunks, c);
      ActiveByDate(chunks[0], ts, c);
      assert chunks[0][0] == Joined(chunks)[0];
      NoneLater(chunks[1..], ts, c, last);
    }
  }

  // ---------------------------------------------------------------- building the chunks

  /** Local dates on which the requested window has a bar. */
  function SessionDates(times: seq<int>, start: int, end: int, c: Calendar): set<int> {
    set k | 0 <= k < |times| && start <= times[k] <= end :: c.localDate(times[k])
  }

  function BuildChunks(times: seq<int>, start: int, end: int, workers: int, c: Calendar): seq<seq<int>> {
    var dates := Sorted(SessionDates(times, start, end, c));
    if dates == [] then []
    else
      Split(dates, Min(if workers > 1 then workers else 1, |dates|))
  }

  /** A time on one of the window's dates is active in exactly one chunk. */
  lemma DatedExactlyOnce(times: seq<int>, start: int, end: int, workers: int, c: Calendar, ts: int)
    requires Regular(c) && Ordered(c)
    requires c.localDate(ts) in SessionDates(times, start, end, c)
    ensures var chunks := BuildChunks(times, start, end, workers, c);
            NonEmpty(chunks) && Windows(chunks, ts, c) == 1
  {
    hide Active, Split, SessionDates, Windows;
    var dates := Sorted(SessionDates(times, start, end, c));
    assert c.localDate(ts) in dates;
    var count := Min(if workers > 1 then workers else 1, |dates|);
    SplitJoins(dates, count);
    SplitNonEmpty(dates, count);
    DatesInhabited(times, start, end, c);
    SpansOnce(Split(dates, count), ts, c);
  }

  lemma InWindowIsDated(times: seq<int>, start: int, end: int, c: Calendar, k: nat)
    requires k < |times| && start <= times[k] <= end
    ensures c.localDate(times[k]) in SessionDates(times, start, end, c)
  {
  }

  /** A bar between two of the window's dates is itself in the window. */
  lemma Between(times: seq<int>, start: int, end: int, c: Calendar, k: nat, first: int, last: int)
    requires Ordered(c) && k < |times|
    requires first in SessionDates(times, start, end, c) && last in SessionDates(times, start, end, c)
    requires first < c.localDate(times[k]) < last
    ensures c.localDate(times[k]) in SessionDates(times, start, end, c)
  {
    var x :| 0 <= x < |times| && start <= times[x] <= end && c.localDate(times[x]) == first;
    var y :| 0 <= y < |times| && start <= times[y] <= end && c.localDate(times[y]) == last;
    var d := c.localDate(times[k]);
    assert times[k] <= times[x] ==> d <= first;
    assert times[y] <= times[k] ==> last <= d;
  }

  /** Chunks of dates between which no other bar lies leave it out. */
  lemma {:induction false} UndatedInactive(
    chunks: seq<seq<int>>, times: seq<int>, start: int, end: int, c: Calendar, k: nat)
    requires Regular(c) && Ordered(c) && NonEmpty(chunks) && Inhabited(c, Joined(chunks)) && k < |times|
    requires forall d :: d in Joined(chunks) ==> d in SessionDates(times, start, end, c)
    requires c.localDate(times[k]) !in SessionDates(times, start, end, c)
    ensures Windows(chunks, times[k], c) == 0
    decreases |chunks|
  {
    hide Regular, Ordered, Inhabited, Active, SessionDates;
    if chunks != [] {
      var first := chunks[0];
      Parts(chunks, c);
      ActiveByDate(first, times[k], c);
      assert Joined(chunks)[0] == first[0] && Joined(chunks)[|first| - 1] == first[|first| - 1];
      assert first[0] in Joined(chunks) && first[|first| - 1] in Joined(chunks);
      if first[0] < c.localDate(times[k]) < first[|first| - 1] {
        Between(times, start, end, c, k, first[0], first[|first| - 1]);
      }
      UndatedInactive(chunks[1..], times, start, end, c, k);
    }
  }

  /**
   A bar is active in exactly one chunk if its date has a bar in the requested
   window, as every bar of that window has, and in none otherwise.
   */
  lemma ActiveExactlyOnce(times: seq<int>, start: int, end: int, workers: int, c: Calendar, k: nat)
    requires Regular(c) && Ordered(c) && k < |times|
    ensures var chunks := BuildChunks(times, start, end, workers, c);
            && NonEmpty(chunks)
            && Windows(chunks, times[k], c) == (if c.localDate(times[k]) in SessionDates(times, start, end, c) then 1 else 0)
            && (start <= times[k] <= end ==> Windows(chunks, times[k], c) == 1)
  {
    hide Active, Split, SessionDates, Windows, Regular, Ordered;
    if start <= times[k] <= end { InWindowIsDated(times, start, end, c, k); }
    if c.localDate(times[k]) in SessionDates(times, start, end, c) {
      DatedExactlyOnce(times, start, end, workers, c, times[k]);
    } else {
      var dates := Sorted(SessionDates(times, start, end, c));
      if dates == [] {
        NoWindows(times[k], c);
      } else {
        var count := Min(if workers > 1 then workers else 1, |dates|);
        SplitJoins(dates, count);
        SplitNonEmpty(dates, count);
        DatesInhabited(times, start, end, c);
        UndatedInactive(Split(dates, count), times, start, end, c, k);
      }
    }
  }

  lemma NoWindows(ts: int, c: Calendar)
    ensures Windows([], ts, c) == 0
  {
  }

  const DAY := 86400

  const UTC := Calendar(t => t / DAY, d => d * DAY, d => d * DAY + DAY - 1)

  lemma UtcIsRegular()
    ensures Regular(UTC) && Ordered(UTC)
  {
    forall ts, d ensures UTC.localDate(ts) == d <==> UTC.start(d) <= ts <= UTC.end(d) {
      DivMod(ts, DAY);
    }
  }

  /** Only the later of a day's two bars is asked for; the earlier one is active all the same. */
  lemma OutsideWindowActive(workers: int)
    ensures var chunks := BuildChunks([0, 3600], 3600, 3600, workers, UTC);
            NonEmpty(chunks) && Windows(chunks, 0, UTC) == 1
  {
    UtcIsRegular();
    hide Windows, BuildChunks, Regular, Ordered;
    var times := [0, 3600];
    InWindowIsDated(times, 3600, 3600, UTC, 1);
    assert UTC.localDate(times[0]) == UTC.localDate(times[1]);
    ActiveExactlyOnce(times, 3600, 3600, workers, UTC, 0);
  }

  lemma DatesInhabited(times: seq<int>, start: int, end: int, c: Calendar)
    requires Regular(c)
    ensures Inhabited(c, Sorted(SessionDates(times, start, end, c)))
  {
    var dates := Sorted(SessionDates(times, start, end, c));
    forall n | 0 <= n < |dates| ensures c.start(dates[n]) <= c.end(dates[n]) {
      assert dates[n] in dates;
      assert dates[n] in SessionDates(times, start, end, c);
      var k :| 0 <= k < |times| && start <= times[k] <= end && c.localDate(times[k]) == dates[n];
    }
  }

  lemma FirstChunk(dates: seq<int>, workers: nat, size: nat)
    requires workers > 0 && size == Ceil(|dates|, workers)
    ensures size <= |dates|
    ensures Split(dates, workers)
         == if size == 0 then Split(dates[size..], workers - 1) else [dates[..size]] + Split(dates[size..], workers - 1)
  {
    CeilBound(|dates|, workers);
    hide Ceil;
    var later := Split(dates[size..], workers - 1);
    assert [] + later == later;
  }

  /** One turn of the splitter. */
  lemma SplitStep(dates: seq<int>, start: nat, workers: nat, chunks: seq<seq<int>>)
    requires start <= |dates| && workers > 0
    ensures var size := Ceil(|dates| - start, workers);
            && start + size <= |dates|
            && var chunk := dates[start..start + size];
               chunks + Split(dates[start..], workers)
               == (if chunk != [] then chunks + [chunk] else chunks) + Split(dates[start + size..], workers - 1)
  {
    hide Ceil, Split;
    var size, rest := Ceil(|dates| - start, workers), dates[start..];
    FirstChunk(rest, workers, size);
    assert rest[size..] == dates[start + size..] && rest[..size] == dates[start..start + size];
    if size > 0 {
      var later := Split(dates[start + size..], workers - 1);
      assert chunks + ([rest[..size]] + later) == chunks + [rest[..size]] + later;
    }
  }

  lemma NoWorkers(dates: seq<int>)
    ensures Split(dates, 0) == []
  {
  }

  /** The splitter as it runs, cutting the dates front to back. */
  method SplitDates(dates: seq<int>, workers: nat) returns (chunks: seq<seq<int>>)
    ensures chunks == Split(dates, workers)
    ensures workers > 0 ==> Joined(chunks) == dates
  {
    hide Ceil, Split, Joined;
    chunks := [];
    var start: nat := 0;
    assert dates[start..] == dates && chunks + Split(dates, workers) == Split(dates, workers);
    for index := 0 to workers
      invariant start <= |dates|
      invariant chunks + Split(dates[start..], workers - index) == Split(dates, workers)
    {
      SplitStep(dates, start, workers - index, chunks);
      var size := Ceil(|dates| - start, workers - index);
      var chunk := dates[start..start + size];
      if chunk != [] {
        chunks := chunks + [chunk];
      }
      start := start + size;
    }
    NoWorkers(dates[start..]);
    assert chunks + [] == chunks;
    if workers > 0 {
      SplitJoins(dates, workers);
    }
  }
}
