/** The three-minute window aggregator: buffered ticks and the OHLCV summary
    produced when the window is flushed. */
module Aggregator {
  import opened Wrappers

  /** Ticks arrive as epoch milliseconds; the summary reports seconds. */
  const MillisPerSecond: real := 1000.0

  /** One trade from the feed: price `p`, optional volume `v`, epoch-millisecond time `t`. */
  datatype Tick = Tick(price: real, volume: Option<nat>, timeMs: int)

  /** A tick's volume, with a missing `v` counting as zero. */
  function Volume(t: Tick): (r: nat) {
    t.volume.GetOr(0)
  }

  /** A tick's time in epoch seconds. */
  function Seconds(t: Tick): (r: real) {
    t.timeMs as real / MillisPerSecond
  }

  /** What a flush reports: either an idle interval or the window's OHLCV. */
  datatype Summary =
    | NoTrades(start: real, end: real)
    | Traded(open: real, high: real, low: real, close: real, volume: nat,
             firstTime: real, lastTime: real)

  /** The aggregator's state: ticks buffered since the last flush, in arrival
      order, and the epoch-second time of that flush. */
  datatype Window = Window(batch: seq<Tick>, lastSent: real)

  function Max(x: real, y: real): (r: real) { if x < y then y else x }
  function Min(x: real, y: real): (r: real) { if y < x then y else x }

  /** The highest price, scanning left to right as Python's `max` does. */
  function MaxPrice(s: seq<Tick>): (r: real)
    requires |s| > 0
    ensures forall i :: 0 <= i < |s| ==> s[i].price <= r
    ensures exists i :: 0 <= i < |s| && s[i].price == r
    decreases |s|
  {
    if |s| == 1 then s[0].price
    else
      var m := MaxPrice(s[..|s| - 1]);
      if s[|s| - 1].price > m then s[|s| - 1].price else m
  }

  /** The lowest price, scanning left to right as Python's `min` does. */
  function MinPrice(s: seq<Tick>): (r: real)
    requires |s| > 0
    ensures forall i :: 0 <= i < |s| ==> r <= s[i].price
    ensures exists i :: 0 <= i < |s| && s[i].price == r
    decreases |s|
  {
    if |s| == 1 then s[0].price
    else
      var m := MinPrice(s[..|s| - 1]);
      if s[|s| - 1].price < m then s[|s| - 1].price else m
  }

  /** The sum of all volumes, added left to right as Python's `sum` does. */
  function TotalVolume(s: seq<Tick>): (r: nat)
    decreases |s|
  {
    if |s| == 0 then 0 else TotalVolume(s[..|s| - 1]) + Volume(s[|s| - 1])
  }

  /** The summary of a window: "no trades" over the idle interval when the
      batch is empty, otherwise open/close by arrival order, high/low as the
      extreme prices, summed volume and the first and last tick times. */
  function Summarize(batch: seq<Tick>, lastSent: real, now: real): (r: Summary)
    ensures r.NoTrades? <==> |batch| == 0
    ensures r.NoTrades? ==> r.start == lastSent && r.end == now
    ensures r.Traded? ==>
      && r.open == batch[0].price
      && r.close == batch[|batch| - 1].price
      && r.firstTime == Seconds(batch[0])
      && r.lastTime == Seconds(batch[|batch| - 1])
    ensures r.Traded? ==>
      && (forall i :: 0 <= i < |batch| ==> r.low <= batch[i].price <= r.high)
      && (exists i :: 0 <= i < |batch| && batch[i].price == r.high)
      && (exists i :: 0 <= i < |batch| && batch[i].price == r.low)
    ensures r.Traded? ==> r.low <= r.open <= r.high && r.low <= r.close <= r.high
    ensures r.Traded? ==> r.volume == TotalVolume(batch)
  {
    if |batch| == 0 then NoTrades(lastSent, now)
    else
      Traded(batch[0].price, MaxPrice(batch), MinPrice(batch), batch[|batch| - 1].price,
             TotalVolume(batch), Seconds(batch[0]), Seconds(batch[|batch| - 1]))
  }

  /** Flushing reports the window and starts a new, empty one at `now`. */
  function Flush(w: Window, now: real): (r: (Summary, Window))
    ensures r.1.batch == [] && r.1.lastSent == now
    ensures r.0.NoTrades? <==> |w.batch| == 0
    ensures r.0.NoTrades? ==> r.0 == NoTrades(w.lastSent, now)
    ensures r.0.Traded? ==> r.0 == Summarize(w.batch, w.lastSent, now)
  {
    (Summarize(w.batch, w.lastSent, now), Window([], now))
  }

  /** Buffering ticks keeps their arrival order and leaves the flush time alone. */
  function Ingest(w: Window, items: seq<Tick>): (r: Window)
    ensures r.lastSent == w.lastSent
    ensures |r.batch| == |w.batch| + |items|
    ensures r.batch[..|w.batch|] == w.batch && r.batch[|w.batch|..] == items
  {
    Window(w.batch + items, w.lastSent)
  }

  /** Two summaries of adjacent non-empty windows combine into the summary of
      the whole: open and first time from the earlier, close and last time
      from the later, extremes and volumes combined. */
  function Merge(a: Summary, b: Summary): (r: Summary)
    requires a.Traded? && b.Traded?
  {
    Traded(a.open, Max(a.high, b.high), Min(a.low, b.low), b.close,
           a.volume + b.volume, a.firstTime, b.lastTime)
  }

  lemma {:induction false} MaxPriceAppend(a: seq<Tick>, b: seq<Tick>)
    requires |a| > 0 && |b| > 0
    ensures MaxPrice(a + b) == Max(MaxPrice(a), MaxPrice(b))
    decreases |b|
  {
    var ab := a + b;
    assert ab[..|ab| - 1] == a + b[..|b| - 1];
    assert ab[|ab| - 1] == b[|b| - 1];
    if |b| > 1 {
      MaxPriceAppend(a, b[..|b| - 1]);
    } else {
      assert ab[..|ab| - 1] == a;
    }
  }

  lemma {:induction false} MinPriceAppend(a: seq<Tick>, b: seq<Tick>)
    requires |a| > 0 && |b| > 0
    ensures MinPrice(a + b) == Min(MinPrice(a), MinPrice(b))
    decreases |b|
  {
    var ab := a + b;
    assert ab[..|ab| - 1] == a + b[..|b| - 1];
    assert ab[|ab| - 1] == b[|b| - 1];
    if |b| > 1 {
      MinPriceAppend(a, b[..|b| - 1]);
    } else {
      assert ab[..|ab| - 1] == a;
    }
  }

  /** Volume is additive over concatenated batches, so no tick is counted twice or lost. */
  lemma {:induction false} TotalVolumeAppend(a: seq<Tick>, b: seq<Tick>)
    ensures TotalVolume(a + b) == TotalVolume(a) + TotalVolume(b)
    decreases |b|
  {
    if |b| == 0 {
      assert a + b == a;
    } else {
      var ab := a + b;
      assert ab[..|ab| - 1] == a + b[..|b| - 1];
      assert ab[|ab| - 1] == b[|b| - 1];
      TotalVolumeAppend(a, b[..|b| - 1]);
    }
  }

  /** Splitting a window at any point and merging the two halves' summaries
      gives the summary of the whole window. */
  lemma SummarizeConcat(a: seq<Tick>, b: seq<Tick>, lastSent: real, mid: real, now: real)
    requires |a| > 0 && |b| > 0
    ensures Summarize(a + b, lastSent, now)
         == Merge(Summarize(a, lastSent, mid), Summarize(b, mid, now))
  {
    MaxPriceAppend(a, b);
    MinPriceAppend(a, b);
    TotalVolumeAppend(a, b);
  }

  /** A flush empties the window, so a second flush reports the interval
      between the two as idle, whatever the first one saw. */
  lemma FlushTwice(w: Window, t1: real, t2: real)
    ensures Flush(Flush(w, t1).1, t2) == (NoTrades(t1, t2), Window([], t2))
  {
  }

  /** A single-pass loop computing all of OHLCV at once, proved equal to
      `Summarize`. */
  method SummarizeOnePass(batch: seq<Tick>, lastSent: real, now: real) returns (r: Summary)
    ensures r == Summarize(batch, lastSent, now)
  {
    if |batch| == 0 {
      return NoTrades(lastSent, now);
    }
    var high := batch[0].price;
    var low := batch[0].price;
    var volume: nat := Volume(batch[0]);
    assert batch[..1][..0] == [];
    var i := 1;
    while i < |batch|
      invariant 1 <= i <= |batch|
      invariant high == MaxPrice(batch[..i])
      invariant low == MinPrice(batch[..i])
      invariant volume == TotalVolume(batch[..i])
    {
      var p := batch[i].price;
      assert batch[..i + 1][..i] == batch[..i];
      if p > high {
        high := p;
      }
      if p < low {
        low := p;
      }
      volume := volume + Volume(batch[i]);
      i := i + 1;
    }
    assert batch[..|batch|] == batch;
    r := Traded(batch[0].price, high, low, batch[|batch| - 1].price,
                volume, Seconds(batch[0]), Seconds(batch[|batch| - 1]));
  }

  /** The worked example: prices 100, 105, 95, 102 with volumes 10, 20, none,
      5 flushed at 180 s summarize to O 100, H 105, L 95, C 102, volume 35. */
  lemma ExampleWindow()
    ensures
      var batch := [Tick(100.0, Some(10), 0), Tick(105.0, Some(20), 60000),
                    Tick(95.0, None, 120000), Tick(102.0, Some(5), 170000)];
      Summarize(batch, 0.0, 180.0) == Traded(100.0, 105.0, 95.0, 102.0, 35, 0.0, 170.0)
  {
    var t0, t1 := Tick(100.0, Some(10), 0), Tick(105.0, Some(20), 60000);
    var t2, t3 := Tick(95.0, None, 120000), Tick(102.0, Some(5), 170000);
    var batch := [t0, t1, t2, t3];
    // High and low follow from being attained bounds; only the volume needs unfolding.
    assert [t0][..0] == [] && [t0, t1][..1] == [t0];
    assert [t0, t1, t2][..2] == [t0, t1] && batch[..3] == [t0, t1, t2];
    assert TotalVolume([t0]) == 10;
    assert TotalVolume([t0, t1]) == 30;
    assert TotalVolume([t0, t1, t2]) == 30;
    assert TotalVolume(batch) == 35;
  }
}
