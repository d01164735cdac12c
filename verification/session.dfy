/** The flush triggers around the aggregator: ingesting a websocket message,
    the closed-market poll, the shutdown flush, and a run of such events. */
module Session {
  import opened Wrappers
  import opened Aggregator

  /** Seconds between scheduled flushes. */
  const FlushIntervalSeconds: real := 180.0

  /** The scheduled-flush condition shared by the message handler and the
      closed-market poll: three minutes or more since the last flush. */
  predicate Overdue(w: Window, now: real) {
    now - w.lastSent >= FlushIntervalSeconds
  }

  /** The shutdown path flushes a window that holds ticks or is overdue. */
  predicate ShutdownFlushDue(w: Window, now: real) {
    |w.batch| > 0 || Overdue(w, now)
  }

  /** Flush when `due`, otherwise leave the window as it is. `flushNow` is the
      clock reading taken inside the flush, after the guard's own reading. */
  function FlushIf(due: bool, w: Window, flushNow: real): (r: (Option<Summary>, Window))
    ensures !due ==> r == (None, w)
    ensures due ==> r.0 == Some(Flush(w, flushNow).0) && r.1 == Window([], flushNow)
  {
    if due then
      var (s, w') := Flush(w, flushNow);
      (Some(s), w')
    else (None, w)
  }

  /** A decoded message: `None` when it has no "data" key, else its ticks.
      With data, every tick is buffered in order and the window is flushed
      when the guard's clock reading finds it overdue. */
  function OnMessage(w: Window, payload: Option<seq<Tick>>, guardNow: real, flushNow: real)
    : (r: (Option<Summary>, Window))
    ensures payload.None? ==> r == (None, w)
    ensures payload.Some? ==> (r.0.Some? <==> guardNow - w.lastSent >= FlushIntervalSeconds)
    ensures payload.Some? && guardNow - w.lastSent < FlushIntervalSeconds ==>
      r.1 == Window(w.batch + payload.value, w.lastSent)
    ensures payload.Some? && guardNow - w.lastSent >= FlushIntervalSeconds ==>
      && r.1 == Window([], flushNow)
      && r.0 == Some(Summarize(w.batch + payload.value, w.lastSent, flushNow))
  {
    match payload
    case None => (None, w)
    case Some(items) =>
      var w' := Ingest(w, items);
      FlushIf(Overdue(w', guardNow), w', flushNow)
  }

  /** One pass of the main loop while the market is closed: flush (possibly
      an idle "no trades" report) when overdue, else do nothing. */
  function ClosedMarketPoll(w: Window, guardNow: real, flushNow: real): (r: (Option<Summary>, Window))
    ensures r.0.Some? <==> guardNow - w.lastSent >= FlushIntervalSeconds
    ensures r.0.None? ==> r.1 == w
    ensures r.0.Some? ==> r.0 == Some(Summarize(w.batch, w.lastSent, flushNow))
    ensures r.0.Some? && |w.batch| == 0 ==> r.0 == Some(NoTrades(w.lastSent, flushNow))
    ensures r.0.Some? ==> r.1 == Window([], flushNow)
  {
    FlushIf(Overdue(w, guardNow), w, flushNow)
  }

  /** The final flush on SIGINT or SIGTERM: exactly one summary when the
      window holds ticks or is overdue, none otherwise. */
  function Shutdown(w: Window, guardNow: real, flushNow: real): (r: Option<Summary>)
    ensures r.Some? <==> |w.batch| > 0 || guardNow - w.lastSent >= FlushIntervalSeconds
    ensures r.Some? ==> r.value == Summarize(w.batch, w.lastSent, flushNow)
    ensures |w.batch| > 0 ==> r.Some? && r.value.Traded?
    ensures |w.batch| == 0 && r.Some? ==> r.value == NoTrades(w.lastSent, flushNow)
  {
    FlushIf(ShutdownFlushDue(w, guardNow), w, flushNow).0
  }

  /** Shutting down within three minutes of a completed flush reports
      nothing more: the flushed window is not reported a second time. */
  lemma ShutdownAfterFlushIsSilent(w: Window, t: real, guardNow: real, flushNow: real)
    requires guardNow - t < FlushIntervalSeconds
    ensures Shutdown(Flush(w, t).1, guardNow, flushNow) == None
  {
  }

  /** What the process observes between flushes. */
  datatype Event =
    | Message(payload: Option<seq<Tick>>, guardNow: real, flushNow: real)
    | ClosedPoll(guardNow: real, flushNow: real)

  function Step(w: Window, e: Event): (r: (Option<Summary>, Window)) {
    match e
    case Message(p, g, f) => OnMessage(w, p, g, f)
    case ClosedPoll(g, f) => ClosedMarketPoll(w, g, f)
  }

  /** The summaries emitted while processing `es` in order, and the final window. */
  function Run(w: Window, es: seq<Event>): (r: (seq<Summary>, Window))
    decreases |es|
  {
    if |es| == 0 then ([], w)
    else
      var (out, w') := Run(w, es[..|es| - 1]);
      var (s, w'') := Step(w', es[|es| - 1]);
      match s
      case Some(x) => (out + [x], w'')
      case None => (out, w'')
  }

  /** Ticks delivered by the events, in arrival order. */
  function Delivered(es: seq<Event>): (r: seq<Tick>)
    decreases |es|
  {
    if |es| == 0 then []
    else
      var e := es[|es| - 1];
      Delivered(es[..|es| - 1]) + Arrived(e)
  }

  /** The volume a summary reports. */
  function ReportedVolume(s: Summary): (r: nat) {
    if s.Traded? then s.volume else 0
  }

  function ReportedVolumes(ss: seq<Summary>): (r: nat)
    decreases |ss|
  {
    if |ss| == 0 then 0 else ReportedVolumes(ss[..|ss| - 1]) + ReportedVolume(ss[|ss| - 1])
  }

  /** Volume balance of one step: what it reports plus what stays buffered
      is what was buffered plus what arrived. */
  lemma StepConservesVolume(w: Window, e: Event)
    ensures
      var (s, w') := Step(w, e);
      (if s.Some? then ReportedVolume(s.value) else 0) + TotalVolume(w'.batch)
        == TotalVolume(w.batch) + TotalVolume(Arrived(e))
  {
    if e.Message? && e.payload.Some? {
      TotalVolumeAppend(w.batch, e.payload.value);
    }
    assert TotalVolume([]) == 0;
  }

  /** Volume balance of a run: the volume reported by all summaries plus the
      volume still buffered equals the volume initially buffered plus the
      volume delivered. */
  lemma {:induction false} RunConservesVolume(w: Window, es: seq<Event>)
    ensures
      var (out, w') := Run(w, es);
      ReportedVolumes(out) + TotalVolume(w'.batch) == TotalVolume(w.batch) + TotalVolume(Delivered(es))
    decreases |es|
  {
    if |es| == 0 {
      assert TotalVolume([]) == 0;
    } else {
      var init := es[..|es| - 1];
      var e := es[|es| - 1];
      RunConservesVolume(w, init);
      var (out, w1) := Run(w, init);
      StepConservesVolume(w1, e);
      TotalVolumeAppend(Delivered(init), Arrived(e));
      var (s, w2) := Step(w1, e);
      if s.Some? {
        var out' := out + [s.value];
        assert out'[..|out'| - 1] == out;
      }
    }
  }

  /** The ticks an event delivers, in order. */
  function Arrived(e: Event): (r: seq<Tick>) {
    if e.Message? && e.payload.Some? then e.payload.value else []
  }

  /** `b` is what remains at the end of `all`. */
  predicate EndsWith(all: seq<Tick>, b: seq<Tick>) {
    |b| <= |all| && all[|all| - |b|..] == b
  }

  /** A flush as it happened: the window that was reported and the clock
      reading the flush took. */
  datatype FlushRecord = FlushRecord(window: Window, at: real)

  /** Which window, if any, an event flushes: the window after buffering the
      event's ticks, when the event's guard finds it overdue. */
  function StepFlush(w: Window, e: Event): (r: Option<FlushRecord>) {
    var w' := Window(w.batch + Arrived(e), w.lastSent);
    match e
    case Message(p, g, f) =>
      if p.Some? && g - w.lastSent >= FlushIntervalSeconds then Some(FlushRecord(w', f)) else None
    case ClosedPoll(g, f) =>
      if g - w.lastSent >= FlushIntervalSeconds then Some(FlushRecord(w', f)) else None
  }

  /** The window after an event, from the flush bookkeeping alone: empty at
      the flush time after a flush, else the batch followed by the event's ticks. */
  function NextWindow(w: Window, e: Event): (r: Window) {
    match StepFlush(w, e)
    case Some(f) => Window([], f.at)
    case None => Window(w.batch + Arrived(e), w.lastSent)
  }

  /** The window after a sequence of events, from the flush bookkeeping alone. */
  function After(w: Window, es: seq<Event>): (r: Window)
    decreases |es|
  {
    if |es| == 0 then w else NextWindow(After(w, es[..|es| - 1]), es[|es| - 1])
  }

  /** The flushes a run performs, in order. */
  function Flushes(w: Window, es: seq<Event>): (r: seq<FlushRecord>)
    decreases |es|
  {
    if |es| == 0 then []
    else
      var fs := Flushes(w, es[..|es| - 1]);
      match StepFlush(After(w, es[..|es| - 1]), es[|es| - 1])
      case Some(f) => fs + [f]
      case None => fs
  }

  /** The reported windows' ticks, in order. */
  function FlushedTicks(fs: seq<FlushRecord>): (r: seq<Tick>)
    decreases |fs|
  {
    if |fs| == 0 then [] else FlushedTicks(fs[..|fs| - 1]) + fs[|fs| - 1].window.batch
  }

  /** An event flushes exactly when the message handler or the poll reports
      something, and the window it leaves is the one the bookkeeping predicts. */
  lemma StepWindow(w: Window, e: Event)
    ensures StepFlush(w, e).Some? <==> Step(w, e).0.Some?
    ensures Step(w, e).1 == NextWindow(w, e)
  {
  }

  /** What an event reports is the summary of the window it flushes, which
      holds the old batch followed by the event's ticks. */
  lemma StepReports(w: Window, e: Event)
    ensures StepFlush(w, e).Some? ==>
      var f := StepFlush(w, e).value;
      && f.window == Window(w.batch + Arrived(e), w.lastSent)
      && Step(w, e).0 == Some(Summarize(f.window.batch, f.window.lastSent, f.at))
  {
    if !(e.Message? && e.payload.Some?) {
      assert w.batch + Arrived(e) == w.batch;
    }
  }

  /** The run's final window is the one the bookkeeping predicts. */
  lemma {:induction false} RunEndsInAfter(w: Window, es: seq<Event>)
    ensures Run(w, es).1 == After(w, es)
    decreases |es|
  {
    if |es| > 0 {
      var init, e := es[..|es| - 1], es[|es| - 1];
      RunEndsInAfter(w, init);
      StepWindow(Run(w, init).1, e);
    }
  }

  lemma FlushedTicksSnoc(fs: seq<FlushRecord>, f: FlushRecord)
    ensures FlushedTicks(fs + [f]) == FlushedTicks(fs) + f.window.batch
  {
  }

  /** One event, seen through the bookkeeping: the ticks it flushes or keeps
      are the old batch followed by its own. */
  lemma NextWindowKeepsEveryTick(w: Window, e: Event)
    ensures match StepFlush(w, e)
      case Some(f) => f.window.batch == w.batch + Arrived(e) && NextWindow(w, e).batch == []
      case None => NextWindow(w, e).batch == w.batch + Arrived(e)
  {
  }

  lemma {:induction false} AfterKeepsEveryTick(w: Window, es: seq<Event>)
    ensures FlushedTicks(Flushes(w, es)) + After(w, es).batch == w.batch + Delivered(es)
    decreases |es|
  {
    if |es| == 0 {
      assert w.batch + Delivered(es) == w.batch;
    } else {
      var init, e := es[..|es| - 1], es[|es| - 1];
      AfterKeepsEveryTick(w, init);
      var w1 := After(w, init);
      var fs := Flushes(w, init);
      var done := FlushedTicks(fs);
      assert Delivered(es) == Delivered(init) + Arrived(e);
      assert After(w, es) == NextWindow(w1, e);
      NextWindowKeepsEveryTick(w1, e);
      match StepFlush(w1, e)
      case Some(f) =>
        assert Flushes(w, es) == fs + [f];
        FlushedTicksSnoc(fs, f);
        assert done + (w1.batch + Arrived(e)) + [] == (done + w1.batch) + Arrived(e);
      case None =>
        assert Flushes(w, es) == fs;
        assert done + (w1.batch + Arrived(e)) == (done + w1.batch) + Arrived(e);
    }
  }

  /** Every tick is reported exactly once, in order: the reported windows'
      ticks followed by the final buffer are exactly the initial buffer
      followed by every delivered tick. */
  lemma RunReportsEveryTickOnce(w: Window, es: seq<Event>)
    ensures FlushedTicks(Flushes(w, es)) + Run(w, es).1.batch == w.batch + Delivered(es)
  {
    AfterKeepsEveryTick(w, es);
    RunEndsInAfter(w, es);
  }

  /** The window's ticks are always the most recent deliveries: its batch is
      a suffix of everything buffered or delivered so far. */
  lemma RunBatchIsRecentSuffix(w: Window, es: seq<Event>)
    ensures EndsWith(w.batch + Delivered(es), Run(w, es).1.batch)
  {
    RunReportsEveryTickOnce(w, es);
    var x := FlushedTicks(Flushes(w, es));
    var b := Run(w, es).1.batch;
    assert (x + b)[|x|..] == b;
  }

  /** Each summary of a run is the summary of the window its flush recorded. */
  lemma {:induction false} RunSummariesMatchFlushes(w: Window, es: seq<Event>)
    ensures
      var out := Run(w, es).0;
      var fs := Flushes(w, es);
      && |fs| == |out|
      && forall i :: 0 <= i < |fs| ==>
           out[i] == Summarize(fs[i].window.batch, fs[i].window.lastSent, fs[i].at)
    decreases |es|
  {
    if |es| > 0 {
      var init, e := es[..|es| - 1], es[|es| - 1];
      RunSummariesMatchFlushes(w, init);
      RunEndsInAfter(w, init);
      var w1 := Run(w, init).1;
      StepWindow(w1, e);
      StepReports(w1, e);
      var out := Run(w, init).0;
      var fs := Flushes(w, init);
      match StepFlush(w1, e)
      case Some(f) =>
        var s := Step(w1, e).0.value;
        assert Run(w, es).0 == out + [s];
        assert Flushes(w, es) == fs + [f];
      case None =>
        assert Run(w, es).0 == out;
        assert Flushes(w, es) == fs;
    }
  }

  /** The reported windows tile time: each starts at the previous flush (the
      first at the initial last-sent time), and the final buffer starts at
      the last flush. */
  lemma {:induction false} AfterWindowsChain(w: Window, es: seq<Event>)
    ensures
      var fs := Flushes(w, es);
      && (|fs| > 0 ==> fs[0].window.lastSent == w.lastSent)
      && (forall i, j :: 0 <= i && j == i + 1 && j < |fs| ==> fs[j].window.lastSent == fs[i].at)
      && After(w, es).lastSent == (if |fs| == 0 then w.lastSent else fs[|fs| - 1].at)
    decreases |es|
  {
    if |es| > 0 {
      var init, e := es[..|es| - 1], es[|es| - 1];
      AfterWindowsChain(w, init);
      var fs := Flushes(w, init);
      match StepFlush(After(w, init), e)
      case Some(f) =>
        var fs' := fs + [f];
        assert Flushes(w, es) == fs';
        assert forall i :: 0 <= i < |fs| ==> fs'[i] == fs[i];
      case None =>
        assert Flushes(w, es) == fs;
    }
  }

  /** The run's reported windows tile time, and its final window starts at
      the last flush. */
  lemma RunWindowsChain(w: Window, es: seq<Event>)
    ensures
      var fs := Flushes(w, es);
      && (|fs| > 0 ==> fs[0].window.lastSent == w.lastSent)
      && (forall i, j :: 0 <= i && j == i + 1 && j < |fs| ==> fs[j].window.lastSent == fs[i].at)
      && Run(w, es).1.lastSent == (if |fs| == 0 then w.lastSent else fs[|fs| - 1].at)
  {
    AfterWindowsChain(w, es);
    RunEndsInAfter(w, es);
  }
}
