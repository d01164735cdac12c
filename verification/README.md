# stock_price_info — a Dafny model of the QQQ tick aggregator

The program subscribes to a Finnhub websocket for QQQ trades and buffers every
tick it receives. While connected, a flush is triggered only by an incoming
message or by shutdown. When a message with data arrives and three minutes or more have passed since
the last flush, the program posts an OHLCV summary to Slack (open, high, low,
close, total volume). If the buffer is empty at that moment, it posts a
"no trades" notice for the interval. A quiet interval posts nothing by itself:
the first tick after it is folded into the overdue window.

Before the market first opens, the main loop polls once a minute. Each poll
flushes once three minutes have passed since the last flush. Only `on_message`
appends ticks (main.py:126), and it runs only inside `run_websocket`, so that
flush always posts a "no trades" notice. After the market opens, `run_websocket` (main.py:160-176)
loops while `running` and never returns. So the market check at main.py:187 and
the closed-market branch at main.py:192-196 never run again. From then on,
flushes come only from messages and from shutdown. On SIGINT or SIGTERM the
program flushes once more if the buffer holds ticks or three minutes have
passed, and then exits.

This project models that logic in `main.py` as pure functions over immutable values:

- `Schedule` (`schedule.dfy`) is the market-hours gate `is_market_open`. It takes
  the weekday and the wall-clock time already in US/Eastern. The time has
  microsecond precision, because `datetime.now()` keeps microseconds while the
  two bells are zeroed.
- `Aggregator` (`aggregator.dfy`) holds the `Tick`, the `Summary`
  (`NoTrades(start, end)` or `Traded(open, high, low, close, volume, firstTime, lastTime)`)
  and the `Window` state. The window is the global pair `batch_data` /
  `last_sent_time`. `Flush` is `process_batch_and_send` without the message
  formatting and the Slack call.
- `Session` (`session.dfy`) holds the three flush triggers:
  - the websocket message handler `on_message`;
  - the closed-market branch of the main loop;
  - the shutdown handler.

  It also has `Run`, which folds a sequence of message and closed-market-poll
  events, and `Flushes`, which records each window a run flushes. The lemmas
  about them state:
  - the flushed windows' ticks followed by the final buffer are exactly the
    initial buffer followed by every delivered tick, in order;
  - each summary is the summary of its window;
  - consecutive windows start where the previous flush ended.

  `Run` accepts closed-market polls after messages, and so polls on a non-empty
  batch. The source never produces either, so `Run` covers a superset of the
  source's runs.
- `Wrappers` (`wrappers.dfy`) is `Option`, used for an absent `"v"` field, an
  absent `"data"` key and a flush that did not happen.

Times are epoch seconds as `real`, as `time.time()` returns them. A tick's `t` is in
epoch milliseconds, and its seconds are `t / 1000`. Prices are `real`.
Volumes are `nat`, and a missing `v` counts as 0. The clock is a parameter. Each guard
reads `time.time()` once, and `process_batch_and_send` reads it again (main.py:78).
So every trigger takes two readings: `guardNow` for the 180-second test and
`flushNow` for the flush. Nothing orders them, because the wall clock may step backwards.

## Model

| member | source | states |
|---|---|---|
| `Schedule.IsMarketOpen` | main.py:55-63 | Closed on Saturday and Sunday (weekday ≥ 5). On Monday to Friday, open iff 09:30:00.000000 ≤ now ≤ 16:00:00.000000, both inclusive, with the clock fields compared in order as same-date datetimes compare |
| `Schedule.NotAfterIsMicrosOrder` | main.py:61-63 | Comparing hour, minute, second and microsecond in order is the same as comparing microseconds since midnight |
| `Schedule.MarketHoursBoundaries` | main.py:58-63 | Wednesday 10:00 is open and both bells are open. 16:00:00.000001, 16:00:01 and 09:29:59.999999 are closed, and so are Saturday and Sunday |
| `Aggregator.MaxPrice` | main.py:98 | The high is at least every buffered price and equals one of them |
| `Aggregator.MinPrice` | main.py:99 | The low is at most every buffered price and equals one of them |
| `Aggregator.Summarize` | main.py:82-104 | An empty batch gives "no trades" from the last flush time to the flush time, and no OHLC. Otherwise open and close are the first and last prices in arrival order, and low ≤ every price ≤ high, with both extremes occurring in the batch. The volume is `TotalVolume` of the batch: each tick's `Volume`, with an absent `v` as 0. The first and last times are `Seconds` (`t/1000`) of the first and last ticks in arrival order |
| `Aggregator.Flush` | main.py:76-117 | Afterwards the batch is empty and the last-sent time is the flush time. The report is "no trades" over `lastSent..now` exactly when the batch was empty, and otherwise `Summarize` of the batch |
| `Aggregator.Ingest` | main.py:124-126 | The new batch is the old batch followed by the items, in order. The last-sent time does not change |
| `Aggregator.MaxPriceAppend` | main.py:98 | The high of a concatenation is the larger of the two parts' highs |
| `Aggregator.MinPriceAppend` | main.py:99 | The low of a concatenation is the smaller of the two parts' lows |
| `Aggregator.TotalVolumeAppend` | main.py:94-101 | `TotalVolume` is additive over concatenated batches, with an absent volume counted as 0 |
| `Aggregator.SummarizeConcat` | main.py:93-104 | Splitting a non-empty window into two non-empty parts and merging their summaries gives the summary of the whole window |
| `Aggregator.FlushTwice` | main.py:82-117 | A second flush after a flush reports "no trades" between the two flush times, and it leaves the same empty state with the later time. Flushing is idempotent on state apart from the time |
| `Aggregator.SummarizeOnePass` | main.py:93-101 | A single left-to-right pass that tracks high, low and volume computes the same summary as `Summarize` |
| `Aggregator.ExampleWindow` | main.py:93-101 | Prices 100, 105, 95, 102 with volumes 10, 20, absent, 5 summarize to O 100, H 105, L 95, C 102, volume 35, times 0 s to 170 s |
| `Session.FlushIf` | main.py:130-131 | A guarded call of `process_batch_and_send`, the shape used at main.py:130-131, 154-155 and 194-195. When the guard is false, nothing is reported and the window is unchanged. When it is true, the report is the window's flush summary and the window restarts empty at the flush time |
| `Session.OnMessage` | main.py:121-131 | A message without "data" changes nothing. With data, it flushes iff `guardNow - lastSent ≥ 180` (the `Overdue` guard). Without a flush, the new batch is the old batch followed by the items and the last-sent time is unchanged. With a flush, the report is `Summarize` of old batch ++ items and the window restarts empty at the flush time |
| `Session.ClosedMarketPoll` | main.py:192-195 | Flushes iff ≥ 180 s have elapsed (the `Overdue` guard), and otherwise leaves the window untouched. The report is `Summarize` of the buffered window, which is "no trades" over `lastSent..flushNow` when the batch is empty |
| `Session.Shutdown` | main.py:154-155 | Flushes iff the batch is non-empty or ≥ 180 s have elapsed (the `ShutdownFlushDue` guard). The report is `Summarize` of the window: a traded summary for a non-empty batch, a "no trades" notice for an empty one |
| `Session.ShutdownAfterFlushIsSilent` | main.py:116-155 | Shutting down less than 180 s after a completed flush reports nothing, so that flushed window is not reported again |
| `Session.StepConservesVolume` | main.py:121-131 | In one event, the reported volume plus the volume still buffered equals the volume buffered before plus the volume that arrived |
| `Session.RunConservesVolume` | main.py:121-131 | Over any `Run` of messages and closed-market polls, the reported volume plus the buffered volume equals the initial buffered volume plus all delivered volume. This is a balance of volumes only: ticks without `v` are invisible to it |
| `Session.StepWindow` | main.py:124-131 | An event flushes exactly when its handler reports something. The window it leaves is empty at the flush time after a flush, and otherwise the old batch followed by the event's ticks |
| `Session.StepReports` | main.py:124-131 | An event that flushes reports `Summarize` of the window holding the old batch followed by its own ticks, from the old last-sent time to the flush time |
| `Session.RunEndsInAfter` | main.py:121-131 | The final window of `Run` is the one the flush bookkeeping `After` predicts |
| `Session.RunReportsEveryTickOnce` | main.py:121-131 | Every tick is reported exactly once, in order: the ticks of the windows `Run` flushed, followed by the final buffer, are exactly the initial buffer followed by every delivered tick |
| `Session.RunSummariesMatchFlushes` | main.py:121-131 | `Run` emits one summary per recorded flush, and summary i is `Summarize` of flushed window i over its last-sent time and flush time |
| `Session.RunWindowsChain` | main.py:116-131 | The first flushed window starts at the initial last-sent time, and each later one starts at the previous flush time. The final window starts at the last flush time |
| `Session.RunBatchIsRecentSuffix` | main.py:124-131 | After any `Run`, the buffer is a suffix of everything buffered or delivered. This is a corollary of `RunReportsEveryTickOnce` |

## Left out

- Environment loading and the credential checks that exit with status 1 (main.py:14-42): process-level I/O.
- The Slack client and `send_to_slack` (main.py:45, 67-72): a network call. The model produces the `Summary` handed to it and does not model delivery or its logged failure.
- Flush: "afterwards the batch is empty" assumes the send returns normally. `send_to_slack` catches only `SlackApiError` (main.py:71). Any other exception, such as a connection error, skips main.py:116-117. The batch and `last_sent_time` are then kept, so the same ticks are reported again, with later ones, at the next trigger. In the closed-market branch such an exception also ends the main loop. The model does not represent exceptions.
- Message text (main.py:79-80, 84-89, 103-112): `strftime` in the local zone and `:.2f` float formatting are library calls. The model keeps the values the text is built from.
- JSON decoding (main.py:123): a library call. A message is modelled as already decoded: `None` when it has no "data" key, else its ticks. A malformed message raises in the source, and the model does not model that. An item without "p" or "t" is buffered and raises a `KeyError` only at the flush (main.py:93-95). That also skips the reset at main.py:116-117, so every later flush raises again. The model's ticks always carry a price and a time.
- Python float rounding: times and prices are exact reals. The `t / 1000` division and the 180-second subtraction are exact here.
- The `on_error`, `on_close` and `on_open` callbacks, the subscribe message and the `run_websocket` reconnect loop with its fixed 5 s sleep (main.py:134-176): network I/O. The code has no backoff, jitter, attempt limit or cooldown, so the model has none.
- Signal registration, `running = False`, `ws_instance.close()`, `sys.exit(0)`, the outer `while running` loop and `time.sleep(60)` (main.py:148-156, 180-198): OS signals and sleeping. The model keeps only the flush guards at main.py:154 and main.py:194, and the flush each one triggers.
- ShutdownAfterFlushIsSilent: the model treats a flush as atomic. In the source, `signal_handler` runs on the main thread between bytecodes, possibly in the middle of `process_batch_and_send`. A signal after `send_to_slack` (main.py:113) but before `batch_data = []` (main.py:116) sees a non-empty batch at main.py:154, so the same OHLCV is posted twice. A signal between main.py:116 and main.py:117 posts "no trades" over an interval just reported. The no-double-report statements (`ShutdownAfterFlushIsSilent`, `RunReportsEveryTickOnce`) hold only for flushes that are not interrupted this way.
- The pytz conversion to US/Eastern (main.py:56-57): a time-zone library. `Schedule.IsMarketOpen` takes the local weekday and clock time as inputs.
