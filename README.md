# deep_orderbook recorder: buffers and flush scheduler

This project models the writing side of the deep_orderbook market-data recorder
(`deep_orderbook/recorder.py`) and proves properties of it:

- **Per-market buffers.** The `Writer` keeps one list of depth messages per market
  (`store`) and one list of aggregated-trade messages per market (`tradestore`). The
  feed callbacks `on_depth` and `on_aggtrades` append to them.
- **The flush.** `save_snapshot(cur_ts, prev_ts)` goes through the markets in order.
  For each one it takes the two buffers, empties them, zeroes the market's message
  counter, and writes an `_update.json` and a `_trades.json` file. Both files are named by
  `prev_ts`. Unless `cur_ts` is 0, it then writes one `_snapshot.json` order-book file per
  market, named by `cur_ts`.
- **The writing loop.** `run_writer` wakes on multiples of `PERIOD_L2 = 10` seconds and
  computes the save bucket `ti // SAVE_PERIOD * SAVE_PERIOD`. It flushes when the bucket
  has advanced past `th`; the first flush is special. The loop stops:
  - with no flush, when the socket manager is dead;
  - with one closing flush `save_snapshot(0, prev_th)`, at the stop time;
  - through the exception handler, on a division by a zero period.

The model has three modules:

- `Naming` covers file names: the colon-to-dash replacement of the ISO timestamp, and the
  per-market paths under `<data_folder>/L2`.
- `Schedule` covers the wake-up delay, the bucket (with Python's floor division), one
  iteration of the loop as a pure transition `Step`, and the reference run `Run` over a trace
  of clock readings. It proves the properties every run has.
- `Recorder` is the `Writer` class. Its fields are `store`, `tradestore` and `nummsg`, plus
  a ghost `log` of every file written. Its methods are the callbacks, the two loops of
  `save_snapshot`, one iteration of `run_writer`, and `run_writer` itself.
  - `RunWriter` is proved to perform exactly the flushes of `Run`, in the same iterations, to end as it does
    after the same number of iterations, and
    to write exactly those flushes' files (`FlushedLog`), one flush after the other.
  - It is also proved to keep a conservation invariant over the log of writes: for every
    market, the messages written to files followed by the messages still buffered are
    exactly the messages that arrived, once each and in arrival order.
  - Its invariant `Accounted` also records, through `History`, the iteration of each
    flush (`at`) and what the flush worked on (`done`). Each flush wrote the REST order
    books fetched in its own iteration. For every market, it found in the buffers what
    arrived since the iteration of the flush before it, up to and including its own; the
    first flush also found what was buffered at the start (`FlushContents`). The buffers
    hold what arrived since the last flush. The message counters are unchanged until the
    first flush and zeroed for every market after it.
  - The ghost function `Disk` gives what is on disk after a log of writes: the last
    payload written to each path. `FlushOnDisk` shows that a flush's update and trades
    files replace any earlier file of the same name. So the conservation invariant is
    about the writes, not about the files that survive on disk (see the notes below).

The environment is a parameter:

- the clock readings and socket liveness of each wake-up (`Tick`);
- the messages delivered to the callbacks while the loop sleeps (`Wake`);
- the REST order book of each market (`books`);
- the ISO formatting of a timestamp (`isoformat`).

Notes on the code's behaviour:

- The loop sleeps `PERIOD_L2 - t % PERIOD_L2`, which wakes it at the first multiple of
  the period strictly after `t`.
- The first flush names its update and trades files by its own clock reading `ti`, and so
  does the second flush (`Schedule.SecondFlushReusesFirstName`). The second flush's files
  therefore replace the first's on disk (`Recorder.FlushOnDisk`): the messages buffered
  before the first snapshot are written once and then overwritten.
- A market listed twice is drained twice in one flush. The second drain writes empty
  update and trades files to the same paths (`Recorder.DrainLogAt`).
- The only final flush is at the stop time. The loop exits with no flush when the socket
  manager is dead, when the iteration bound runs out, or on an exception.

## Model

| member | source | states |
|---|---|---|
| Naming.Dashed | deep_orderbook/recorder.py:112-113 | `.replace(":", "-")` keeps the length, turns every colon into a dash, leaves every other character in place, and leaves no colon |
| Naming.DashedIdempotent | deep_orderbook/recorder.py:112-113 | replacing twice gives the same name as replacing once |
| Naming.DashedFixed | deep_orderbook/recorder.py:112-113 | a timestamp string is left unchanged exactly when it holds no colon |
| Naming.FilePathInjective | deep_orderbook/recorder.py:122-133 | for market names without a slash, two paths `{L2folder}/{symbol}/{stamp}{suffix}` with the same folder and suffix are equal only when their markets and their stamps are equal |
| Naming.KindsNeverCollide | deep_orderbook/recorder.py:122-125 | an update, a trades and a snapshot file never share a path, whatever their folder, market and stamp |
| Naming.MarketsNeverCollide | deep_orderbook/recorder.py:122-125 | with the same folder, stamp and suffix, two different markets get two different paths |
| Schedule.FloorDiv | deep_orderbook/recorder.py:154 | Python's `//`: the quotient is rounded towards minus infinity, for either sign of the divisor |
| Schedule.Bucket | deep_orderbook/recorder.py:154 | `new_th` is a multiple of the period; for a positive period `new_th <= ti < new_th + SAVE_PERIOD` (mirrored for a negative one) |
| Schedule.BucketUnique | deep_orderbook/recorder.py:154 | for a positive period, any multiple of the period that brackets `ti` this way is `new_th` |
| Schedule.BucketMonotone | deep_orderbook/recorder.py:154 | for a positive period, a later clock reading never gives an earlier bucket |
| Schedule.WakeDelay | deep_orderbook/recorder.py:143-151 | the sleep lies in `(0, PERIOD_L2]` and ends on a multiple of `PERIOD_L2` |
| Schedule.WakeIsNextBoundary | deep_orderbook/recorder.py:143-151 | the wake-up instant is the first multiple of `PERIOD_L2` strictly after `t`, so no boundary is skipped |
| Schedule.Step | deep_orderbook/recorder.py:152-173 | the checks in order. A zero period crashes, and nothing else does. A dead socket exits. The stop time gives `save_snapshot(0, prev_th)`. A periodic flush happens exactly when `new_th > th`: the first one is `save_snapshot(ti, ti)` and sets `prev_th = ti`; later ones are `save_snapshot(new_th, prev_th)` and set `prev_th = new_th`; after either, `th == new_th`. Otherwise, and exactly then, the iteration is idle. Without a periodic flush the state is unchanged |
| Schedule.Run | deep_orderbook/recorder.py:148-173 | the loop over a trace of clock readings from position `pos` and state `(th, prev_th)`. It records each flush with the position of its iteration and how and where the run ends: at most one flush per remaining iteration, and an end between `pos` and the length of the trace. The lemmas below state which flushes they are and how the run ends |
| Schedule.RunAdvance | deep_orderbook/recorder.py:148-173 | one iteration of the reference run at any position `i` of the trace. Crash and dead socket end it at `i + 1` with no further flush. The stop-time flush is appended with position `i` and ends it at `i + 1`. A periodic flush is appended with position `i` and the run goes on from the next position and state; an idle iteration goes on with nothing appended |
| Schedule.RunPositions | deep_orderbook/recorder.py:148-173 | the positions of a run's flushes lie between its start and its end and strictly increase. A run that exhausts the trace ends at its length; one that stops at the stop time ends one past its last flush |
| Schedule.RunClosesLast | deep_orderbook/recorder.py:159-163 | only the last flush of a run can be the closing one, and it is there exactly when the run stopped at the stop time |
| Schedule.RunBucketsIncrease | deep_orderbook/recorder.py:165-173 | periodic flushes go to buckets above the starting `th`, in strictly increasing order |
| Schedule.NoBucketFlushedTwice | deep_orderbook/recorder.py:165-173 | from `th = prev_th = 0`, two different periodic flushes of a run never have the same bucket |
| Schedule.RunChained | deep_orderbook/recorder.py:167-172 | from a state with `th >= 0`, each flush names its update and trades files by the `cur_ts` of the flush before it. The first flush from the state uses `prev_th`, except a periodic first flush from `th == 0`, which uses its own stamp |
| Schedule.RunStampsInBucket | deep_orderbook/recorder.py:154-172 | for a positive period every periodic flush's `cur_ts` lies in its positive bucket, so it is never 0 and its snapshots are always written |
| Schedule.ClosingUsesLastStamp | deep_orderbook/recorder.py:159-163 | a run that stops at the stop time ends with a flush whose `cur_ts` is 0, so no snapshot is fetched. Its update files use the last periodic flush's `cur_ts`, or 0 when there was none |
| Schedule.SecondFlushReusesFirstName | deep_orderbook/recorder.py:167-172 | the first flush of a run is periodic and names its update files by its own `ti`; the second flush names its update files the same way |
| Recorder.ClearedPending | deep_orderbook/recorder.py:114-120 | after clearing the first `n` markets, those read as empty and every other market keeps its buffer |
| Recorder.ClearedAll | deep_orderbook/recorder.py:110-120 | after the drain loop every market of the writer reads as empty |
| Recorder.ZeroedAt | deep_orderbook/recorder.py:117 | after zeroing the first `n` markets their counters are 0, and every other counter is unchanged, present or absent |
| Recorder.DrainedConserves | deep_orderbook/recorder.py:114-120 | what the drain steps take out of a market's buffer, followed by what is left, is the buffer as it was |
| Recorder.DrainLogDepths | deep_orderbook/recorder.py:114-123 | the depth messages of a market that the drain's files carry are exactly what the drain took out of its buffer |
| Recorder.DrainLogTrades | deep_orderbook/recorder.py:118-125 | the trade messages of a market that the drain's files carry are exactly what the drain took out of its trade buffer |
| Recorder.SnapLogCarriesNoMessages | deep_orderbook/recorder.py:127-134 | snapshot files carry no buffered depth or trade message |
| Recorder.DrainLog | deep_orderbook/recorder.py:110-125 | the first loop writes two files per market; `DrainLogAt` states which |
| Recorder.SnapLog | deep_orderbook/recorder.py:127-134 | the second loop writes one file per market; `SnapLogAt` states which |
| Recorder.DrainLogAt | deep_orderbook/recorder.py:122-125 | for the `i`-th market the drain writes its `_update.json` then its `_trades.json`, named by the `prev_ts` stamp and holding what its buffers held when reached |
| Recorder.DrainOnePairPerMarket | deep_orderbook/recorder.py:110-125 | with no market listed twice, no two files of one drain share a path, and each carries the whole buffer its market had before the flush |
| Recorder.SnapLogAt | deep_orderbook/recorder.py:127-134 | the `i`-th snapshot file is the order book of the `i`-th market, at `{L2folder}/{symbol}/{snap}_snapshot.json` |
| Recorder.FlushFiles | deep_orderbook/recorder.py:109-135 | one `save_snapshot` writes two files per market, and one more per market when it writes snapshots; `FlushFilesAt` states which |
| Recorder.FlushFilesAt | deep_orderbook/recorder.py:109-135 | a flush writes each market's update file and then its trades file, both named by `prev_ts`, in market order. When `cur_ts` is non-zero, one snapshot file per market follows, named by `cur_ts` |
| Recorder.FlushPathsDiffer | deep_orderbook/recorder.py:110-134 | with no market listed twice, no later file of the same flush reuses the path of an update or trades file |
| Recorder.DiskPaths | deep_orderbook/recorder.py:122-134 | the disk holds a file at exactly the paths some write used |
| Recorder.DiskLastWrite | deep_orderbook/recorder.py:122-134 | `open(path, "w")` truncates: a write whose path no later write uses is what the disk holds at that path |
| Recorder.FlushFileOnDisk | deep_orderbook/recorder.py:122-125 | with no market listed twice, each update or trades file of a flush is what the disk holds at its path once the flush is done |
| Recorder.FlushOnDisk | deep_orderbook/recorder.py:109-135 | with no market listed twice, whatever was on disk before, after a flush each market's update and trades paths hold exactly the buffers the flush drained, so an earlier file of the same name is replaced |
| Recorder.FlushDepths | deep_orderbook/recorder.py:109-135 | a whole flush, with or without snapshots, moves depth messages from the buffers to the files without losing, duplicating or reordering any |
| Recorder.FlushTrades | deep_orderbook/recorder.py:109-135 | the same for trade messages |
| Recorder.ZeroedAgain | deep_orderbook/recorder.py:117 | zeroing the markets' counters a second time changes nothing, so after any number of flushes the counters are those of the first |
| Recorder.DeliveredAppends | deep_orderbook/recorder.py:97-101 | a batch of depth callbacks appends to each market's buffer exactly that market's messages, in arrival order |
| Recorder.TradesDeliveredAppends | deep_orderbook/recorder.py:103-107 | a batch of trade callbacks appends to each market's buffer exactly the messages whose `s` names it, in arrival order |
| Recorder.FilledStep | deep_orderbook/recorder.py:97-107 | an iteration's messages join each market's buffers after what was there, so the buffers still hold exactly what arrived since the last flush |
| Recorder.FlushRecorded | deep_orderbook/recorder.py:109-120 | a flush in iteration `i` of the buffers as that iteration's messages left them becomes the next entry of the history: it happened in iteration `i`, with that iteration's order books, and drained what arrived since the flush before it |
| Recorder.EmptiedAfter | deep_orderbook/recorder.py:114-120 | right after a flush that emptied every market's buffers, they hold exactly what arrived since that flush |
| Recorder.HistoryIncreasing | deep_orderbook/recorder.py:148-173 | the flushes of a history happened in strictly increasing iterations, all before the current one |
| Recorder.FlushContents | deep_orderbook/recorder.py:109-120 | the `k`-th flush drew the order books of its own iteration. For every market it drained, in order, what was buffered at the start plus everything that arrived up to its iteration (`k = 0`), or exactly what arrived after the previous flush's iteration up to its own (`k > 0`) |
| Recorder.AccountedInitially | deep_orderbook/recorder.py:144-145 | before the first iteration no message has arrived, no flush has happened, and the buffers hold what they held |
| Recorder.PassAccounted | deep_orderbook/recorder.py:148-173 | one iteration that delivers its messages, and flushes or not as `Iteration` describes, keeps `Accounted` for the next iteration, with the flush appended to `flushes`, `done` and `at` when there is one |
| Recorder.Writer.constructor | deep_orderbook/recorder.py:85-95 | the writer starts with empty buffers and counters, an empty file log, and the folder `<data_folder>/L2` |
| Recorder.Writer.Stamp | deep_orderbook/recorder.py:112-113 | the file-name stamp of a timestamp is its ISO string with the colons replaced: the same length, no colon, and the ISO string itself when it holds none |
| Recorder.Writer.FlushLog | deep_orderbook/recorder.py:109-135 | the files of one flush: two per market named by `prev_ts`, then one per market named by `cur_ts` unless `cur_ts` is 0 |
| Recorder.Writer.FlushedLogSnoc | deep_orderbook/recorder.py:109-135 | the files of successive `save_snapshot` calls, in order: one more flush appends exactly that flush's files after the earlier ones |
| Recorder.Writer.OnDepth | deep_orderbook/recorder.py:97-101 | the message is appended to the end of its market's buffer; every other market's buffer, the trades, the counters and the files are unchanged |
| Recorder.Writer.OnTrade | deep_orderbook/recorder.py:103-107 | the message is appended to the end of the buffer of market `msg["s"]`; everything else is unchanged |
| Recorder.Writer.ReceiveDepths | deep_orderbook/recorder.py:97-101 | a sequence of depth callbacks leaves the depth buffers as the fold `Delivered` says, and nothing else changes |
| Recorder.Writer.ReceiveTrades | deep_orderbook/recorder.py:103-107 | a sequence of trade callbacks leaves the trade buffers as the fold `TradesDelivered` says, and nothing else changes |
| Recorder.Writer.DrainBuffers | deep_orderbook/recorder.py:110-125 | the first loop of `save_snapshot` clears both buffers of every market in order and zeroes its counter. It writes each market's update and trades files with the contents its buffers had when reached |
| Recorder.Writer.WriteSnapshots | deep_orderbook/recorder.py:127-134 | the second loop writes one snapshot file per market, named by `cur_ts`, and leaves the buffers and counters alone |
| Recorder.Writer.SaveSnapshot | deep_orderbook/recorder.py:109-135 | the update and trades files use `prev_ts`, and snapshots are written only when `cur_ts != 0`. Afterwards every market's buffers are empty and its counter is 0. For every market, what is in files followed by what is buffered is unchanged |
| Recorder.Writer.Iteration | deep_orderbook/recorder.py:149-173 | one pass of the loop does what `Step` says. A pass that flushes appends exactly that flush's files (`FlushLog`), named by its `prev_ts` and, when `cur_ts` is non-zero, by `cur_ts`, with the buffers as the arrived messages left them. Any other pass writes nothing. What is written followed by what is buffered grows by exactly each market's newly arrived messages. A pass that does not flush leaves the buffers holding the new messages after the old ones and the counters alone. A pass that flushes empties every market's buffers and zeroes its counter |
| Recorder.Writer.Pass | deep_orderbook/recorder.py:148-173 | one iteration of the loop does what `Step` says and advances the reference run `Run` by one position: it ends where and how the run ends, at the next position, or goes on as it does. It keeps `Accounted` and the log equal to the files of the flushes performed. A flush is appended to `flushes`, together with its iteration (`at`) and the buffers and order books it wrote (`done`), and leaves every market's buffers empty; otherwise nothing is appended |
| Recorder.Writer.RunWriter | deep_orderbook/recorder.py:137-178 | the loop performs exactly the flushes of the reference run `Run` over the first 999999999 wake-ups, in order and in the same iterations (`at`), and ends as it does after the same number of iterations (`consumed`). The log of writes is exactly those flushes' files, one flush after the other. For every market, the messages written followed by those still buffered are exactly those that arrived, in order. Each flush wrote what its market's buffers received since the flush before it, and the order books of its own iteration (`Accounted`, `FlushContents`). The counters are zeroed from the first flush on. When it stops at the stop time, no market has anything buffered |

## Left out

- Order-book synchronisation is done inside the Binance client library's `DepthCacheManager`, which is not part of this model. A depth message is an opaque value of type `J`.
- The network and REST calls (`AsyncClient`, exchange and ticker information, socket management, `stoprestart`) are not modelled. `get_order_book` is the parameter `books`, one answer per wake-up.
- Threads, locks and `asyncio` are not modelled. Each `with lock:` block and each callback is one atomic step. Messages that reach a callback while `save_snapshot` is running are not modelled: they arrive between wake-ups, before each iteration is processed.
- Time is integer seconds. `time.time()` is a float in the source. Each wake-up's clock readings (`Tick.ti`, `Tick.now`) are unconstrained integers given by the environment. `WakeDelay` models the sleep for an integer-second `t`; the model does not tie the ticks to it.
- The ISO formatting `utcfromtimestamp(ts).isoformat()` is the opaque parameter `isoformat`. The stop deadline computed from `datetime.now()` (lines 138-140) is the given integer `stopat`, compared with the tick's `now`.
- File and JSON I/O, `os.makedirs` and `copy.deepcopy` become the ghost `log` of `FileWrite` entries. The files on disk are modelled only as `Disk`, the last write to each path; write failures, partial writes and directories are not modelled.
- `print`, `tqdm` and the `__main__` block are not modelled.
- The exception handler is modelled only for the division by a zero `SAVE_PERIOD`, as `Crashed`. Other exceptions, for example from the network, are not modelled, nor is a `KeyError` for a trade message without `"s"`: `TradeMsg` always has a market.
- `Receiver.on_depth` and `Receiver.on_aggtrades` are not modelled. The `Writer` calls these coroutines through `super()` without awaiting them, so their bodies never run and `nummsg` is only ever zeroed.
- The loop bound `range(999999999)` is modelled only as the cut of the wake-up sequence at that length.
- Recorder.Writer.SaveSnapshot: the source recomputes both stamps for every market; the model computes them once, which gives the same strings.
- Recorder.DrainOnePairPerMarket, Recorder.FlushPathsDiffer, Recorder.FlushFileOnDisk, Recorder.FlushOnDisk: the source does not forbid a market listed twice. These lemmas assume distinct markets; with a repeated market the second drain step writes empty files to the same paths, which `DrainLogAt` describes.
