/** The recorder's Writer: per-market buffers of depth and trade messages
    that the feed callbacks append to, the flush that drains them into
    files, and the writing loop that schedules the flushes.

    Messages and order-book snapshots are JSON values the recorder never
    looks inside; they are the type parameter `J`. Files are not written:
    each `open(...)` + `json.dump(...)` appends one entry to the ghost
    `log`. */
module Recorder {
  import opened Naming
  import opened Schedule

  /** What a depth-cache callback carries: the market and the raw message. */
  datatype DepthEvent<J> = DepthEvent(symbol: string, msg: J)

  /** An aggregated-trade message; `s` is its market field `msg["s"]`. */
  datatype TradeMsg<J> = TradeMsg(s: string, fields: J)

  /** What one file holds. */
  datatype Payload<J> =
    | Depths(msgs: seq<J>)
    | Trades(trades: seq<TradeMsg<J>>)
    | Book(book: J)

  /** One file written for a market. */
  datatype FileWrite<J> = FileWrite(symbol: string, path: string, payload: Payload<J>)

  /** One iteration of the writing loop as the environment presents it: the
      messages that arrived during the sleep, the answers the REST order-book
      endpoint gives on this iteration, and the clock readings after the
      sleep. */
  datatype Wake<J> = Wake(depths: seq<DepthEvent<J>>, trades: seq<TradeMsg<J>>, books: string -> J, tick: Tick)

  /** One `save_snapshot` call together with what it works on: the buffers
      as the call finds them and the REST order books of that iteration. */
  datatype Flushed<J> = Flushed(flush: Flush, store: map<string, seq<J>>, trades: map<string, seq<TradeMsg<J>>>, books: string -> J)

  /** A `defaultdict(list)` lookup: a missing market reads as empty. */
  function Pending<T>(m: map<string, seq<T>>, s: string): seq<T> {
    if s in m then m[s] else []
  }

  /** A market is among the first `n` exactly when it is among the first
      `n - 1` or is the `n`-th. */
  lemma PrefixMember(ms: seq<string>, n: nat, s: string)
    requires 0 < n <= |ms|
    ensures s in ms[..n] <==> s in ms[..n - 1] || s == ms[n - 1]
  {
    assert ms[..n] == ms[..n - 1] + [ms[n - 1]];
  }

  /** The buffers after `self.store[symbol] = list()` for the first `n`
      markets of `ks`, in order. */
  function Cleared<T>(m: map<string, seq<T>>, ks: seq<string>, n: nat): map<string, seq<T>>
    requires n <= |ks|
  {
    if n == 0 then m else Cleared(m, ks, n - 1)[ks[n - 1] := []]
  }

  /** The cleared markets read as empty, the others keep their messages. */
  lemma {:induction false} ClearedPending<T>(m: map<string, seq<T>>, ks: seq<string>, n: nat, s: string)
    requires n <= |ks|
    ensures Pending(Cleared(m, ks, n), s) == if s in ks[..n] then [] else Pending(m, s)
  {
    if n == 0 {
      assert ks[..0] == [];
    } else {
      ClearedPending(m, ks, n - 1, s);
      PrefixMember(ks, n, s);
    }
  }

  /** Once every market of `ks` is cleared, none of them holds anything. */
  lemma ClearedAll<T>(m: map<string, seq<T>>, ks: seq<string>)
    ensures forall s :: s in ks ==> Pending(Cleared(m, ks, |ks|), s) == []
  {
    assert ks[..|ks|] == ks;
    forall s | s in ks ensures Pending(Cleared(m, ks, |ks|), s) == [] {
      ClearedPending(m, ks, |ks|, s);
    }
  }

  /** The counters after `self.nummsg[symbol] = 0` for the first `n` markets
      of `ks`. */
  function Zeroed(m: map<string, int>, ks: seq<string>, n: nat): map<string, int>
    requires n <= |ks|
  {
    if n == 0 then m else Zeroed(m, ks, n - 1)[ks[n - 1] := 0]
  }

  /** The zeroed markets read 0, the others are unchanged. */
  lemma {:induction false} ZeroedAt(m: map<string, int>, ks: seq<string>, n: nat, s: string)
    requires n <= |ks|
    ensures s in ks[..n] ==> s in Zeroed(m, ks, n) && Zeroed(m, ks, n)[s] == 0
    ensures s !in ks[..n] ==> (s in Zeroed(m, ks, n) <==> s in m) && (s in m ==> Zeroed(m, ks, n)[s] == m[s])
  {
    if n == 0 {
      assert ks[..0] == [];
    } else {
      ZeroedAt(m, ks, n - 1, s);
      PrefixMember(ks, n, s);
    }
  }

  /** Zeroing the same markets again changes nothing. */
  lemma ZeroedAgain(m: map<string, int>, ks: seq<string>)
    ensures Zeroed(Zeroed(m, ks, |ks|), ks, |ks|) == Zeroed(m, ks, |ks|)
  {
    var z := Zeroed(m, ks, |ks|);
    forall s ensures (s in Zeroed(z, ks, |ks|) <==> s in z) && (s in z ==> Zeroed(z, ks, |ks|)[s] == z[s]) {
      ZeroedAt(m, ks, |ks|, s);
      ZeroedAt(z, ks, |ks|, s);
    }
  }

  /** The two files `save_snapshot` writes for the `i`-th market, given the
      buffers as the flush found them: what the earlier iterations have
      already drained reads as empty. */
  function DrainPair<J>(folder: string, stamp: string, markets: seq<string>,
                        store: map<string, seq<J>>, trades: map<string, seq<TradeMsg<J>>>, i: nat): seq<FileWrite<J>>
    requires i < |markets|
  {
    var m := markets[i];
    [FileWrite(m, FilePath(folder, m, stamp, UpdateSuffix), Depths(Pending(Cleared(store, markets, i), m))),
     FileWrite(m, FilePath(folder, m, stamp, TradesSuffix), Trades(Pending(Cleared(trades, markets, i), m)))]
  }

  /** The update and trades files of the first `n` markets, in order. */
  function DrainLog<J>(folder: string, stamp: string, markets: seq<string>,
                       store: map<string, seq<J>>, trades: map<string, seq<TradeMsg<J>>>, n: nat): (r: seq<FileWrite<J>>)
    requires n <= |markets|
    ensures |r| == 2 * n
  {
    if n == 0 then []
    else DrainLog(folder, stamp, markets, store, trades, n - 1) + DrainPair(folder, stamp, markets, store, trades, n - 1)
  }

  /** The snapshot files of the first `n` markets, in order. */
  function SnapLog<J>(folder: string, stamp: string, markets: seq<string>, books: string -> J, n: nat): (r: seq<FileWrite<J>>)
    requires n <= |markets|
    ensures |r| == n
  {
    if n == 0 then []
    else
      var m := markets[n - 1];
      SnapLog(folder, stamp, markets, books, n - 1) + [FileWrite(m, FilePath(folder, m, stamp, SnapshotSuffix), Book(books(m)))]
  }

  function DepthsOf<J>(w: FileWrite<J>, s: string): seq<J> {
    if w.symbol == s && w.payload.Depths? then w.payload.msgs else []
  }

  function TradesOf<J>(w: FileWrite<J>, s: string): seq<TradeMsg<J>> {
    if w.symbol == s && w.payload.Trades? then w.payload.trades else []
  }

  /** The depth messages of market `s` that reached a file, in write order. */
  function DepthsWritten<J>(log: seq<FileWrite<J>>, s: string): seq<J> {
    if log == [] then [] else DepthsWritten(log[..|log| - 1], s) + DepthsOf(log[|log| - 1], s)
  }

  /** The trade messages of market `s` that reached a file, in write order. */
  function TradesWritten<J>(log: seq<FileWrite<J>>, s: string): seq<TradeMsg<J>> {
    if log == [] then [] else TradesWritten(log[..|log| - 1], s) + TradesOf(log[|log| - 1], s)
  }

  lemma {:induction false} DepthsWrittenAppend<J>(a: seq<FileWrite<J>>, b: seq<FileWrite<J>>, s: string)
    ensures DepthsWritten(a + b, s) == DepthsWritten(a, s) + DepthsWritten(b, s)
    decreases |b|
  {
    if b != [] {
      var b' := b[..|b| - 1];
      var last := b[|b| - 1];
      assert (a + b)[..|a + b| - 1] == a + b';
      assert (a + b)[|a + b| - 1] == last;
      DepthsWrittenAppend(a, b', s);
      calc {
        DepthsWritten(a + b, s);
        DepthsWritten(a + b', s) + DepthsOf(last, s);
        (DepthsWritten(a, s) + DepthsWritten(b', s)) + DepthsOf(last, s);
        DepthsWritten(a, s) + (DepthsWritten(b', s) + DepthsOf(last, s));
      }
    } else {
      assert a + b == a;
    }
  }

  lemma {:induction false} TradesWrittenAppend<J>(a: seq<FileWrite<J>>, b: seq<FileWrite<J>>, s: string)
    ensures TradesWritten(a + b, s) == TradesWritten(a, s) + TradesWritten(b, s)
    decreases |b|
  {
    if b != [] {
      var b' := b[..|b| - 1];
      var last := b[|b| - 1];
      assert (a + b)[..|a + b| - 1] == a + b';
      assert (a + b)[|a + b| - 1] == last;
      TradesWrittenAppend(a, b', s);
      calc {
        TradesWritten(a + b, s);
        TradesWritten(a + b', s) + TradesOf(last, s);
        (TradesWritten(a, s) + TradesWritten(b', s)) + TradesOf(last, s);
        TradesWritten(a, s) + (TradesWritten(b', s) + TradesOf(last, s));
      }
    } else {
      assert a + b == a;
    }
  }

  /** What the two files of one drain step contribute to market `s`. */
  lemma PairContributes<J>(folder: string, stamp: string, markets: seq<string>,
                           store: map<string, seq<J>>, trades: map<string, seq<TradeMsg<J>>>, i: nat, s: string)
    requires i < |markets|
    ensures DepthsWritten(DrainPair(folder, stamp, markets, store, trades, i), s)
            == if markets[i] == s then Pending(Cleared(store, markets, i), s) else []
    ensures TradesWritten(DrainPair(folder, stamp, markets, store, trades, i), s)
            == if markets[i] == s then Pending(Cleared(trades, markets, i), s) else []
  {
    var pair := DrainPair(folder, stamp, markets, store, trades, i);
    var first := [pair[0]];
    assert pair[..|pair| - 1] == first && first[..|first| - 1] == [];
    assert DepthsWritten(first, s) == DepthsOf(pair[0], s);
    assert TradesWritten(first, s) == TradesOf(pair[0], s);
    assert DepthsWritten(pair, s) == DepthsOf(pair[0], s) + DepthsOf(pair[1], s);
    assert TradesWritten(pair, s) == TradesOf(pair[0], s) + TradesOf(pair[1], s);
  }

  /** One drain step moves a market's buffer, whole, from the buffer to
      the files, or leaves both alone. */
  lemma MoveOne<T>(written: seq<T>, rest: seq<T>, written': seq<T>, rest': seq<T>, hit: bool)
    requires written' == written + (if hit then rest else [])
    requires rest' == if hit then [] else rest
    ensures written' + rest' == written + rest
  {
    if hit {
      assert (written + rest) + [] == written + rest;
    } else {
      assert written + [] == written;
    }
  }

  lemma DrainStepDepths<J>(folder: string, stamp: string, markets: seq<string>,
                           store: map<string, seq<J>>, trades: map<string, seq<TradeMsg<J>>>, n: nat, s: string)
    requires 0 < n <= |markets|
    ensures DepthsWritten(DrainLog(folder, stamp, markets, store, trades, n), s)
            == DepthsWritten(DrainLog(folder, stamp, markets, store, trades, n - 1), s)
               + (if markets[n - 1] == s then Pending(Cleared(store, markets, n - 1), s) else [])
  {
    DepthsWrittenAppend(DrainLog(folder, stamp, markets, store, trades, n - 1), DrainPair(folder, stamp, markets, store, trades, n - 1), s);
    PairContributes(folder, stamp, markets, store, trades, n - 1, s);
  }

  /** The depth messages of market `s` that the first `n` drain steps move
      into files. */
  function Drained<T>(markets: seq<string>, m: map<string, seq<T>>, n: nat, s: string): seq<T>
    requires n <= |markets|
  {
    if n == 0 then []
    else Drained(markets, m, n - 1, s) + (if markets[n - 1] == s then Pending(Cleared(m, markets, n - 1), s) else [])
  }

  /** Draining loses nothing: what the steps take out of a buffer, followed
      by what is left in it, is the buffer as it was. */
  lemma {:induction false} DrainedConserves<T>(markets: seq<string>, m: map<string, seq<T>>, n: nat, s: string)
    requires n <= |markets|
    ensures Drained(markets, m, n, s) + Pending(Cleared(m, markets, n), s) == Pending(m, s)
  {
    assert [] + Pending(m, s) == Pending(m, s);
    for k := 0 to n
      invariant Drained(markets, m, k, s) + Pending(Cleared(m, markets, k), s) == Pending(m, s)
    {
      MoveOne(Drained(markets, m, k, s), Pending(Cleared(m, markets, k), s),
              Drained(markets, m, k + 1, s), Pending(Cleared(m, markets, k + 1), s), markets[k] == s);
    }
  }

  lemma {:induction false} DrainLogDepths<J>(folder: string, stamp: string, markets: seq<string>,
                                             store: map<string, seq<J>>, trades: map<string, seq<TradeMsg<J>>>,
                                             n: nat, s: string)
    requires n <= |markets|
    ensures DepthsWritten(DrainLog(folder, stamp, markets, store, trades, n), s) == Drained(markets, store, n, s)
  {
    if n > 0 {
      DrainLogDepths(folder, stamp, markets, store, trades, n - 1, s);
      DrainStepDepths(folder, stamp, markets, store, trades, n, s);
    }
  }

  lemma DrainStepTrades<J>(folder: string, stamp: string, markets: seq<string>,
                           store: map<string, seq<J>>, trades: map<string, seq<TradeMsg<J>>>, n: nat, s: string)
    requires 0 < n <= |markets|
    ensures TradesWritten(DrainLog(folder, stamp, markets, store, trades, n), s)
            == TradesWritten(DrainLog(folder, stamp, markets, store, trades, n - 1), s)
               + (if markets[n - 1] == s then Pending(Cleared(trades, markets, n - 1), s) else [])
  {
    TradesWrittenAppend(DrainLog(folder, stamp, markets, store, trades, n - 1), DrainPair(folder, stamp, markets, store, trades, n - 1), s);
    PairContributes(folder, stamp, markets, store, trades, n - 1, s);
  }

  lemma {:induction false} DrainLogTrades<J>(folder: string, stamp: string, markets: seq<string>,
                                             store: map<string, seq<J>>, trades: map<string, seq<TradeMsg<J>>>,
                                             n: nat, s: string)
    requires n <= |markets|
    ensures TradesWritten(DrainLog(folder, stamp, markets, store, trades, n), s) == Drained(markets, trades, n, s)
  {
    if n > 0 {
      DrainLogTrades(folder, stamp, markets, store, trades, n - 1, s);
      DrainStepTrades(folder, stamp, markets, store, trades, n, s);
    }
  }

  /** Snapshot files carry no buffered message. */
  lemma {:induction false} SnapLogCarriesNoMessages<J>(folder: string, stamp: string, markets: seq<string>,
                                                       books: string -> J, n: nat, s: string)
    requires n <= |markets|
    ensures DepthsWritten(SnapLog(folder, stamp, markets, books, n), s) == []
    ensures TradesWritten(SnapLog(folder, stamp, markets, books, n), s) == []
  {
    if n > 0 {
      SnapLogCarriesNoMessages(folder, stamp, markets, books, n - 1, s);
    }
  }

  /** The drain writes, for the `i`-th market, its update file at `2i` and
      its trades file at `2i + 1`, both named with the flush's stamp. */
  lemma {:induction false} DrainLogAt<J>(folder: string, stamp: string, markets: seq<string>,
                                         store: map<string, seq<J>>, trades: map<string, seq<TradeMsg<J>>>,
                                         n: nat, i: nat)
    requires i < n <= |markets|
    ensures DrainLog(folder, stamp, markets, store, trades, n)[2 * i]
            == FileWrite(markets[i], FilePath(folder, markets[i], stamp, UpdateSuffix),
                         Depths(Pending(Cleared(store, markets, i), markets[i])))
    ensures DrainLog(folder, stamp, markets, store, trades, n)[2 * i + 1]
            == FileWrite(markets[i], FilePath(folder, markets[i], stamp, TradesSuffix),
                         Trades(Pending(Cleared(trades, markets, i), markets[i])))
  {
    if i < n - 1 {
      DrainLogAt(folder, stamp, markets, store, trades, n - 1, i);
    }
  }

  lemma Regroup<T>(a: seq<T>, b: seq<T>, c: seq<T>, rest: seq<T>, p: seq<T>)
    requires b + rest == p && c == []
    ensures ((a + b) + c) + rest == a + p
  {
    assert (a + b) + [] == a + b;
  }

  lemma FlushDepths<J>(log: seq<FileWrite<J>>, folder: string, upds: string, snap: string, markets: seq<string>,
                              store: map<string, seq<J>>, trades: map<string, seq<TradeMsg<J>>>,
                              books: string -> J, withSnapshots: bool, s: string)
    ensures DepthsWritten(log + DrainLog(folder, upds, markets, store, trades, |markets|)
                        + (if withSnapshots then SnapLog(folder, snap, markets, books, |markets|) else []), s)
            + Pending(Cleared(store, markets, |markets|), s) == DepthsWritten(log, s) + Pending(store, s)
  {
    var d := DrainLog(folder, upds, markets, store, trades, |markets|);
    var n := if withSnapshots then SnapLog(folder, snap, markets, books, |markets|) else [];
    DepthsWrittenAppend(log, d, s);
    DepthsWrittenAppend(log + d, n, s);
    DrainLogDepths(folder, upds, markets, store, trades, |markets|, s);
    DrainedConserves(markets, store, |markets|, s);
    SnapLogCarriesNoMessages(folder, snap, markets, books, |markets|, s);
    assert DepthsWritten<J>([], s) == [];
    Regroup(DepthsWritten(log, s), DepthsWritten(d, s), DepthsWritten(n, s), Pending(Cleared(store, markets, |markets|), s), Pending(store, s));
  }

  lemma FlushTrades<J>(log: seq<FileWrite<J>>, folder: string, upds: string, snap: string, markets: seq<string>,
                              store: map<string, seq<J>>, trades: map<string, seq<TradeMsg<J>>>,
                              books: string -> J, withSnapshots: bool, s: string)
    ensures TradesWritten(log + DrainLog(folder, upds, markets, store, trades, |markets|)
                        + (if withSnapshots then SnapLog(folder, snap, markets, books, |markets|) else []), s)
            + Pending(Cleared(trades, markets, |markets|), s) == TradesWritten(log, s) + Pending(trades, s)
  {
    var d := DrainLog(folder, upds, markets, store, trades, |markets|);
    var n := if withSnapshots then SnapLog(folder, snap, markets, books, |markets|) else [];
    TradesWrittenAppend(log, d, s);
    TradesWrittenAppend(log + d, n, s);
    DrainLogTrades(folder, upds, markets, store, trades, |markets|, s);
    DrainedConserves(markets, trades, |markets|, s);
    SnapLogCarriesNoMessages(folder, snap, markets, books, |markets|, s);
    assert TradesWritten<J>([], s) == [];
    Regroup(TradesWritten(log, s), TradesWritten(d, s), TradesWritten(n, s), Pending(Cleared(trades, markets, |markets|), s), Pending(trades, s));
  }

  predicate NoDuplicates(ms: seq<string>) {
    forall i, j :: 0 <= i < j < |ms| ==> ms[i] != ms[j]
  }

  /** With no market listed twice, one drain writes one update file and one
      trades file per market and never the same path twice, each carrying
      the whole buffer the market had. */
  lemma DrainOnePairPerMarket<J>(folder: string, stamp: string, markets: seq<string>,
                                 store: map<string, seq<J>>, trades: map<string, seq<TradeMsg<J>>>, k1: nat, k2: nat)
    requires NoDuplicates(markets)
    requires k1 < k2 < 2 * |markets|
    ensures DrainLog(folder, stamp, markets, store, trades, |markets|)[k1].path
         != DrainLog(folder, stamp, markets, store, trades, |markets|)[k2].path
    ensures DrainLog(folder, stamp, markets, store, trades, |markets|)[k1].payload
         == if k1 % 2 == 0 then Depths(Pending(store, markets[k1 / 2])) else Trades(Pending(trades, markets[k1 / 2]))
  {
    var n := |markets|;
    var i1, i2 := k1 / 2, k2 / 2;
    DrainLogAt(folder, stamp, markets, store, trades, n, i1);
    DrainLogAt(folder, stamp, markets, store, trades, n, i2);
    assert k1 == 2 * i1 + k1 % 2 && k2 == 2 * i2 + k2 % 2;
    var m1, m2 := markets[i1], markets[i2];
    assert m1 !in markets[..i1];
    ClearedPending(store, markets, i1, m1);
    ClearedPending(trades, markets, i1, m1);
    KindsNeverCollide(folder, m1, stamp, folder, m2, stamp);
    KindsNeverCollide(folder, m2, stamp, folder, m1, stamp);
    if i1 != i2 {
      MarketsNeverCollide(folder, m1, m2, stamp, UpdateSuffix);
      MarketsNeverCollide(folder, m1, m2, stamp, TradesSuffix);
    }
  }

  /** The `i`-th snapshot file is the order book of the `i`-th market,
      named by the snapshot stamp. */
  lemma {:induction false} SnapLogAt<J>(folder: string, stamp: string, markets: seq<string>, books: string -> J, n: nat, i: nat)
    requires i < n <= |markets|
    ensures SnapLog(folder, stamp, markets, books, n)[i]
            == FileWrite(markets[i], FilePath(folder, markets[i], stamp, SnapshotSuffix), Book(books(markets[i])))
  {
    if i < n - 1 {
      SnapLogAt(folder, stamp, markets, books, n - 1, i);
    }
  }

  /** What the disk holds after the writes of `log`: for every path written,
      the payload of the last write to it (`open(..., "w")` truncates). */
  ghost function Disk<J>(log: seq<FileWrite<J>>): map<string, Payload<J>> {
    if log == [] then map[] else Disk(log[..|log| - 1])[log[|log| - 1].path := log[|log| - 1].payload]
  }

  /** The disk holds a file at exactly the paths the log wrote to. */
  lemma {:induction false} DiskPaths<J>(log: seq<FileWrite<J>>)
    ensures Disk(log).Keys == set k | 0 <= k < |log| :: log[k].path
  {
    if log != [] {
      var init := log[..|log| - 1];
      DiskPaths(init);
      assert forall k :: 0 <= k < |init| ==> init[k] == log[k];
    }
  }

  /** A write whose path no later write uses is what the disk holds there. */
  lemma {:induction false} DiskLastWrite<J>(log: seq<FileWrite<J>>, k: nat)
    requires k < |log|
    requires forall j :: k < j < |log| ==> log[j].path != log[k].path
    ensures log[k].path in Disk(log) && Disk(log)[log[k].path] == log[k].payload
    decreases |log|
  {
    if k < |log| - 1 {
      var init := log[..|log| - 1];
      assert init[k] == log[k];
      forall j | k < j < |init| ensures init[j].path != init[k].path {
        assert init[j] == log[j];
      }
      DiskLastWrite(init, k);
    }
  }

  /** The files one `save_snapshot` writes, in order: the update and trades
      file of every market named by `upds`, then, when `withSnapshots`, one
      snapshot file per market named by `snap`. */
  function FlushFiles<J>(folder: string, markets: seq<string>, upds: string, snap: string, withSnapshots: bool,
                         store: map<string, seq<J>>, trades: map<string, seq<TradeMsg<J>>>, books: string -> J): (r: seq<FileWrite<J>>)
    ensures |r| == 2 * |markets| + (if withSnapshots then |markets| else 0)
  {
    DrainLog(folder, upds, markets, store, trades, |markets|)
    + (if withSnapshots then SnapLog(folder, snap, markets, books, |markets|) else [])
  }

  /** A flush writes, for the `i`-th market, its update file at `2i` and its
      trades file at `2i + 1`, named by `upds`; with snapshots, its snapshot
      file follows at `2|markets| + i`, named by `snap`. */
  lemma FlushFilesAt<J>(folder: string, markets: seq<string>, upds: string, snap: string, withSnapshots: bool,
                        store: map<string, seq<J>>, trades: map<string, seq<TradeMsg<J>>>, books: string -> J, i: nat)
    requires i < |markets|
    ensures FlushFiles(folder, markets, upds, snap, withSnapshots, store, trades, books)[2 * i]
            == FileWrite(markets[i], FilePath(folder, markets[i], upds, UpdateSuffix), Depths(Pending(Cleared(store, markets, i), markets[i])))
    ensures FlushFiles(folder, markets, upds, snap, withSnapshots, store, trades, books)[2 * i + 1]
            == FileWrite(markets[i], FilePath(folder, markets[i], upds, TradesSuffix), Trades(Pending(Cleared(trades, markets, i), markets[i])))
    ensures withSnapshots ==>
              FlushFiles(folder, markets, upds, snap, withSnapshots, store, trades, books)[2 * |markets| + i]
              == FileWrite(markets[i], FilePath(folder, markets[i], snap, SnapshotSuffix), Book(books(markets[i])))
  {
    var n := |markets|;
    DrainLogAt(folder, upds, markets, store, trades, n, i);
    if withSnapshots {
      SnapLogAt(folder, snap, markets, books, n, i);
    }
  }

  /** With no market listed twice, the update and trades files of a flush
      are at paths no later file of the same flush uses. */
  lemma FlushPathsDiffer<J>(folder: string, markets: seq<string>, upds: string, snap: string, withSnapshots: bool,
                            store: map<string, seq<J>>, trades: map<string, seq<TradeMsg<J>>>, books: string -> J, k1: nat, k2: nat)
    requires NoDuplicates(markets)
    requires k1 < 2 * |markets| && k1 < k2 < |FlushFiles(folder, markets, upds, snap, withSnapshots, store, trades, books)|
    ensures FlushFiles(folder, markets, upds, snap, withSnapshots, store, trades, books)[k1].path != FlushFiles(folder, markets, upds, snap, withSnapshots, store, trades, books)[k2].path
  {
    var n := |markets|;
    var f := FlushFiles(folder, markets, upds, snap, withSnapshots, store, trades, books);
    if k2 < 2 * n {
      var drain := DrainLog(folder, upds, markets, store, trades, n);
      assert f[k1] == drain[k1] && f[k2] == drain[k2];
      DrainOnePairPerMarket(folder, upds, markets, store, trades, k1, k2);
    } else {
      var i1, i2 := k1 / 2, k2 - 2 * n;
      assert k1 == 2 * i1 || k1 == 2 * i1 + 1;
      FlushFilesAt(folder, markets, upds, snap, withSnapshots, store, trades, books, i1);
      FlushFilesAt(folder, markets, upds, snap, withSnapshots, store, trades, books, i2);
      assert f[k2].path == FilePath(folder, markets[i2], snap, SnapshotSuffix);
      KindsNeverCollide(folder, markets[i1], upds, folder, markets[i2], snap);
    }
  }

  /** The `k`-th file of a flush, one of its update and trades files, is
      what the disk holds at its path once the flush is done. */
  lemma FlushFileOnDisk<J>(before: seq<FileWrite<J>>, folder: string, markets: seq<string>, upds: string, snap: string, withSnapshots: bool,
                           store: map<string, seq<J>>, trades: map<string, seq<TradeMsg<J>>>, books: string -> J, k: nat)
    requires NoDuplicates(markets) && k < 2 * |markets|
    ensures FlushFiles(folder, markets, upds, snap, withSnapshots, store, trades, books)[k].path in Disk(before + FlushFiles(folder, markets, upds, snap, withSnapshots, store, trades, books))
    ensures Disk(before + FlushFiles(folder, markets, upds, snap, withSnapshots, store, trades, books))[FlushFiles(folder, markets, upds, snap, withSnapshots, store, trades, books)[k].path] == FlushFiles(folder, markets, upds, snap, withSnapshots, store, trades, books)[k].payload
  {
    var f := FlushFiles(folder, markets, upds, snap, withSnapshots, store, trades, books);
    var all := before + f;
    var b := |before|;
    forall j | b + k < j < |all| ensures all[j].path != all[b + k].path {
      assert all[j] == f[j - b] && all[b + k] == f[k];
      FlushPathsDiffer(folder, markets, upds, snap, withSnapshots, store, trades, books, k, j - b);
    }
    DiskLastWrite(all, b + k);
  }

  /** Whatever was written before, after a flush the disk holds at each
      market's update and trades paths exactly the buffers the flush
      drained: it replaces any earlier file of the same name. */
  lemma FlushOnDisk<J>(before: seq<FileWrite<J>>, folder: string, markets: seq<string>, upds: string, snap: string, withSnapshots: bool,
                       store: map<string, seq<J>>, trades: map<string, seq<TradeMsg<J>>>, books: string -> J, i: nat)
    requires NoDuplicates(markets) && i < |markets|
    ensures FilePath(folder, markets[i], upds, UpdateSuffix) in Disk(before + FlushFiles(folder, markets, upds, snap, withSnapshots, store, trades, books))
    ensures Disk(before + FlushFiles(folder, markets, upds, snap, withSnapshots, store, trades, books))[FilePath(folder, markets[i], upds, UpdateSuffix)] == Depths(Pending(store, markets[i]))
    ensures FilePath(folder, markets[i], upds, TradesSuffix) in Disk(before + FlushFiles(folder, markets, upds, snap, withSnapshots, store, trades, books))
    ensures Disk(before + FlushFiles(folder, markets, upds, snap, withSnapshots, store, trades, books))[FilePath(folder, markets[i], upds, TradesSuffix)] == Trades(Pending(trades, markets[i]))
  {
    FlushFilesAt(folder, markets, upds, snap, withSnapshots, store, trades, books, i);
    assert markets[i] !in markets[..i];
    ClearedPending(store, markets, i, markets[i]);
    ClearedPending(trades, markets, i, markets[i]);
    FlushFileOnDisk(before, folder, markets, upds, snap, withSnapshots, store, trades, books, 2 * i);
    FlushFileOnDisk(before, folder, markets, upds, snap, withSnapshots, store, trades, books, 2 * i + 1);
  }

  /** The messages of market `s` among the first `n` of `evs`, in arrival
      order. */
  function DepthsFor<J>(evs: seq<DepthEvent<J>>, n: nat, s: string): seq<J>
    requires n <= |evs|
  {
    if n == 0 then [] else DepthsFor(evs, n - 1, s) + (if evs[n - 1].symbol == s then [evs[n - 1].msg] else [])
  }

  function TradesFor<J>(msgs: seq<TradeMsg<J>>, n: nat, s: string): seq<TradeMsg<J>>
    requires n <= |msgs|
  {
    if n == 0 then [] else TradesFor(msgs, n - 1, s) + (if msgs[n - 1].s == s then [msgs[n - 1]] else [])
  }

  /** The depth buffers after the first `n` events of `evs` reach
      `on_depth`. */
  function Delivered<J>(m: map<string, seq<J>>, evs: seq<DepthEvent<J>>, n: nat): map<string, seq<J>>
    requires n <= |evs|
  {
    if n == 0 then m
    else
      var prev := Delivered(m, evs, n - 1);
      prev[evs[n - 1].symbol := Pending(prev, evs[n - 1].symbol) + [evs[n - 1].msg]]
  }

  /** The trade buffers after the first `n` messages of `msgs` reach
      `on_aggtrades`. */
  function TradesDelivered<J>(m: map<string, seq<TradeMsg<J>>>, msgs: seq<TradeMsg<J>>, n: nat): map<string, seq<TradeMsg<J>>>
    requires n <= |msgs|
  {
    if n == 0 then m
    else
      var prev := TradesDelivered(m, msgs, n - 1);
      prev[msgs[n - 1].s := Pending(prev, msgs[n - 1].s) + [msgs[n - 1]]]
  }

  /** Delivery appends to each market's buffer exactly that market's events,
      in arrival order, and touches no other market. */
  lemma {:induction false} DeliveredAppends<J>(m: map<string, seq<J>>, evs: seq<DepthEvent<J>>, n: nat, s: string)
    requires n <= |evs|
    ensures Pending(Delivered(m, evs, n), s) == Pending(m, s) + DepthsFor(evs, n, s)
  {
    if n == 0 {
      assert Pending(m, s) + [] == Pending(m, s);
    } else {
      DeliveredAppends(m, evs, n - 1, s);
      Regroup3(Pending(m, s), DepthsFor(evs, n - 1, s), if evs[n - 1].symbol == s then [evs[n - 1].msg] else []);
    }
  }

  lemma {:induction false} TradesDeliveredAppends<J>(m: map<string, seq<TradeMsg<J>>>, msgs: seq<TradeMsg<J>>, n: nat, s: string)
    requires n <= |msgs|
    ensures Pending(TradesDelivered(m, msgs, n), s) == Pending(m, s) + TradesFor(msgs, n, s)
  {
    if n == 0 {
      assert Pending(m, s) + [] == Pending(m, s);
    } else {
      TradesDeliveredAppends(m, msgs, n - 1, s);
      Regroup3(Pending(m, s), TradesFor(msgs, n - 1, s), if msgs[n - 1].s == s then [msgs[n - 1]] else []);
    }
  }

  /** The depth messages of market `s` delivered during the first `n`
      iterations, in arrival order. */
  function ArrivedDepths<J>(ws: seq<Wake<J>>, n: nat, s: string): seq<J>
    requires n <= |ws|
  {
    if n == 0 then [] else ArrivedDepths(ws, n - 1, s) + DepthsFor(ws[n - 1].depths, |ws[n - 1].depths|, s)
  }

  function ArrivedTrades<J>(ws: seq<Wake<J>>, n: nat, s: string): seq<TradeMsg<J>>
    requires n <= |ws|
  {
    if n == 0 then [] else ArrivedTrades(ws, n - 1, s) + TradesFor(ws[n - 1].trades, |ws[n - 1].trades|, s)
  }

  function Ticks<J>(ws: seq<Wake<J>>): (ts: seq<Tick>)
    ensures |ts| == |ws| && forall i :: 0 <= i < |ws| ==> ts[i] == ws[i].tick
  {
    seq(|ws|, i requires 0 <= i < |ws| => ws[i].tick)
  }

  /** Every depth message of market `s` a writer with this log and these
      buffers has accepted: those already in files, then those still
      buffered. */
  ghost function HeldDepths<J>(log: seq<FileWrite<J>>, store: map<string, seq<J>>, s: string): seq<J> {
    DepthsWritten(log, s) + Pending(store, s)
  }

  ghost function HeldTrades<J>(log: seq<FileWrite<J>>, tradestore: map<string, seq<TradeMsg<J>>>, s: string): seq<TradeMsg<J>> {
    TradesWritten(log, s) + Pending(tradestore, s)
  }

  lemma Regroup3<T>(a: seq<T>, b: seq<T>, c: seq<T>)
    ensures a + (b + c) == (a + b) + c
  {
  }

  /** What is held after two batches arrive is what was held, then both
      batches. */
  lemma Accumulate<T>(held0: seq<T>, before: seq<T>, held1: seq<T>, batch: seq<T>, held2: seq<T>)
    requires held1 == held0 + before && held2 == held1 + batch
    ensures held2 == held0 + (before + batch)
  {
  }

  /** The iteration from which the `k`-th flush's buffers filled: the first
      one, or the one after the previous flush (iteration `at[k - 1]`). */
  function Since(at: seq<nat>, k: nat): nat
    requires k <= |at|
  {
    if k == 0 then 0 else at[k - 1] + 1
  }

  /** What a buffer held before the first iteration reaches only the first
      flush; every later flush starts from an emptied buffer. */
  function Carried<T>(m0: map<string, seq<T>>, k: nat, s: string): seq<T> {
    if k == 0 then Pending(m0, s) else []
  }

  /** Buffers `store`/`trades` of every market of `markets`, after
      iteration `i - 1`, hold what they carried in (counted for the `k`-th
      flush only) followed by exactly the messages that arrived from
      iteration `Since(at, k)` on. */
  ghost predicate FilledSince<J>(markets: seq<string>, wakes: seq<Wake<J>>,
                                 store0: map<string, seq<J>>, trades0: map<string, seq<TradeMsg<J>>>,
                                 at: seq<nat>, k: nat, i: nat,
                                 store: map<string, seq<J>>, trades: map<string, seq<TradeMsg<J>>>)
  {
    k <= |at| && Since(at, k) <= i <= |wakes| &&
    forall s :: s in markets ==>
      Carried(store0, k, s) + ArrivedDepths(wakes, i, s) == ArrivedDepths(wakes, Since(at, k), s) + Pending(store, s) &&
      Carried(trades0, k, s) + ArrivedTrades(wakes, i, s) == ArrivedTrades(wakes, Since(at, k), s) + Pending(trades, s)
  }

  /** The `k`-th flush happened in iteration `at[k]`, after the flush
      before it, wrote the snapshots
      that iteration fetched, and found in the buffers of the markets exactly
      what arrived since the flush before it (or since the start, on top of
      what was already buffered then). */
  ghost predicate FlushedAt<J>(markets: seq<string>, wakes: seq<Wake<J>>,
                               store0: map<string, seq<J>>, trades0: map<string, seq<TradeMsg<J>>>,
                               done: seq<Flushed<J>>, at: seq<nat>, k: nat)
  {
    k < |at| && k < |done| && at[k] < |wakes| && (k > 0 ==> at[k - 1] < at[k]) &&
    done[k].books == wakes[at[k]].books &&
    FilledSince(markets, wakes, store0, trades0, at, k, at[k] + 1, done[k].store, done[k].trades)
  }

  /** The flushes `done` of the first `i` iterations took place in the
      iterations `at`, each as `FlushedAt` says. */
  ghost predicate History<J>(markets: seq<string>, wakes: seq<Wake<J>>,
                             store0: map<string, seq<J>>, trades0: map<string, seq<TradeMsg<J>>>,
                             done: seq<Flushed<J>>, at: seq<nat>, i: nat)
  {
    |at| == |done| && i <= |wakes| &&
    (forall k :: 0 <= k < |at| ==> at[k] < i) &&
    (forall k :: 0 <= k < |at| ==> FlushedAt(markets, wakes, store0, trades0, done, at, k))
  }

  /** The messages of iteration `i` join the buffers after what was there. */
  lemma FilledStep<J>(markets: seq<string>, wakes: seq<Wake<J>>,
                      store0: map<string, seq<J>>, trades0: map<string, seq<TradeMsg<J>>>,
                      at: seq<nat>, i: nat, store: map<string, seq<J>>, trades: map<string, seq<TradeMsg<J>>>)
    requires i < |wakes| && FilledSince(markets, wakes, store0, trades0, at, |at|, i, store, trades)
    ensures FilledSince(markets, wakes, store0, trades0, at, |at|, i + 1,
                        Delivered(store, wakes[i].depths, |wakes[i].depths|),
                        TradesDelivered(trades, wakes[i].trades, |wakes[i].trades|))
  {
    var w := wakes[i];
    forall s | s in markets
      ensures Carried(store0, |at|, s) + ArrivedDepths(wakes, i + 1, s)
              == ArrivedDepths(wakes, Since(at, |at|), s) + Pending(Delivered(store, w.depths, |w.depths|), s)
      ensures Carried(trades0, |at|, s) + ArrivedTrades(wakes, i + 1, s)
              == ArrivedTrades(wakes, Since(at, |at|), s) + Pending(TradesDelivered(trades, w.trades, |w.trades|), s)
    {
      DeliveredAppends(store, w.depths, |w.depths|, s);
      TradesDeliveredAppends(trades, w.trades, |w.trades|, s);
      Regroup3(Carried(store0, |at|, s), ArrivedDepths(wakes, i, s), DepthsFor(w.depths, |w.depths|, s));
      Regroup3(ArrivedDepths(wakes, Since(at, |at|), s), Pending(store, s), DepthsFor(w.depths, |w.depths|, s));
      Regroup3(Carried(trades0, |at|, s), ArrivedTrades(wakes, i, s), TradesFor(w.trades, |w.trades|, s));
      Regroup3(ArrivedTrades(wakes, Since(at, |at|), s), Pending(trades, s), TradesFor(w.trades, |w.trades|, s));
    }
  }

  /** An iteration that does not flush adds nothing to the history. */
  lemma HistoryExtends<J>(markets: seq<string>, wakes: seq<Wake<J>>,
                          store0: map<string, seq<J>>, trades0: map<string, seq<TradeMsg<J>>>,
                          done: seq<Flushed<J>>, at: seq<nat>, i: nat)
    requires i < |wakes| && History(markets, wakes, store0, trades0, done, at, i)
    ensures History(markets, wakes, store0, trades0, done, at, i + 1)
  {
  }

  /** A flush in iteration `i` of the buffers as its messages left them is
      recorded as the next entry of the history. */
  lemma FlushRecorded<J>(markets: seq<string>, wakes: seq<Wake<J>>,
                         store0: map<string, seq<J>>, trades0: map<string, seq<TradeMsg<J>>>,
                         done: seq<Flushed<J>>, at: seq<nat>, i: nat,
                         store: map<string, seq<J>>, trades: map<string, seq<TradeMsg<J>>>, f: Flush)
    requires i < |wakes|
    requires History(markets, wakes, store0, trades0, done, at, i)
    requires FilledSince(markets, wakes, store0, trades0, at, |at|, i, store, trades)
    ensures History(markets, wakes, store0, trades0,
                    done + [Flushed(f, Delivered(store, wakes[i].depths, |wakes[i].depths|),
                                    TradesDelivered(trades, wakes[i].trades, |wakes[i].trades|), wakes[i].books)],
                    at + [i], i + 1)
  {
    var d := Flushed(f, Delivered(store, wakes[i].depths, |wakes[i].depths|),
                     TradesDelivered(trades, wakes[i].trades, |wakes[i].trades|), wakes[i].books);
    var done', at' := done + [d], at + [i];
    forall k | 0 <= k < |at'| ensures at'[k] < i + 1 && FlushedAt(markets, wakes, store0, trades0, done', at', k) {
      if k < |at| {
        FlushedAtSnoc(markets, wakes, store0, trades0, done, at, k, d, i);
      } else {
        FilledStep(markets, wakes, store0, trades0, at, i, store, trades);
        FlushedAtLast(markets, wakes, store0, trades0, done, at, i, d);
      }
    }
  }

  lemma FlushedAtLast<J>(markets: seq<string>, wakes: seq<Wake<J>>,
                         store0: map<string, seq<J>>, trades0: map<string, seq<TradeMsg<J>>>,
                         done: seq<Flushed<J>>, at: seq<nat>, i: nat, d: Flushed<J>)
    requires i < |wakes| && |at| == |done| && d.books == wakes[i].books
    requires |at| > 0 ==> at[|at| - 1] < i
    requires FilledSince(markets, wakes, store0, trades0, at, |at|, i + 1, d.store, d.trades)
    ensures FlushedAt(markets, wakes, store0, trades0, done + [d], at + [i], |at|)
  {
    assert Since(at + [i], |at|) == Since(at, |at|);
    assert (done + [d])[|at|] == d && (at + [i])[|at|] == i;
    assert |at| > 0 ==> (at + [i])[|at| - 1] == at[|at| - 1];
  }

  lemma FlushedAtSnoc<J>(markets: seq<string>, wakes: seq<Wake<J>>,
                         store0: map<string, seq<J>>, trades0: map<string, seq<TradeMsg<J>>>,
                         done: seq<Flushed<J>>, at: seq<nat>, k: nat, d: Flushed<J>, i: nat)
    requires FlushedAt(markets, wakes, store0, trades0, done, at, k)
    ensures FlushedAt(markets, wakes, store0, trades0, done + [d], at + [i], k)
  {
    assert (done + [d])[k] == done[k] && (at + [i])[k] == at[k] && Since(at + [i], k) == Since(at, k);
    assert k > 0 ==> (at + [i])[k - 1] == at[k - 1];
  }

  /** `History` spelled out for one flush and one market: the first flush
      (in iteration `at[0]`) found what was buffered at the start followed
      by every message that arrived up to and including its iteration; a
      later flush found exactly the messages that arrived after the
      iteration of the flush before it, up to and including its own. */
  lemma FlushContents<J>(markets: seq<string>, wakes: seq<Wake<J>>,
                         store0: map<string, seq<J>>, trades0: map<string, seq<TradeMsg<J>>>,
                         done: seq<Flushed<J>>, at: seq<nat>, i: nat, k: nat, m: string)
    requires History(markets, wakes, store0, trades0, done, at, i) && k < |done| && m in markets
    ensures at[k] < i <= |wakes| && done[k].books == wakes[at[k]].books
    ensures k == 0 ==> Pending(done[0].store, m) == Pending(store0, m) + ArrivedDepths(wakes, at[0] + 1, m)
    ensures k == 0 ==> Pending(done[0].trades, m) == Pending(trades0, m) + ArrivedTrades(wakes, at[0] + 1, m)
    ensures k > 0 ==> at[k - 1] < at[k] &&
                      ArrivedDepths(wakes, at[k - 1] + 1, m) + Pending(done[k].store, m) == ArrivedDepths(wakes, at[k] + 1, m)
    ensures k > 0 ==> ArrivedTrades(wakes, at[k - 1] + 1, m) + Pending(done[k].trades, m) == ArrivedTrades(wakes, at[k] + 1, m)
  {
    assert FlushedAt(markets, wakes, store0, trades0, done, at, k);
    if k == 0 {
      assert [] + Pending(done[0].store, m) == Pending(done[0].store, m);
      assert [] + Pending(done[0].trades, m) == Pending(done[0].trades, m);
    } else {
      assert [] + ArrivedDepths(wakes, at[k] + 1, m) == ArrivedDepths(wakes, at[k] + 1, m);
      assert [] + ArrivedTrades(wakes, at[k] + 1, m) == ArrivedTrades(wakes, at[k] + 1, m);
    }
  }

  /** The flushes of a history happened in strictly increasing iterations,
      all before iteration `i`. */
  lemma {:induction false} HistoryIncreasing<J>(markets: seq<string>, wakes: seq<Wake<J>>,
                                                store0: map<string, seq<J>>, trades0: map<string, seq<TradeMsg<J>>>,
                                                done: seq<Flushed<J>>, at: seq<nat>, i: nat, j: nat, k: nat)
    requires History(markets, wakes, store0, trades0, done, at, i) && j < k < |at|
    ensures at[j] < at[k] < i
    decreases k - j
  {
    assert FlushedAt(markets, wakes, store0, trades0, done, at, k);
    if j < k - 1 {
      HistoryIncreasing(markets, wakes, store0, trades0, done, at, i, j, k - 1);
    }
  }

  /** Right after a flush in iteration `i - 1` that emptied the markets'
      buffers, they hold exactly what arrived since. */
  lemma EmptiedAfter<J>(markets: seq<string>, wakes: seq<Wake<J>>,
                        store0: map<string, seq<J>>, trades0: map<string, seq<TradeMsg<J>>>,
                        at: seq<nat>, i: nat, store: map<string, seq<J>>, trades: map<string, seq<TradeMsg<J>>>)
    requires 0 < |at| && at[|at| - 1] + 1 == i <= |wakes|
    requires forall s :: s in markets ==> Pending(store, s) == [] && Pending(trades, s) == []
    ensures FilledSince(markets, wakes, store0, trades0, at, |at|, i, store, trades)
  {
    forall s | s in markets
      ensures Carried(store0, |at|, s) + ArrivedDepths(wakes, i, s) == ArrivedDepths(wakes, Since(at, |at|), s) + Pending(store, s)
      ensures Carried(trades0, |at|, s) + ArrivedTrades(wakes, i, s) == ArrivedTrades(wakes, Since(at, |at|), s) + Pending(trades, s)
    {
      assert [] + ArrivedDepths(wakes, i, s) == ArrivedDepths(wakes, i, s) + [];
      assert [] + ArrivedTrades(wakes, i, s) == ArrivedTrades(wakes, i, s) + [];
    }
  }

  /** What the writing loop keeps true after its first `i` iterations, for a
      writer that started with buffers `store0`/`trades0` and counters
      `nummsg0` and now has `log`, `store`, `trades` and `nummsg`: every
      message that arrived is written or buffered (`HeldDepths`,
      `HeldTrades`), the flushes `flushes` were performed as `done` in
      iterations `at` (`History`), the buffers hold what arrived since the
      last flush (`FilledSince`), and the counters were zeroed once the
      first flush happened. */
  ghost predicate Accounted<J>(markets: seq<string>, wakes: seq<Wake<J>>, i: nat,
                               log0: seq<FileWrite<J>>, store0: map<string, seq<J>>,
                               trades0: map<string, seq<TradeMsg<J>>>, nummsg0: map<string, int>,
                               flushes: seq<Flush>, done: seq<Flushed<J>>, at: seq<nat>,
                               log: seq<FileWrite<J>>, store: map<string, seq<J>>,
                               trades: map<string, seq<TradeMsg<J>>>, nummsg: map<string, int>)
  {
    i <= |wakes| &&
    (forall s :: HeldDepths(log, store, s) == HeldDepths(log0, store0, s) + ArrivedDepths(wakes, i, s)) &&
    (forall s :: HeldTrades(log, trades, s) == HeldTrades(log0, trades0, s) + ArrivedTrades(wakes, i, s)) &&
    |done| == |flushes| && (forall k :: 0 <= k < |done| ==> done[k].flush == flushes[k]) &&
    History(markets, wakes, store0, trades0, done, at, i) &&
    FilledSince(markets, wakes, store0, trades0, at, |at|, i, store, trades) &&
    (|flushes| == 0 ==> nummsg == nummsg0) &&
    (|flushes| > 0 ==> nummsg == Zeroed(nummsg0, markets, |markets|))
  }

  /** Nothing has happened before the first iteration. */
  lemma AccountedInitially<J>(markets: seq<string>, wakes: seq<Wake<J>>,
                              log: seq<FileWrite<J>>, store: map<string, seq<J>>,
                              trades: map<string, seq<TradeMsg<J>>>, nummsg: map<string, int>)
    ensures Accounted(markets, wakes, 0, log, store, trades, nummsg, [], [], [], log, store, trades, nummsg)
  {
    forall s | s in markets
      ensures Pending(store, s) + [] == [] + Pending(store, s) && Pending(trades, s) + [] == [] + Pending(trades, s)
    {
    }
    forall s ensures HeldDepths(log, store, s) == HeldDepths(log, store, s) + [] && HeldTrades(log, trades, s) == HeldTrades(log, trades, s) + [] {
    }
  }

  /** One iteration of the writing loop keeps `Accounted`: iteration `i`
      took the writer from `log1`, `store1`, `trades1`, `nummsg1` to `log2`,
      `store2`, `trades2`, `nummsg2` as `Writer.Iteration` describes, and
      `saved` says whether it performed the flush `f`. */
  lemma PassAccountedStep<J>(markets: seq<string>, wakes: seq<Wake<J>>, i: nat,
                         log0: seq<FileWrite<J>>, store0: map<string, seq<J>>,
                         trades0: map<string, seq<TradeMsg<J>>>, nummsg0: map<string, int>,
                         flushes: seq<Flush>, done: seq<Flushed<J>>, at: seq<nat>,
                         log1: seq<FileWrite<J>>, store1: map<string, seq<J>>,
                         trades1: map<string, seq<TradeMsg<J>>>, nummsg1: map<string, int>,
                         saved: bool, f: Flush,
                         log2: seq<FileWrite<J>>, store2: map<string, seq<J>>,
                         trades2: map<string, seq<TradeMsg<J>>>, nummsg2: map<string, int>)
    requires i < |wakes|
    requires Accounted(markets, wakes, i, log0, store0, trades0, nummsg0, flushes, done, at, log1, store1, trades1, nummsg1)
    requires forall s :: HeldDepths(log2, store2, s) == HeldDepths(log1, store1, s) + DepthsFor(wakes[i].depths, |wakes[i].depths|, s)
    requires forall s :: HeldTrades(log2, trades2, s) == HeldTrades(log1, trades1, s) + TradesFor(wakes[i].trades, |wakes[i].trades|, s)
    requires !saved ==> store2 == Delivered(store1, wakes[i].depths, |wakes[i].depths|)
    requires !saved ==> trades2 == TradesDelivered(trades1, wakes[i].trades, |wakes[i].trades|)
    requires !saved ==> nummsg2 == nummsg1
    requires saved ==> nummsg2 == Zeroed(nummsg1, markets, |markets|)
    requires saved ==> forall s :: s in markets ==> Pending(store2, s) == [] && Pending(trades2, s) == []
    ensures Accounted(markets, wakes, i + 1, log0, store0, trades0, nummsg0,
                      if saved then flushes + [f] else flushes,
                      if saved then done + [Flushed(f, Delivered(store1, wakes[i].depths, |wakes[i].depths|),
                                                    TradesDelivered(trades1, wakes[i].trades, |wakes[i].trades|),
                                                    wakes[i].books)] else done,
                      if saved then at + [i] else at,
                      log2, store2, trades2, nummsg2)
  {
    var w := wakes[i];
    forall s ensures HeldDepths(log2, store2, s) == HeldDepths(log0, store0, s) + ArrivedDepths(wakes, i + 1, s)
                  && HeldTrades(log2, trades2, s) == HeldTrades(log0, trades0, s) + ArrivedTrades(wakes, i + 1, s)
    {
      Accumulate(HeldDepths(log0, store0, s), ArrivedDepths(wakes, i, s), HeldDepths(log1, store1, s),
                 DepthsFor(w.depths, |w.depths|, s), HeldDepths(log2, store2, s));
      Accumulate(HeldTrades(log0, trades0, s), ArrivedTrades(wakes, i, s), HeldTrades(log1, trades1, s),
                 TradesFor(w.trades, |w.trades|, s), HeldTrades(log2, trades2, s));
    }
    if saved {
      var d := Flushed(f, Delivered(store1, w.depths, |w.depths|), TradesDelivered(trades1, w.trades, |w.trades|), w.books);
      FlushRecorded(markets, wakes, store0, trades0, done, at, i, store1, trades1, f);
      EmptiedAfter(markets, wakes, store0, trades0, at + [i], i + 1, store2, trades2);
      if |flushes| > 0 {
        ZeroedAgain(nummsg0, markets);
      }
      assert (done + [d])[|done|] == d && (flushes + [f])[|flushes|] == f;
    } else {
      FilledStep(markets, wakes, store0, trades0, at, i, store1, trades1);
      HistoryExtends(markets, wakes, store0, trades0, done, at, i);
    }
  }

  /** `PassAccountedStep` for the values the loop carries into the next
      iteration. */
  lemma PassAccounted<J>(markets: seq<string>, wakes: seq<Wake<J>>, i: nat,
                         log0: seq<FileWrite<J>>, store0: map<string, seq<J>>,
                         trades0: map<string, seq<TradeMsg<J>>>, nummsg0: map<string, int>,
                         flushes: seq<Flush>, done: seq<Flushed<J>>, at: seq<nat>,
                         log1: seq<FileWrite<J>>, store1: map<string, seq<J>>,
                         trades1: map<string, seq<TradeMsg<J>>>, nummsg1: map<string, int>,
                         saved: bool, f: Flush,
                         log2: seq<FileWrite<J>>, store2: map<string, seq<J>>,
                         trades2: map<string, seq<TradeMsg<J>>>, nummsg2: map<string, int>,
                         next: nat, flushes2: seq<Flush>, done2: seq<Flushed<J>>, at2: seq<nat>)
    requires i < |wakes| && next == i + 1
    requires Accounted(markets, wakes, i, log0, store0, trades0, nummsg0, flushes, done, at, log1, store1, trades1, nummsg1)
    requires forall s :: HeldDepths(log2, store2, s) == HeldDepths(log1, store1, s) + DepthsFor(wakes[i].depths, |wakes[i].depths|, s)
    requires forall s :: HeldTrades(log2, trades2, s) == HeldTrades(log1, trades1, s) + TradesFor(wakes[i].trades, |wakes[i].trades|, s)
    requires !saved ==> store2 == Delivered(store1, wakes[i].depths, |wakes[i].depths|)
    requires !saved ==> trades2 == TradesDelivered(trades1, wakes[i].trades, |wakes[i].trades|)
    requires !saved ==> nummsg2 == nummsg1
    requires saved ==> nummsg2 == Zeroed(nummsg1, markets, |markets|)
    requires saved ==> forall s :: s in markets ==> Pending(store2, s) == [] && Pending(trades2, s) == []
    requires flushes2 == if saved then flushes + [f] else flushes
    requires done2 == if saved then done + [Flushed(f, Delivered(store1, wakes[i].depths, |wakes[i].depths|),
                                                    TradesDelivered(trades1, wakes[i].trades, |wakes[i].trades|),
                                                    wakes[i].books)] else done
    requires at2 == if saved then at + [i] else at
    ensures Accounted(markets, wakes, next, log0, store0, trades0, nummsg0, flushes2, done2, at2, log2, store2, trades2, nummsg2)
  {
    PassAccountedStep(markets, wakes, i, log0, store0, trades0, nummsg0, flushes, done, at,
                      log1, store1, trades1, nummsg1, saved, f, log2, store2, trades2, nummsg2);
  }

  class Writer<J> {
    const markets: seq<string>
    /** `self.L2folder` */
    const folder: string
    /** `datetime.datetime.utcfromtimestamp(ts).isoformat()` */
    const isoformat: int -> string

    /** `self.store`: depth messages per market since the last flush. */
    var store: map<string, seq<J>>
    /** `self.tradestore`: trade messages per market since the last flush. */
    var tradestore: map<string, seq<TradeMsg<J>>>
    /** `self.nummsg` */
    var nummsg: map<string, int>
    /** Every file written so far, in order. */
    ghost var log: seq<FileWrite<J>>

    constructor (markets: seq<string>, dataFolder: string, isoformat: int -> string)
      ensures this.markets == markets && folder == dataFolder + "/L2" && this.isoformat == isoformat
      ensures store == map[] && tradestore == map[] && nummsg == map[] && log == []
    {
      this.markets := markets;
      this.folder := dataFolder + "/L2";
      this.isoformat := isoformat;
      store, tradestore, nummsg := map[], map[], map[];
      log := [];
    }

    /** The file-name stamp of a timestamp. */
    function Stamp(ts: int): (r: string)
      ensures |r| == |isoformat(ts)| && ':' !in r
      ensures ':' !in isoformat(ts) ==> r == isoformat(ts)
    {
      DashedFixed(isoformat(ts));
      Dashed(isoformat(ts))
    }

    /** The files one flush writes, in order: the update and trades file of
        every market named by `prev_ts`, then, unless `cur_ts` is 0, one
        snapshot file per market named by `cur_ts`. */
    function FlushLog(d: Flushed<J>): (r: seq<FileWrite<J>>)
      ensures |r| == 2 * |markets| + (if d.flush.CurArg() != 0 then |markets| else 0)
    {
      FlushFiles(folder, markets, Stamp(d.flush.prevTs), Stamp(d.flush.CurArg()), d.flush.CurArg() != 0, d.store, d.trades, d.books)
    }

    /** The files a sequence of flushes writes, one flush after the other. */
    function FlushedLog(done: seq<Flushed<J>>): seq<FileWrite<J>> {
      if done == [] then [] else FlushedLog(done[..|done| - 1]) + FlushLog(done[|done| - 1])
    }

    /** One more flush appends exactly its files after the earlier ones. */
    lemma FlushedLogSnoc(done: seq<Flushed<J>>, d: Flushed<J>)
      ensures FlushedLog(done + [d]) == FlushedLog(done) + FlushLog(d)
    {
      assert (done + [d])[..|done|] == done;
    }

    /** `on_depth`: append the message to its market's buffer. */
    method OnDepth(ev: DepthEvent<J>)
      modifies this
      ensures store == old(store)[ev.symbol := Pending(old(store), ev.symbol) + [ev.msg]]
      ensures forall s :: Pending(store, s) == Pending(old(store), s) + (if s == ev.symbol then [ev.msg] else [])
      ensures tradestore == old(tradestore) && nummsg == old(nummsg) && log == old(log)
    {
      store := store[ev.symbol := Pending(store, ev.symbol) + [ev.msg]];
    }

    /** `on_aggtrades`: append the message to the buffer of market `msg["s"]`. */
    method OnTrade(msg: TradeMsg<J>)
      modifies this
      ensures tradestore == old(tradestore)[msg.s := Pending(old(tradestore), msg.s) + [msg]]
      ensures forall s :: Pending(tradestore, s) == Pending(old(tradestore), s) + (if s == msg.s then [msg] else [])
      ensures store == old(store) && nummsg == old(nummsg) && log == old(log)
    {
      tradestore := tradestore[msg.s := Pending(tradestore, msg.s) + [msg]];
    }

    /** The first loop of `save_snapshot`: for every market in order, take
        its buffers, empty them, zero its counter and write its update and
        trades files named by `upds`. */
    method DrainBuffers(upds: string)
      modifies this
      ensures store == Cleared(old(store), markets, |markets|)
      ensures tradestore == Cleared(old(tradestore), markets, |markets|)
      ensures nummsg == Zeroed(old(nummsg), markets, |markets|)
      ensures log == old(log) + DrainLog(folder, upds, markets, old(store), old(tradestore), |markets|)
    {
      for i := 0 to |markets|
        invariant store == Cleared(old(store), markets, i)
        invariant tradestore == Cleared(old(tradestore), markets, i)
        invariant nummsg == Zeroed(old(nummsg), markets, i)
        invariant log == old(log) + DrainLog(folder, upds, markets, old(store), old(tradestore), i)
      {
        var symbol := markets[i];
        var tosave := Pending(store, symbol);
        store := store[symbol := []];
        nummsg := nummsg[symbol := 0];
        var tradetosave := Pending(tradestore, symbol);
        tradestore := tradestore[symbol := []];
        log := log + [FileWrite(symbol, FilePath(folder, symbol, upds, UpdateSuffix), Depths(tosave)),
                      FileWrite(symbol, FilePath(folder, symbol, upds, TradesSuffix), Trades(tradetosave))];
      }
    }

    /** The second loop of `save_snapshot`: one order-book snapshot file per
        market, named by `snap`. */
    method WriteSnapshots(snap: string, books: string -> J)
      modifies this
      ensures store == old(store) && tradestore == old(tradestore) && nummsg == old(nummsg)
      ensures log == old(log) + SnapLog(folder, snap, markets, books, |markets|)
    {
      for i := 0 to |markets|
        invariant store == old(store) && tradestore == old(tradestore) && nummsg == old(nummsg)
        invariant log == old(log) + SnapLog(folder, snap, markets, books, i)
      {
        var symbol := markets[i];
        log := log + [FileWrite(symbol, FilePath(folder, symbol, snap, SnapshotSuffix), Book(books(symbol)))];
      }
    }

    /** `save_snapshot(cur_ts, prev_ts)`: drain every market's buffers into
        update and trades files named by `prev_ts`; then, unless `cur_ts` is
        0, write one order-book snapshot per market named by `cur_ts`. Every
        buffered message is written to exactly one file write of the log,
        in order; whether a later write to the same path replaces it on disk
        is what `Disk` and `FlushOnDisk` describe. */
    method SaveSnapshot(curTs: int, prevTs: int, books: string -> J)
      modifies this
      ensures store == Cleared(old(store), markets, |markets|)
      ensures tradestore == Cleared(old(tradestore), markets, |markets|)
      ensures nummsg == Zeroed(old(nummsg), markets, |markets|)
      ensures forall s :: s in markets ==> Pending(store, s) == [] && Pending(tradestore, s) == []
      ensures log == old(log) + DrainLog(folder, Stamp(prevTs), markets, old(store), old(tradestore), |markets|)
                    + (if curTs != 0 then SnapLog(folder, Stamp(curTs), markets, books, |markets|) else [])
      ensures forall s :: HeldDepths(log, store, s) == HeldDepths(old(log), old(store), s) && HeldTrades(log, tradestore, s) == HeldTrades(old(log), old(tradestore), s)
    {
      var snap := Stamp(curTs);
      var upds := Stamp(prevTs);
      DrainBuffers(upds);
      if curTs != 0 {
        WriteSnapshots(snap, books);
      } else {
        assert log == log + [];
      }
      forall s ensures HeldDepths(log, store, s) == HeldDepths(old(log), old(store), s) && HeldTrades(log, tradestore, s) == HeldTrades(old(log), old(tradestore), s) {
        FlushDepths(old(log), folder, upds, snap, markets, old(store), old(tradestore), books, curTs != 0, s);
        FlushTrades(old(log), folder, upds, snap, markets, old(store), old(tradestore), books, curTs != 0, s);
      }
      ClearedAll(old(store), markets);
      ClearedAll(old(tradestore), markets);
    }

    /** The depth-cache callbacks for a batch of events, in order. */
    method ReceiveDepths(depths: seq<DepthEvent<J>>)
      modifies this
      ensures store == Delivered(old(store), depths, |depths|)
      ensures tradestore == old(tradestore) && nummsg == old(nummsg) && log == old(log)
    {
      for i := 0 to |depths|
        invariant store == Delivered(old(store), depths, i)
        invariant tradestore == old(tradestore) && nummsg == old(nummsg) && log == old(log)
      {
        OnDepth(depths[i]);
      }
    }

    /** The aggregated-trade callbacks for a batch of messages, in order. */
    method ReceiveTrades(trades: seq<TradeMsg<J>>)
      modifies this
      ensures tradestore == TradesDelivered(old(tradestore), trades, |trades|)
      ensures store == old(store) && nummsg == old(nummsg) && log == old(log)
    {
      for i := 0 to |trades|
        invariant tradestore == TradesDelivered(old(tradestore), trades, i)
        invariant store == old(store) && nummsg == old(nummsg) && log == old(log)
      {
        OnTrade(trades[i]);
      }
    }

    /** One pass of the writing loop's body after the sleep: the messages
        that arrived reach the callbacks, the scheduler decides, and a flush
        it orders is performed. */
    method Iteration(w: Wake<J>, sched: Sched, savePeriod: int, stopat: int) returns (r: StepResult)
      modifies this
      ensures r == Step(sched, w.tick, savePeriod, stopat)
      ensures forall s :: HeldDepths(log, store, s) == HeldDepths(old(log), old(store), s) + DepthsFor(w.depths, |w.depths|, s)
      ensures forall s :: HeldTrades(log, tradestore, s) == HeldTrades(old(log), old(tradestore), s) + TradesFor(w.trades, |w.trades|, s)
      // a pass that does not flush only delivers the messages
      ensures !r.action.Save? ==> store == Delivered(old(store), w.depths, |w.depths|)
      ensures !r.action.Save? ==> tradestore == TradesDelivered(old(tradestore), w.trades, |w.trades|)
      ensures !r.action.Save? ==> nummsg == old(nummsg)
      // a pass that flushes empties and zeroes every market after delivering the messages
      ensures r.action.Save? ==> store == Cleared(Delivered(old(store), w.depths, |w.depths|), markets, |markets|)
      ensures r.action.Save? ==> tradestore == Cleared(TradesDelivered(old(tradestore), w.trades, |w.trades|), markets, |markets|)
      ensures r.action.Save? ==> nummsg == Zeroed(old(nummsg), markets, |markets|)
      ensures r.action.Save? ==> forall s :: s in markets ==> Pending(store, s) == [] && Pending(tradestore, s) == []
      // and writes that flush's files, with the buffers as the messages left them
      ensures r.action.Save? ==>
                log == old(log) + FlushLog(Flushed(r.action.flush, Delivered(old(store), w.depths, |w.depths|),
                                                   TradesDelivered(old(tradestore), w.trades, |w.trades|), w.books))
      // any other pass writes nothing
      ensures !r.action.Save? ==> log == old(log)
    {
      ReceiveDepths(w.depths);
      ReceiveTrades(w.trades);
      forall s ensures HeldDepths(log, store, s) == HeldDepths(old(log), old(store), s) + DepthsFor(w.depths, |w.depths|, s)
                    && HeldTrades(log, tradestore, s) == HeldTrades(old(log), old(tradestore), s) + TradesFor(w.trades, |w.trades|, s)
      {
        DeliveredAppends(old(store), w.depths, |w.depths|, s);
        TradesDeliveredAppends(old(tradestore), w.trades, |w.trades|, s);
        Regroup3(DepthsWritten(log, s), Pending(old(store), s), DepthsFor(w.depths, |w.depths|, s));
        Regroup3(TradesWritten(log, s), Pending(old(tradestore), s), TradesFor(w.trades, |w.trades|, s));
      }
      r := Step(sched, w.tick, savePeriod, stopat);
      if r.action.Save? {
        var f := r.action.flush;
        ghost var log0 := log;
        SaveSnapshot(f.CurArg(), f.prevTs, w.books);
        Regroup3(log0, DrainLog(folder, Stamp(f.prevTs), markets, Delivered(old(store), w.depths, |w.depths|),
                                TradesDelivered(old(tradestore), w.trades, |w.trades|), |markets|),
                 if f.CurArg() != 0 then SnapLog(folder, Stamp(f.CurArg()), markets, w.books, |markets|) else []);
      }
    }

    /** Iteration `i` of the writing loop together with its accounting:
        `Accounted` is kept, and a flush is recorded with the buffers it
        found, the snapshots it wrote and the files it wrote. */
    method Pass(wakes: seq<Wake<J>>, i: nat, sched: Sched, savePeriod: int, stopat: int,
                ghost log0: seq<FileWrite<J>>, ghost store0: map<string, seq<J>>, ghost trades0: map<string, seq<TradeMsg<J>>>,
                ghost nummsg0: map<string, int>, ghost flushes: seq<Flush>, ghost done: seq<Flushed<J>>, ghost at: seq<nat>,
                ghost ticks: seq<Tick>)
      returns (r: StepResult, i': nat, ghost flushes': seq<Flush>, ghost done': seq<Flushed<J>>, ghost at': seq<nat>)
      requires i < |wakes| && i < |ticks| && ticks[i] == wakes[i].tick
      requires Run(savePeriod, stopat, ticks, 0, Sched(0, 0)) == Then(flushes, at, Run(savePeriod, stopat, ticks, i, sched))
      requires Accounted(markets, wakes, i, log0, store0, trades0, nummsg0, flushes, done, at, log, store, tradestore, nummsg)
      requires log == log0 + FlushedLog(done)
      modifies this
      ensures i' == i + 1
      ensures r == Step(sched, wakes[i].tick, savePeriod, stopat)
      // the reference run ends here as the loop does, or goes on as the loop does
      ensures ExitOf(r.action) != Exhausted ==> Run(savePeriod, stopat, ticks, 0, Sched(0, 0)) == Outcome(flushes', at', ExitOf(r.action), i')
      ensures ExitOf(r.action) == Exhausted
              ==> Run(savePeriod, stopat, ticks, 0, Sched(0, 0)) == Then(flushes', at', Run(savePeriod, stopat, ticks, i', r.next))
      ensures Accounted(markets, wakes, i', log0, store0, trades0, nummsg0, flushes', done', at', log, store, tradestore, nummsg)
      ensures log == log0 + FlushedLog(done')
      ensures r.action.Save? ==> forall s :: s in markets ==> Pending(store, s) == [] && Pending(tradestore, s) == []
      ensures r.action.Save? ==> flushes' == flushes + [r.action.flush] && at' == at + [i]
      ensures r.action.Save? ==>
                done' == done + [Flushed(r.action.flush, Delivered(old(store), wakes[i].depths, |wakes[i].depths|),
                                         TradesDelivered(old(tradestore), wakes[i].trades, |wakes[i].trades|), wakes[i].books)]
      ensures !r.action.Save? ==> flushes' == flushes && done' == done && at' == at
    {
      ghost var log1, store1, trades1, nummsg1 := log, store, tradestore, nummsg;
      i' := i + 1;
      var w := wakes[i];
      r := Iteration(w, sched, savePeriod, stopat);
      ghost var f := if r.action.Save? then r.action.flush else Closing(0);
      ghost var d := Flushed(f, Delivered(store1, w.depths, |w.depths|), TradesDelivered(trades1, w.trades, |w.trades|), w.books);
      if r.action.Save? {
        flushes', done', at' := flushes + [f], done + [d], at + [i];
      } else {
        flushes', done', at' := flushes, done, at;
      }
      RunAdvance(savePeriod, stopat, ticks, i, sched, flushes, at, Sched(0, 0), r, flushes', at', i');
      PassAccounted(markets, wakes, i, log0, store0, trades0, nummsg0, flushes, done, at,
                    log1, store1, trades1, nummsg1, r.action.Save?, f, log, store, tradestore, nummsg,
                    i', flushes', done', at');
      assert log == log0 + FlushedLog(done') by {
        if r.action.Save? {
          FlushedLogSnoc(done, d);
          Regroup3(log0, FlushedLog(done), FlushLog(d));
        }
      }
    }

    /** `run_writer(SAVE_PERIOD, ...)` with the stop deadline `stopat`, over
        the iterations `wakes` presents. It performs exactly the flushes of
        the reference run `Run`, in the same iterations, and ends as it does
        after the same number of iterations, and the files it writes
        are those flushes' files, one flush after the other. Every message
        that arrived has been written to a file or is still buffered, once and
        in order (in the log of writes; on disk a later flush may replace a
        file, see `FlushOnDisk`). After the stop-time flush no market of the
        writer has anything buffered. */
    method RunWriter(savePeriod: int, stopat: int, wakes: seq<Wake<J>>)
      returns (exit: Exit, ghost flushes: seq<Flush>, ghost done: seq<Flushed<J>>, ghost at: seq<nat>, consumed: nat)
      modifies this
      ensures consumed <= |wakes|
      // the flushes, the iterations that performed them, how it ends and after how many iterations
      ensures Outcome(flushes, at, exit, consumed)
              == Run(savePeriod, stopat, Ticks(wakes[..if |wakes| < Iterations then |wakes| else Iterations]), 0, Sched(0, 0))
      ensures exit == Exhausted ==> consumed == if |wakes| < Iterations then |wakes| else Iterations
      ensures exit == Stopped ==> forall s :: s in markets ==> Pending(store, s) == [] && Pending(tradestore, s) == []
      // every message that arrived is held, flush k took place in iteration at[k] and drained
      // what arrived since the flush before it, the buffers hold what arrived since the last flush
      ensures Accounted(markets, wakes, consumed, old(log), old(store), old(tradestore), old(nummsg), flushes, done, at,
                        log, store, tradestore, nummsg)
      // the files written are those of the flushes, one flush after the other
      ensures log == old(log) + FlushedLog(done)
    {
      ghost var log0, store0, trades0, nummsg0 := log, store, tradestore, nummsg;
      var n := if |wakes| < Iterations then |wakes| else Iterations;
      ghost var ticks := Ticks(wakes[..n]);
      var sched := Sched(0, 0);
      exit, flushes, done, at, consumed := Exhausted, [], [], [], 0;
      AccountedInitially(markets, wakes, log, store, tradestore, nummsg);
      while consumed < n && exit == Exhausted
        invariant consumed <= n
        invariant exit == Exhausted ==> Run(savePeriod, stopat, ticks, 0, Sched(0, 0)) == Then(flushes, at, Run(savePeriod, stopat, ticks, consumed, sched))
        invariant exit != Exhausted ==> Run(savePeriod, stopat, ticks, 0, Sched(0, 0)) == Outcome(flushes, at, exit, consumed)
        invariant exit == Stopped ==> forall s :: s in markets ==> Pending(store, s) == [] && Pending(tradestore, s) == []
        invariant Accounted(markets, wakes, consumed, log0, store0, trades0, nummsg0, flushes, done, at,
                            log, store, tradestore, nummsg)
        invariant log == log0 + FlushedLog(done)
      {
        var r;
        r, consumed, flushes, done, at := Pass(wakes, consumed, sched, savePeriod, stopat, log0, store0, trades0,
                                               nummsg0, flushes, done, at, ticks);
        exit := ExitOf(r.action);
        sched := r.next;
      }
      if exit == Exhausted {
        ThenNothing(flushes, at, Exhausted, n);
      }
    }
  }
}
