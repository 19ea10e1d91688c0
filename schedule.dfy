/** The flush scheduler of the recorder's writing loop: the wake-up
    alignment, the save bucket, one iteration of the loop as a pure state
    transition (`Step`), and the reference run over a trace of clock
    readings (`Run`) with the properties every run has. */
module Schedule {

  /** Seconds between two wake-ups of the writing loop (PERIOD_L2). */
  const PeriodL2: int := 10

  /** Bound of the loop's `range`. */
  const Iterations: int := 999999999

  /** Python's `a // b`: division rounded towards minus infinity. Dafny's
      `/` is Euclidean, which agrees with it only for a positive divisor. */
  function FloorDiv(a: int, b: int): (q: int)
    requires b != 0
    ensures b > 0 ==> q * b <= a < q * b + b
    ensures b < 0 ==> q * b + b < a <= q * b
  {
    if b > 0 then a / b else (-a) / (-b)
  }

  /** The save bucket `int(ti // SAVE_PERIOD) * SAVE_PERIOD`: the multiple of
      the period that starts the interval holding `ti`. */
  function Bucket(ti: int, savePeriod: int): (b: int)
    requires savePeriod != 0
    ensures b % savePeriod == 0
    ensures savePeriod > 0 ==> b <= ti < b + savePeriod
    ensures savePeriod < 0 ==> b + savePeriod < ti <= b
  {
    var q := FloorDiv(ti, savePeriod);
    MultipleMod(q, savePeriod);
    q * savePeriod
  }

  lemma MultipleMod(q: int, p: int)
    requires p != 0
    ensures (q * p) % p == 0
  {
    var a := q * p;
    var r, d := a % p, a / p;
    assert a == d * p + r && 0 <= r < Abs(p);
    Distrib(q, d, p);
    if q != d {
      AwayFromZero(q - d, p);
      assert false;
    }
  }

  function Abs(x: int): int {
    if x < 0 then -x else x
  }

  lemma Distrib(a: int, b: int, p: int)
    ensures (a - b) * p == a * p - b * p
  {
  }

  /** A non-zero multiple of `p` is at least `|p|` away from 0. */
  lemma AwayFromZero(k: int, p: int)
    requires k != 0 && p != 0
    ensures k * p >= Abs(p) || k * p <= -Abs(p)
  {
    if k > 0 {
      assert k * p == (k - 1) * p + p;
      if p > 0 { assert (k - 1) * p >= 0; } else { assert (k - 1) * p <= 0; }
    } else {
      assert k * p == (k + 1) * p - p;
      if p > 0 { assert (k + 1) * p <= 0; } else { assert (k + 1) * p >= 0; }
    }
  }

  /** For a positive `p`, a larger factor gives a product at least `p` larger. */
  lemma GapAtLeast(a: int, b: int, p: int)
    requires a > b && p > 0
    ensures a * p >= b * p + p
  {
    var k := a - b;
    assert k * p == (k - 1) * p + p;
    assert (k - 1) * p >= 0;
    Distrib(a, b, p);
  }

  /** The sleep `PERIOD_L2 - t % PERIOD_L2` before the next wake-up: at most
      one period, never zero, and it lands on a multiple of the period. */
  function WakeDelay(t: int): (d: int)
    ensures 0 < d <= PeriodL2
    ensures (t + d) % PeriodL2 == 0
  {
    PeriodL2 - t % PeriodL2
  }

  /** The wake-up instant is the first multiple of the period strictly
      after `t`: no boundary is skipped. */
  lemma WakeIsNextBoundary(t: int, m: int)
    requires m % PeriodL2 == 0 && t < m
    ensures t < t + WakeDelay(t) <= m
  {
    var w := t + WakeDelay(t);
    assert w == (t / PeriodL2 + 1) * PeriodL2;
    assert m == (m / PeriodL2) * PeriodL2;
    assert t / PeriodL2 < m / PeriodL2;
  }

  /** A bucket that brackets `ti` is the bucket of `ti`. */
  lemma BucketUnique(ti: int, savePeriod: int, k: int)
    requires savePeriod > 0
    requires k * savePeriod <= ti < k * savePeriod + savePeriod
    ensures Bucket(ti, savePeriod) == k * savePeriod
  {
    var q := FloorDiv(ti, savePeriod);
    if q > k {
      GapAtLeast(q, k, savePeriod);
      assert false;
    } else if q < k {
      GapAtLeast(k, q, savePeriod);
      assert false;
    }
  }

  /** With a clock that does not go backwards, buckets do not go backwards. */
  lemma BucketMonotone(t1: int, t2: int, savePeriod: int)
    requires savePeriod > 0 && t1 <= t2
    ensures Bucket(t1, savePeriod) <= Bucket(t2, savePeriod)
  {
    var q1, q2 := FloorDiv(t1, savePeriod), FloorDiv(t2, savePeriod);
    if q1 > q2 {
      GapAtLeast(q1, q2, savePeriod);
      assert false;
    } else if q1 < q2 {
      GapAtLeast(q2, q1, savePeriod);
    }
  }

  /** What the loop observes on one wake-up: `int(time.time())`, whether the
      socket manager is alive, and `datetime.now()`, all in seconds. */
  datatype Tick = Tick(ti: int, alive: bool, now: int)

  /** The loop's local variables `th` and `prev_th`. */
  datatype Sched = Sched(th: int, prevTh: int)

  /** One call of `save_snapshot`. A periodic flush advances to `bucket`; a
      closing flush is the one at the stop time. */
  datatype Flush =
    | Periodic(bucket: int, curTs: int, prevTs: int)
    | Closing(prevTs: int)
  {
    /** The `cur_ts` argument of the call; 0 for the closing flush. */
    function CurArg(): int {
      if Periodic? then curTs else 0
    }
  }

  /** What one iteration does: `Crash` is the exception handler's
      `os._exit(1)`, `Dead` the break on a dead socket manager. */
  datatype Action = Crash | Dead | Save(flush: Flush) | Idle

  datatype StepResult = StepResult(action: Action, next: Sched)

  /** How the loop ended. */
  datatype Exit = Exhausted | SocketDead | Stopped | Crashed

  /** One iteration of the writing loop after its sleep. */
  function Step(s: Sched, tick: Tick, savePeriod: int, stopat: int): (r: StepResult)
    // a zero period raises ZeroDivisionError before anything else is looked at
    ensures r.action.Crash? <==> savePeriod == 0
    // a dead socket manager ends the loop whatever the clocks say
    ensures r.action.Dead? <==> savePeriod != 0 && !tick.alive
    // the stop time ends the loop with one flush whose update files use prev_th
    ensures r.action == Save(Closing(s.prevTh)) <==> savePeriod != 0 && tick.alive && tick.now >= stopat
    // a periodic flush happens exactly when the bucket has advanced past th
    ensures (r.action.Save? && r.action.flush.Periodic?) <==>
              savePeriod != 0 && tick.alive && tick.now < stopat && Bucket(tick.ti, savePeriod) > s.th
    ensures r.action.Save? && r.action.flush.Periodic? ==>
              var f := r.action.flush;
              f.bucket == Bucket(tick.ti, savePeriod) > s.th &&
              // th becomes the new bucket, prev_th the stamp of the snapshot just taken
              r.next == Sched(f.bucket, f.curTs) &&
              // the first flush is stamped with the clock, later ones with the bucket
              (s.th == 0 ==> f.curTs == f.prevTs == tick.ti) &&
              (s.th != 0 ==> f.curTs == f.bucket && f.prevTs == s.prevTh)
    // otherwise the iteration does nothing
    ensures r.action.Idle? <==>
              savePeriod != 0 && tick.alive && tick.now < stopat && Bucket(tick.ti, savePeriod) <= s.th
    ensures !(r.action.Save? && r.action.flush.Periodic?) ==> r.next == s
  {
    if savePeriod == 0 then StepResult(Crash, s)
    else
      var newTh := Bucket(tick.ti, savePeriod);
      if !tick.alive then StepResult(Dead, s)
      else if tick.now >= stopat then StepResult(Save(Closing(s.prevTh)), s)
      else if newTh > s.th then
        if s.th == 0 then StepResult(Save(Periodic(newTh, tick.ti, tick.ti)), Sched(newTh, tick.ti))
        else StepResult(Save(Periodic(newTh, newTh, s.prevTh)), Sched(newTh, newTh))
      else StepResult(Idle, s)
  }

  /** The flushes a run performs, in order, the trace positions of the
      iterations that performed them (`at`), how the run ends, and the
      position it ends at: one past the iteration that ended it, or the
      length of the trace. */
  datatype Outcome = Outcome(flushes: seq<Flush>, at: seq<int>, exit: Exit, end: int)

  /** A run that performs `fs` at positions `ps` before going on as `o`. */
  function Then(fs: seq<Flush>, ps: seq<int>, o: Outcome): Outcome {
    Outcome(fs + o.flushes, ps + o.at, o.exit, o.end)
  }

  /** The reference run of the writing loop over a trace of clock readings,
      from position `pos` of the trace and scheduler state `s`. */
  function Run(savePeriod: int, stopat: int, ticks: seq<Tick>, pos: nat, s: Sched): (r: Outcome)
    requires pos <= |ticks|
    // at most one flush per iteration, each with its position
    ensures |r.at| == |r.flushes| <= |ticks| - pos
    ensures pos <= r.end <= |ticks|
    decreases |ticks| - pos
  {
    if pos == |ticks| then Outcome([], [], Exhausted, pos)
    else
      var r := Step(s, ticks[pos], savePeriod, stopat);
      match r.action
      case Crash => Outcome([], [], Crashed, pos + 1)
      case Dead => Outcome([], [], SocketDead, pos + 1)
      case Idle => Run(savePeriod, stopat, ticks, pos + 1, r.next)
      case Save(f) =>
        if f.Closing? then Outcome([f], [pos], Stopped, pos + 1)
        else Then([f], [pos], Run(savePeriod, stopat, ticks, pos + 1, r.next))
  }

  lemma ThenThen(a: seq<Flush>, b: seq<Flush>, pa: seq<int>, pb: seq<int>, o: Outcome)
    ensures Then(a, pa, Then(b, pb, o)) == Then(a + b, pa + pb, o)
  {
    assert a + (b + o.flushes) == (a + b) + o.flushes;
    assert pa + (pb + o.at) == (pa + pb) + o.at;
  }

  lemma ThenNothing(a: seq<Flush>, pa: seq<int>, e: Exit, end: int)
    ensures Then(a, pa, Outcome([], [], e, end)) == Outcome(a, pa, e, end)
  {
    assert a + [] == a && pa + [] == pa;
  }

  /** How the writing loop ends after an iteration that decided `a`;
      `Exhausted` when it goes on to the next iteration. */
  function ExitOf(a: Action): Exit {
    match a
    case Crash => Crashed
    case Dead => SocketDead
    case Save(f) => if f.Closing? then Stopped else Exhausted
    case Idle => Exhausted
  }

  /** The reference run, after the iterations before position `i` ordered
      the flushes `fs` at positions `ps`, advanced by the iteration at
      position `i`, which gives `r`: it ends there, at position `next`, with
      that iteration's flush if any, or goes on from the next scheduler
      state at position `next`. */
  lemma RunAdvance(savePeriod: int, stopat: int, ticks: seq<Tick>, i: nat, s: Sched, fs: seq<Flush>, ps: seq<nat>, s0: Sched,
                   r: StepResult, fs': seq<Flush>, ps': seq<nat>, next: nat)
    requires i < |ticks| && next == i + 1
    requires Run(savePeriod, stopat, ticks, 0, s0) == Then(fs, ps, Run(savePeriod, stopat, ticks, i, s))
    requires r == Step(s, ticks[i], savePeriod, stopat)
    requires fs' == if r.action.Save? then fs + [r.action.flush] else fs
    requires ps' == if r.action.Save? then ps + [i] else ps
    ensures ExitOf(r.action) != Exhausted ==> Run(savePeriod, stopat, ticks, 0, s0) == Outcome(fs', ps', ExitOf(r.action), next)
    ensures ExitOf(r.action) == Exhausted ==> Run(savePeriod, stopat, ticks, 0, s0) == Then(fs', ps', Run(savePeriod, stopat, ticks, next, r.next))
  {
    match r.action {
      case Crash => ThenNothing(fs, ps, Crashed, next);
      case Dead => ThenNothing(fs, ps, SocketDead, next);
      case Idle =>
      case Save(f) =>
        if f.Closing? {
          ThenThen(fs, [f], ps, [i], Outcome([], [], Stopped, next));
          ThenNothing([f], [i], Stopped, next);
        } else {
          ThenThen(fs, [f], ps, [i], Run(savePeriod, stopat, ticks, i + 1, r.next));
        }
    }
  }

  /** Every position lies in `[lo, hi)`. */
  predicate Within(ps: seq<int>, lo: int, hi: int) {
    forall k :: 0 <= k < |ps| ==> lo <= ps[k] < hi
  }

  predicate StrictlyIncreasing(ps: seq<int>) {
    forall j, k :: 0 <= j < k < |ps| ==> ps[j] < ps[k]
  }

  /** How a run ends: at the end of the trace when exhausted, and right
      after its last flush when stopped at the stop time. */
  predicate EndsAt(o: Outcome, n: int) {
    (o.exit == Exhausted ==> o.end == n) &&
    (o.exit == Stopped ==> |o.at| > 0 && o.at[|o.at| - 1] == o.end - 1)
  }

  /** The positions of a run's flushes strictly increase and lie between
      where it started and where it ended. An exhausted run ends at the end
      of the trace, and a run that stopped at the stop time performed its
      last flush in its last iteration. */
  lemma {:induction false} RunPositions(savePeriod: int, stopat: int, ticks: seq<Tick>, pos: nat, s: Sched)
    requires pos <= |ticks|
    ensures Within(Run(savePeriod, stopat, ticks, pos, s).at, pos, Run(savePeriod, stopat, ticks, pos, s).end)
    ensures StrictlyIncreasing(Run(savePeriod, stopat, ticks, pos, s).at)
    ensures EndsAt(Run(savePeriod, stopat, ticks, pos, s), |ticks|)
    decreases |ticks| - pos
  {
    if pos < |ticks| {
      var r := Step(s, ticks[pos], savePeriod, stopat);
      if r.action.Idle? {
        assert Run(savePeriod, stopat, ticks, pos, s) == Run(savePeriod, stopat, ticks, pos + 1, r.next);
        RunPositions(savePeriod, stopat, ticks, pos + 1, r.next);
      } else if r.action.Save? && r.action.flush.Periodic? {
        var tail := Run(savePeriod, stopat, ticks, pos + 1, r.next);
        RunPositions(savePeriod, stopat, ticks, pos + 1, r.next);
        var o := Run(savePeriod, stopat, ticks, pos, s);
        assert o == Then([r.action.flush], [pos], tail);
        ConsPosition(pos, tail.at, tail.end);
      }
    }
  }

  /** A flush at `p` before later ones keeps the positions in order. */
  lemma ConsPosition(p: int, ps: seq<int>, end: int)
    requires p < end && Within(ps, p + 1, end) && StrictlyIncreasing(ps)
    ensures Within([p] + ps, p, end) && StrictlyIncreasing([p] + ps)
    ensures |ps| > 0 ==> ([p] + ps)[|ps|] == ps[|ps| - 1]
  {
    var qs := [p] + ps;
    assert forall k :: 0 < k < |qs| ==> qs[k] == ps[k - 1];
  }

  /** Every flush but the last is periodic. */
  predicate ClosingOnlyLast(fs: seq<Flush>) {
    forall k :: 0 <= k < |fs| - 1 ==> fs[k].Periodic?
  }

  predicate EndsClosing(fs: seq<Flush>) {
    |fs| > 0 && fs[|fs| - 1].Closing?
  }

  predicate BucketsAbove(fs: seq<Flush>, th: int) {
    forall k :: 0 <= k < |fs| && fs[k].Periodic? ==> fs[k].bucket > th
  }

  predicate BucketsIncreasing(fs: seq<Flush>) {
    forall i, j :: 0 <= i < j < |fs| && fs[i].Periodic? && fs[j].Periodic? ==> fs[i].bucket < fs[j].bucket
  }

  /** Each flush after the first names its update and trades files with the
      `cur_ts` of the flush before it. */
  predicate Chained(fs: seq<Flush>) {
    forall k :: 0 <= k < |fs| - 1 ==> fs[k].Periodic? && fs[k + 1].prevTs == fs[k].curTs
  }

  /** The first flush from state `s` uses `s.prevTh`, except a periodic one
      from `th == 0`, which uses its own stamp. */
  predicate StartsFrom(fs: seq<Flush>, s: Sched) {
    |fs| > 0 ==> fs[0].prevTs == (if s.th == 0 && fs[0].Periodic? then fs[0].curTs else s.prevTh)
  }

  predicate StampsInBuckets(fs: seq<Flush>, savePeriod: int) {
    forall k :: 0 <= k < |fs| && fs[k].Periodic? ==>
      0 < fs[k].bucket <= fs[k].curTs < fs[k].bucket + savePeriod
  }

  /** Only the last flush of a run can be the closing one, and it is there
      exactly when the run stopped at the stop time. */
  lemma {:induction false} RunClosesLast(savePeriod: int, stopat: int, ticks: seq<Tick>, pos: nat, s: Sched)
    requires pos <= |ticks|
    ensures ClosingOnlyLast(Run(savePeriod, stopat, ticks, pos, s).flushes)
    ensures Run(savePeriod, stopat, ticks, pos, s).exit == Stopped <==> EndsClosing(Run(savePeriod, stopat, ticks, pos, s).flushes)
    decreases |ticks| - pos
  {
    if pos < |ticks| {
      var r := Step(s, ticks[pos], savePeriod, stopat);
      if r.action.Idle? {
        assert Run(savePeriod, stopat, ticks, pos, s) == Run(savePeriod, stopat, ticks, pos + 1, r.next);
        RunClosesLast(savePeriod, stopat, ticks, pos + 1, r.next);
      } else if r.action.Save? && r.action.flush.Periodic? {
        var tail := Run(savePeriod, stopat, ticks, pos + 1, r.next);
        RunClosesLast(savePeriod, stopat, ticks, pos + 1, r.next);
        var fs := Run(savePeriod, stopat, ticks, pos, s).flushes;
        assert fs == [r.action.flush] + tail.flushes;
        forall k | 0 <= k < |fs| - 1 ensures fs[k].Periodic? {
          if k > 0 { assert fs[k] == tail.flushes[k - 1]; }
        }
        assert |fs| > 1 ==> fs[|fs| - 1] == tail.flushes[|tail.flushes| - 1];
      }
    }
  }

  /** Periodic flushes go to buckets beyond the starting `th`, in strictly
      increasing order. */
  lemma {:induction false} RunBucketsIncrease(savePeriod: int, stopat: int, ticks: seq<Tick>, pos: nat, s: Sched)
    requires pos <= |ticks|
    ensures BucketsAbove(Run(savePeriod, stopat, ticks, pos, s).flushes, s.th)
    ensures BucketsIncreasing(Run(savePeriod, stopat, ticks, pos, s).flushes)
    decreases |ticks| - pos
  {
    if pos < |ticks| {
      var r := Step(s, ticks[pos], savePeriod, stopat);
      if r.action.Idle? {
        assert Run(savePeriod, stopat, ticks, pos, s) == Run(savePeriod, stopat, ticks, pos + 1, r.next) && r.next == s;
        RunBucketsIncrease(savePeriod, stopat, ticks, pos + 1, r.next);
      } else if r.action.Save? && r.action.flush.Periodic? {
        var f := r.action.flush;
        var tail := Run(savePeriod, stopat, ticks, pos + 1, r.next).flushes;
        RunBucketsIncrease(savePeriod, stopat, ticks, pos + 1, r.next);
        var fs := Run(savePeriod, stopat, ticks, pos, s).flushes;
        assert fs == [f] + tail;
        assert f.bucket == r.next.th > s.th;
        forall k | 0 <= k < |fs| && fs[k].Periodic? ensures fs[k].bucket > s.th {
          if k > 0 { assert fs[k] == tail[k - 1]; }
        }
        forall i, j | 0 <= i < j < |fs| && fs[i].Periodic? && fs[j].Periodic?
          ensures fs[i].bucket < fs[j].bucket
        {
          assert fs[j] == tail[j - 1];
          if i > 0 { assert fs[i] == tail[i - 1]; }
        }
      }
    }
  }

  /** Each flush's update and trades files are named by the stamp of the
      snapshot taken at the flush before it (for the first flush of a fresh
      loop, by its own snapshot stamp). */
  lemma {:induction false} RunChained(savePeriod: int, stopat: int, ticks: seq<Tick>, pos: nat, s: Sched)
    requires pos <= |ticks|
    requires s.th >= 0
    ensures StartsFrom(Run(savePeriod, stopat, ticks, pos, s).flushes, s)
    ensures Chained(Run(savePeriod, stopat, ticks, pos, s).flushes)
    decreases |ticks| - pos
  {
    if pos < |ticks| {
      var r := Step(s, ticks[pos], savePeriod, stopat);
      if r.action.Idle? {
        assert Run(savePeriod, stopat, ticks, pos, s) == Run(savePeriod, stopat, ticks, pos + 1, r.next) && r.next == s;
        RunChained(savePeriod, stopat, ticks, pos + 1, r.next);
      } else if r.action.Save? && r.action.flush.Periodic? {
        var f := r.action.flush;
        var tail := Run(savePeriod, stopat, ticks, pos + 1, r.next).flushes;
        RunChained(savePeriod, stopat, ticks, pos + 1, r.next);
        var fs := Run(savePeriod, stopat, ticks, pos, s).flushes;
        assert fs == [f] + tail;
        assert r.next.th > 0 && r.next.prevTh == f.curTs;
        forall k | 0 <= k < |fs| - 1
          ensures fs[k].Periodic? && fs[k + 1].prevTs == fs[k].curTs
        {
          assert fs[k + 1] == tail[k];
          if k > 0 { assert fs[k] == tail[k - 1]; }
        }
      }
    }
  }

  /** With a positive save period every periodic flush is stamped within its
      bucket, and the bucket is positive, so `cur_ts` is never 0 and the
      snapshot files are always fetched and written. */
  lemma {:induction false} RunStampsInBucket(savePeriod: int, stopat: int, ticks: seq<Tick>, pos: nat, s: Sched)
    requires pos <= |ticks|
    requires savePeriod > 0 && s.th >= 0
    ensures StampsInBuckets(Run(savePeriod, stopat, ticks, pos, s).flushes, savePeriod)
    decreases |ticks| - pos
  {
    if pos < |ticks| {
      var r := Step(s, ticks[pos], savePeriod, stopat);
      if r.action.Idle? {
        assert Run(savePeriod, stopat, ticks, pos, s) == Run(savePeriod, stopat, ticks, pos + 1, r.next) && r.next == s;
        RunStampsInBucket(savePeriod, stopat, ticks, pos + 1, r.next);
      } else if r.action.Save? && r.action.flush.Periodic? {
        var f := r.action.flush;
        var tail := Run(savePeriod, stopat, ticks, pos + 1, r.next).flushes;
        RunStampsInBucket(savePeriod, stopat, ticks, pos + 1, r.next);
        var fs := Run(savePeriod, stopat, ticks, pos, s).flushes;
        assert fs == [f] + tail;
        assert 0 < f.bucket <= f.curTs < f.bucket + savePeriod;
        forall k | 0 <= k < |fs| && fs[k].Periodic?
          ensures 0 < fs[k].bucket <= fs[k].curTs < fs[k].bucket + savePeriod
        {
          if k > 0 { assert fs[k] == tail[k - 1]; }
        }
      }
    }
  }

  /** From the loop's initial state (`th = prev_th = 0`) no bucket is
      flushed twice. */
  lemma NoBucketFlushedTwice(savePeriod: int, stopat: int, ticks: seq<Tick>, i: int, j: int)
    requires 0 <= i < |Run(savePeriod, stopat, ticks, 0, Sched(0, 0)).flushes|
    requires 0 <= j < |Run(savePeriod, stopat, ticks, 0, Sched(0, 0)).flushes|
    requires i != j
    requires Run(savePeriod, stopat, ticks, 0, Sched(0, 0)).flushes[i].Periodic?
    requires Run(savePeriod, stopat, ticks, 0, Sched(0, 0)).flushes[j].Periodic?
    ensures Run(savePeriod, stopat, ticks, 0, Sched(0, 0)).flushes[i].bucket
         != Run(savePeriod, stopat, ticks, 0, Sched(0, 0)).flushes[j].bucket
  {
    RunBucketsIncrease(savePeriod, stopat, ticks, 0, Sched(0, 0));
  }

  /** The closing flush at the stop time, when the run reaches it, writes
      its update and trades files under the stamp of the last snapshot
      (or of time 0 when no periodic flush came first) and fetches no
      snapshot. */
  lemma ClosingUsesLastStamp(savePeriod: int, stopat: int, ticks: seq<Tick>)
    requires Run(savePeriod, stopat, ticks, 0, Sched(0, 0)).exit == Stopped
    ensures ClosingEnd(Run(savePeriod, stopat, ticks, 0, Sched(0, 0)).flushes)
  {
    RunClosesLast(savePeriod, stopat, ticks, 0, Sched(0, 0));
    RunChained(savePeriod, stopat, ticks, 0, Sched(0, 0));
  }

  predicate ClosingEnd(fs: seq<Flush>) {
    var n := |fs|;
    n > 0 && fs[n - 1].CurArg() == 0 &&
    fs[n - 1].prevTs == (if n == 1 then 0 else fs[n - 2].CurArg())
  }

  /** The second flush of a run names its update and trades files exactly
      as the first did, so the messages the first flush saved (those that
      arrived before the first snapshot) are replaced on disk. */
  lemma SecondFlushReusesFirstName(savePeriod: int, stopat: int, ticks: seq<Tick>)
    requires |Run(savePeriod, stopat, ticks, 0, Sched(0, 0)).flushes| >= 2
    ensures Run(savePeriod, stopat, ticks, 0, Sched(0, 0)).flushes[0].Periodic?
    ensures Run(savePeriod, stopat, ticks, 0, Sched(0, 0)).flushes[1].prevTs
         == Run(savePeriod, stopat, ticks, 0, Sched(0, 0)).flushes[0].prevTs
         == Run(savePeriod, stopat, ticks, 0, Sched(0, 0)).flushes[0].curTs
  {
    RunChained(savePeriod, stopat, ticks, 0, Sched(0, 0));
  }
}
