/** Pacing: the throttle's per-chunk target, the caller's cancellation flag, and the polling sleep
    (`common/throttle.rs`, `common/cancel.rs`). */
module Pace {
  import opened Options
  import opened Geometry

  const U128_MAX: nat := 0xFFFF_FFFF_FFFF_FFFF_FFFF_FFFF_FFFF_FFFF

  /** Nanoseconds a chunk should take: no limit, a limit, or a refused zero rate. */
  datatype Target = Unpaced | Every(nanos: nat) | ZeroRate

  function ChunkTarget(throttle: Option<u64>): (t: Target)
  {
    match throttle
    case None => Unpaced
    case Some(rate) =>
      if rate == 0 then ZeroRate
      else
        var product := Min(BUF_SIZE * NANOS, U128_MAX);  // saturating_mul
        var ideal := product / rate;                     // checked_div
        Every(if ideal <= U64_MAX then ideal else U64_MAX)
  }

  /** The least time `k` full chunks may take. */
  function Due(t: Target, k: nat): nat
  {
    if k == 0 || !t.Every? then 0 else Due(t, k - 1) + t.nanos
  }

  lemma QuotientBounds(x: nat, m: nat)
    requires 0 < m
    ensures (x / m) * m <= x < (x / m + 1) * m && x / m <= x
  {
    var q := x / m;
    assert x == q * m + x % m;
    assert (q + 1) * m == q * m + m;
    if q > 0 { ProductAtLeast(m, q); }
  }

  /** No clamp ever fires: for every legal rate the target is the exact floor of the ideal time. No
      throttle is no target, and a zero rate is refused. */
  lemma TargetIsExact(rate: u64)
    ensures ChunkTarget(None) == Unpaced && ChunkTarget(Some(0)) == ZeroRate
    ensures 0 < rate ==> ChunkTarget(Some(rate)) == Every(BUF_SIZE * 1_000_000_000 / rate)
    ensures 0 < rate ==>
      var t := ChunkTarget(Some(rate)).nanos;
            t * rate <= BUF_SIZE * NANOS < (t + 1) * rate
  {
    if 0 < rate { QuotientBounds(BUF_SIZE * NANOS, rate); }
  }

  /** The throttle is a cumulative bound: `chunks` full chunks that together took at least one
      target each cannot have moved faster than `rate` bytes a second, up to one nanosecond of
      rounding per chunk. */
  lemma {:induction false} ThrottleBound(rate: u64, chunks: nat, took: nat)
    requires 0 < rate && 0 < chunks
    requires took >= Due(ChunkTarget(Some(rate)), chunks)
    ensures chunks * BUF_SIZE * NANOS < rate * (took + chunks)
  {
    TargetIsExact(rate);
    var t := ChunkTarget(Some(rate));
    DueIsProduct(t, chunks);
    ScaledBound(chunks, BUF_SIZE * NANOS, t.nanos, rate, took);
    assert chunks * BUF_SIZE * NANOS == chunks * (BUF_SIZE * NANOS);
  }

  /** The same for any throttle setting that is not refused. */
  lemma Throttled(throttle: Option<u64>, chunks: nat, took: nat)
    requires throttle != Some(0) && took >= Due(ChunkTarget(throttle), chunks)
    ensures throttle.Some? && 0 < chunks ==> chunks * BUF_SIZE * NANOS < throttle.value * (took + chunks)
  {
    if throttle.Some? && 0 < chunks { ThrottleBound(throttle.value, chunks, took); }
  }

  lemma ScaledBound(k: nat, work: nat, t: nat, rate: nat, took: nat)
    requires 0 < k && work < (t + 1) * rate && k * t <= took
    ensures k * work < rate * (took + k)
  {
    ScaleStrictly(k, work, (t + 1) * rate);
    assert k * ((t + 1) * rate) == (k * t + k) * rate;
    Scale(k * t + k, took + k, rate);
  }

  lemma {:induction false} DueIsProduct(t: Target, k: nat)
    requires t.Every?
    ensures Due(t, k) == k * t.nanos
  {
    if k > 0 {
      DueIsProduct(t, k - 1);
      NextMultiple(k - 1, t.nanos);
    }
  }

  lemma ScaleStrictly(k: nat, a: nat, b: nat)
    requires 0 < k && a < b
    ensures k * a < k * b
  {
    assert k * b - k * a == k * (b - a);
    ProductAtLeast(b - a, k);
  }

  /** The caller-owned `AtomicBool`: once set it stays set. `clear` counts the loads that will still
      see it clear; `None` means nobody ever sets it. */
  class CancelFlag {
    var clear: Option<nat>

    constructor (clear: Option<nat>)
      ensures this.clear == clear
    {
      this.clear := clear;
    }

    /** The flag has been seen set, or will be by the very next load. */
    predicate IsSet()
      reads this
    {
      clear == Some(0)
    }

    /** Somebody has set the flag. */
    method Raise()
      modifies this
      ensures IsSet()
    {
      clear := Some(0);
    }

    method Load() returns (raised: bool)
      modifies this
      ensures raised == old(IsSet()) && (raised ==> IsSet())
      ensures clear == if raised || old(clear) == None then old(clear) else Some(old(clear).value - 1)
    {
      if clear == Some(0) { return true; }
      if clear.Some? { clear := Some(clear.value - 1); }
      return false;
    }
  }

  /** What loading the flag any number of times does to it. */
  predicate OnlyLoads(before: Option<nat>, after: Option<nat>)
  {
    if before == None then after == None else after.Some? && after.value <= before.value
  }

  /** A monotone clock. `jitter(i)` is the time the `i`-th timed operation takes beyond what it was
      asked to; sleeps overshoot but never undershoot. */
  class Clock {
    var now: nat
    var ticks: nat
    var asked: seq<nat>  // every sleep asked for
    const jitter: nat -> nat
    const horizon: nat  // the largest representable `Instant`

    constructor (now: nat, jitter: nat -> nat, horizon: nat)
      ensures this.now == now && this.asked == [] && this.jitter == jitter && this.horizon == horizon
    {
      this.now, this.ticks, this.asked := now, 0, [];
      this.jitter, this.horizon := jitter, horizon;
    }

    method Spend()
      modifies this
      ensures now >= old(now) && asked == old(asked)
    {
      now, ticks := now + jitter(ticks), ticks + 1;
    }

    method Sleep(nanos: nat)
      modifies this
      ensures now >= old(now) + nanos && asked == old(asked) + [nanos]
    {
      now, ticks, asked := now + nanos + jitter(ticks), ticks + 1, asked + [nanos];
    }
  }

  /** A wait that looks at the flag before each sleep, none longer than `step`: once the flag is set, at
      most the sleep whose look came before it is still slept. */
  predicate Polled(clear: Option<nat>, asked: seq<nat>, clear': Option<nat>, asked': seq<nat>, step: nat)
  {
    && |asked| <= |asked'| && asked'[..|asked|] == asked
    && (forall i | |asked| <= i < |asked'| :: asked'[i] <= step)
    && (clear.Some? ==> clear'.Some? && |asked'| - |asked| + clear'.value <= clear.value)
  }

  const TICK: nat := 100_000_000

  /** `cancellable_sleep`: waits out the whole span unless the flag has been seen set, on the
      deadline path and on the countdown fallback alike. */
  method CancellableSleep(total: nat, cancel: CancelFlag, clock: Clock)
    modifies cancel, clock
    ensures clock.now >= old(clock.now) + total || cancel.IsSet()
    ensures clock.now >= old(clock.now)
    ensures OnlyLoads(old(cancel.clear), cancel.clear)
    ensures if total <= 100_000_000 then clock.asked == old(clock.asked) + if total == 0 then [] else [total]
            else Polled(old(cancel.clear), old(clock.asked), cancel.clear, clock.asked, 100_000_000)
  {
    if total <= TICK {
      if total != 0 { clock.Sleep(total); }
      return;
    }
    if clock.now + total > clock.horizon {
      var left: nat := total;
      while left != 0
        invariant left <= total
        invariant clock.now >= old(clock.now) + (total - left)
        invariant OnlyLoads(old(cancel.clear), cancel.clear)
        invariant Polled(old(cancel.clear), old(clock.asked), cancel.clear, clock.asked, TICK)
      {
        var raised := cancel.Load();
        if raised { return; }
        var step := Min(left, TICK);
        clock.Sleep(step);
        left := left - step;
      }
      return;
    }
    var deadline := clock.now + total;
    while true
      invariant clock.now >= old(clock.now)
      invariant OnlyLoads(old(cancel.clear), cancel.clear)
      invariant Polled(old(cancel.clear), old(clock.asked), cancel.clear, clock.asked, TICK)
      decreases deadline - clock.now
    {
      var raised := cancel.Load();
      if raised { return; }
      if deadline <= clock.now { return; }
      clock.Sleep(Min(deadline - clock.now, TICK));
    }
  }

  /** The post-chunk wait of every paced loop: sleep out whatever the chunk left of its target. */
  method PaceChunk(target: Target, started: nat, cancel: CancelFlag, clock: Clock)
    requires started <= clock.now
    modifies cancel, clock
    ensures clock.now >= started + Due(target, 1) || cancel.IsSet()
    ensures clock.now >= old(clock.now)
    ensures OnlyLoads(old(cancel.clear), cancel.clear)
  {
    if target.Every? {
      var elapsed := Min(clock.now - started, U64_MAX);  // u64::try_from(..).unwrap_or(u64::MAX)
      if elapsed <= target.nanos {
        CancellableSleep(target.nanos - elapsed, cancel, clock);
      }
    }
  }
}
