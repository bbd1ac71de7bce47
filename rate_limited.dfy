/** RateLimitedRunnable: a loop body run again and again, with a configured
    sleep after each pass and a pause flag that holds the loop between
    passes. The sleep is kept as whole milliseconds plus extra nanoseconds. */
module RateLimit {
  import opened Wire

  const NANOSECONDS_PER_MILLISECOND: int := 1_000_000

  /** Math.round(1000f / frequency) for a frequency of a whole number of
      hertz: the nearest whole number of milliseconds, halves rounded up. */
  function PeriodMillis(hz: int32): (ms: int64)
    requires hz != 0
  {
    if hz > 0 then (2000 + hz) / (2 * hz) else (-(2000 + hz)) / (-2 * hz)
  }

  /** The period is within half a millisecond of 1000/hz, a half rounded
      toward positive infinity. */
  lemma PeriodNearest(hz: int32)
    requires hz != 0
    ensures var ms := PeriodMillis(hz);
      if hz > 0 then (2 * ms - 1) * hz <= 2000 < (2 * ms + 1) * hz
      else (2 * ms + 1) * hz < 2000 <= (2 * ms - 1) * hz
  {
    var ms := PeriodMillis(hz);
    if hz > 0 {
      FloorDiv(2000 + hz, 2 * hz);
      assert (2 * ms - 1) * hz == 2 * hz * ms - hz;
      assert (2 * ms + 1) * hz == 2 * hz * ms + hz;
    } else {
      FloorDiv(-(2000 + hz), -2 * hz);
      assert (2 * ms - 1) * hz == -(-2 * hz * ms) - hz;
      assert (2 * ms + 1) * hz == -(-2 * hz * ms) + hz;
    }
  }

  /** Division by a positive divisor rounds down. */
  lemma FloorDiv(n: int, d: int)
    requires d > 0
    ensures d * (n / d) <= n < d * (n / d) + d
  {
    assert n == d * (n / d) + n % d;
  }

  /** getSleepNanoseconds: sleep_ms * 1000000 + sleep_ns in long arithmetic. */
  function TotalNanos(ms: int64, ns: int64): int64
  {
    Wrap64(ms * NANOSECONDS_PER_MILLISECOND + ns)
  }

  /** The (sleep_ms, sleep_ns) pair setSleepNanoseconds stores. Above 999999
      both halves get the whole milliseconds of n (toMillis), not the
      remainder. */
  function SplitNanos(n: int64): (int64, int64)
  {
    if n > 999999 then (n / NANOSECONDS_PER_MILLISECOND, n / NANOSECONDS_PER_MILLISECOND)
    else (0, n)
  }

  /** Up to 999999 ns, the whole request is kept as nanoseconds. */
  lemma SplitSmall(n: int64)
    requires n <= 999999
    ensures SplitNanos(n) == (0, n)
    ensures TotalNanos(SplitNanos(n).0, SplitNanos(n).1) == n
  {
  }

  /** Above 999999 ns the stored sleep reads back as q * 1000001 (as a long),
      q being the whole milliseconds of the request. */
  lemma SplitLarge(n: int64)
    requires n > 999999
    ensures var q := n / NANOSECONDS_PER_MILLISECOND;
      TotalNanos(SplitNanos(n).0, SplitNanos(n).1) == Wrap64(q * 1_000_001)
  {
    var q := n / NANOSECONDS_PER_MILLISECOND;
    assert q * NANOSECONDS_PER_MILLISECOND + q == q * 1_000_001;
  }

  /** The stored sleep reads back as the request exactly when the request is
      at most 999999 ns, or when its millisecond count equals its
      sub-millisecond remainder. */
  lemma SplitExactIff(n: int64)
    ensures TotalNanos(SplitNanos(n).0, SplitNanos(n).1) == n
        <==> n <= 999999 || n % NANOSECONDS_PER_MILLISECOND == n / NANOSECONDS_PER_MILLISECOND
  {
    if n > 999999 {
      var q, r := n / NANOSECONDS_PER_MILLISECOND, n % NANOSECONDS_PER_MILLISECOND;
      var v := q * 1_000_001;
      assert n == q * NANOSECONDS_PER_MILLISECOND + r;
      assert v == n - r + q;
      SplitLarge(n);
      if r != q && v >= 0x8000_0000_0000_0000 {
        assert q <= 0x8000_0000_0000_0000 / NANOSECONDS_PER_MILLISECOND;
        assert v < 0x1_0000_0000_0000_0000;
        assert Wrap64(v) == v - 0x1_0000_0000_0000_0000;
      }
    }
  }

  /** One and a half milliseconds are stored as 1 ms plus 1 ns. */
  lemma SplitOneAndAHalf()
    ensures SplitNanos(1_500_000) == (1, 1)
    ensures TotalNanos(SplitNanos(1_500_000).0, SplitNanos(1_500_000).1) == 1_000_001
  {
  }

  /** The Thread.sleep call one pass of run makes: none, sleep(ms), or
      sleep(ms, nanos) with the nanoseconds cast to int. */
  datatype SleepCall = NoSleep | SleepMillis(ms: int64) | SleepMillisNanos(ms: int64, nanos: int32)

  /** The nanoseconds a sleep call asks for. */
  function Duration(c: SleepCall): int
  {
    match c
    case NoSleep => 0
    case SleepMillis(ms) => ms * NANOSECONDS_PER_MILLISECOND
    case SleepMillisNanos(ms, nanos) => ms * NANOSECONDS_PER_MILLISECOND + nanos
  }

  /** The sleep a pass makes for the configuration (ms, ns). */
  function SleepFor(ms: int64, ns: int64): SleepCall
  {
    if ms == 0 && ns == 0 then NoSleep
    else if ns == 0 then SleepMillis(ms)
    else SleepMillisNanos(ms, Wrap32(ns))
  }

  /** A pass sleeps for the configured time, unless the nanoseconds are too
      large for the int cast; it skips the call only when nothing is
      configured. */
  lemma SleepForDuration(ms: int64, ns: int64)
    requires -0x8000_0000 <= ns < 0x8000_0000
    ensures Duration(SleepFor(ms, ns)) == ms * NANOSECONDS_PER_MILLISECOND + ns
    ensures SleepFor(ms, ns).NoSleep? <==> ms == 0 && ns == 0
  {
  }

  /** Whether Thread.sleep accepts the call: it throws
      IllegalArgumentException for negative milliseconds, and for
      nanoseconds outside 0..999999. */
  predicate SleepAccepted(c: SleepCall)
  {
    match c
    case NoSleep => true
    case SleepMillis(ms) => ms >= 0
    case SleepMillisNanos(ms, nanos) => ms >= 0 && 0 <= nanos <= 999999
  }

  /** A sleep set in whole milliseconds (setSleep, setFrequency) is accepted
      exactly when it is not negative. */
  lemma MillisAccepted(ms: int64)
    ensures SleepAccepted(SleepFor(ms, 0)) <==> ms >= 0
  {
  }

  /** A positive frequency gives an accepted sleep; a negative frequency
      from -2000 Hz down rounds to 0 and gives none; one above -2000 Hz gives
      a negative period that Thread.sleep refuses. */
  lemma FrequencyAccepted(hz: int32)
    requires hz != 0
    ensures hz > 0 ==> PeriodMillis(hz) >= 0
    ensures -2000 < hz < 0 ==> PeriodMillis(hz) < 0
    ensures hz <= -2000 ==> PeriodMillis(hz) == 0
  {
    if hz > 0 {
      DivSign(2000 + hz, 2 * hz);
    } else {
      DivSign(-(2000 + hz), -2 * hz);
    }
  }

  /** The sign of a quotient by a positive divisor. */
  lemma DivSign(n: int, d: int)
    requires d > 0
    ensures n < 0 ==> n / d < 0
    ensures 0 <= n ==> n / d >= 0
    ensures 0 <= n < d ==> n / d == 0
  {
    var q := n / d;
    FloorDiv(n, d);
    if n < 0 {
      assert d * q < 0;
    }
    if 0 <= n {
      assert d * (q + 1) > 0;
    }
    if 0 <= n < d {
      assert d * q < d;
    }
  }

  /** What setSleepNanoseconds stores is accepted for a request from 0 up to
      1000 s; a negative request of int range, or one from 1000 s up to
      2^31 ms, stores a nanosecond part Thread.sleep refuses. */
  lemma SplitAccepted(n: int64)
    ensures 0 <= n < 1_000_000_000_000 ==> SleepAccepted(SleepFor(SplitNanos(n).0, SplitNanos(n).1))
    ensures -0x8000_0000 <= n < 0 || 1_000_000_000_000 <= n < 0x8000_0000 * NANOSECONDS_PER_MILLISECOND ==>
      !SleepAccepted(SleepFor(SplitNanos(n).0, SplitNanos(n).1))
  {
    if n > 999999 {
      var q := n / NANOSECONDS_PER_MILLISECOND;
      assert n < 1_000_000_000_000 ==> q < 1_000_000;
      assert 1_000_000_000_000 <= n < 0x8000_0000 * NANOSECONDS_PER_MILLISECOND ==> 1_000_000 <= q < 0x8000_0000;
    }
  }

  /** What one pass of run does: stop; run the body, sleep and then wait
      while paused; or run the body and end the loop with the exception the
      sleep throws. */
  datatype Pass = Stop | Proceed(sleep: SleepCall, waits: bool) | Fail(error: Exception)

  class RateLimitedRunnable {
    var sleepMs: int64
    var sleepNs: int64
    var isPaused: bool
    var isRunning: bool

    /** RateLimitedRunnable(): no sleep, not paused, running. */
    constructor ()
      ensures sleepMs == 0 && sleepNs == 0 && !isPaused && isRunning
      ensures SleepNanoseconds() == 0
    {
      sleepMs, sleepNs := 0, 0;
      isPaused, isRunning := false, true;
    }

    /** RateLimitedRunnable(sleepMilliseconds, startPaused), through
        setSleep; the (startPaused) and (sleepMilliseconds) forms are this
        with 0 and with false. */
    constructor Of(sleepMilliseconds: int64, startPaused: bool)
      ensures sleepMs == sleepMilliseconds && sleepNs == 0
      ensures isPaused == startPaused && isRunning
    {
      sleepMs, sleepNs := sleepMilliseconds, 0;
      isPaused, isRunning := startPaused, true;
    }

    /** getSleepNanoseconds. */
    function SleepNanoseconds(): int64
      reads this
    {
      TotalNanos(sleepMs, sleepNs)
    }

    /** setRunning. */
    method SetRunning(running: bool)
      modifies this
      ensures isRunning == running
      ensures sleepMs == old(sleepMs) && sleepNs == old(sleepNs) && isPaused == old(isPaused)
    {
      isRunning := running;
    }

    /** setFrequency: a zero frequency is refused; any other becomes the
        rounded period in milliseconds through setSleep. */
    method SetFrequency(hz: int32) returns (r: Result<()>)
      modifies this
      ensures r.Err? <==> hz == 0
      ensures r.Err? ==> r.error == IllegalArgumentException
      ensures r.Err? ==> sleepMs == old(sleepMs) && sleepNs == old(sleepNs)
      ensures r.Ok? ==> sleepMs == PeriodMillis(hz) && sleepNs == 0
      ensures isPaused == old(isPaused) && isRunning == old(isRunning)
    {
      if hz == 0 {
        return Err(IllegalArgumentException);
      }
      SetSleep(PeriodMillis(hz));
      r := Ok(());
    }

    /** setSleep: whole milliseconds, no extra nanoseconds, so the sleep
        reads back as ms * 1000000. */
    method SetSleep(milliseconds: int64)
      modifies this
      ensures sleepMs == milliseconds && sleepNs == 0
      ensures SleepNanoseconds() == Wrap64(milliseconds * NANOSECONDS_PER_MILLISECOND)
      ensures isPaused == old(isPaused) && isRunning == old(isRunning)
    {
      sleepMs, sleepNs := milliseconds, 0;
    }

    /** setSleepNanoseconds, as written: see SplitNanos. */
    method SetSleepNanoseconds(nanoseconds: int64)
      modifies this
      ensures (sleepMs, sleepNs) == SplitNanos(nanoseconds)
      ensures nanoseconds <= 999999 ==> SleepNanoseconds() == nanoseconds
      ensures isPaused == old(isPaused) && isRunning == old(isRunning)
    {
      if nanoseconds > 999999 {
        sleepMs := nanoseconds / NANOSECONDS_PER_MILLISECOND;
        sleepNs := nanoseconds / NANOSECONDS_PER_MILLISECOND;
      } else {
        sleepMs := 0;
        sleepNs := nanoseconds;
      }
    }

    /** pause: paused afterwards, whatever it was before. */
    method Pause()
      modifies this
      ensures isPaused
      ensures sleepMs == old(sleepMs) && sleepNs == old(sleepNs) && isRunning == old(isRunning)
    {
      isPaused := true;
    }

    /** resume: not paused afterwards, whatever it was before (the waiting
        thread is woken only when it was paused). */
    method Resume()
      modifies this
      ensures !isPaused
      ensures sleepMs == old(sleepMs) && sleepNs == old(sleepNs) && isRunning == old(isRunning)
    {
      if isPaused {
        isPaused := false;
      }
    }

    /** One pass of run: it stops once the thread is interrupted or the
        runnable no longer runs; otherwise the body runs, then the configured
        sleep, then the wait while paused. A sleep Thread.sleep refuses
        throws IllegalArgumentException, which run does not catch. */
    method NextPass(interrupted: bool) returns (p: Pass)
      ensures p.Stop? <==> interrupted || !isRunning
      ensures p.Fail? <==> !interrupted && isRunning && !SleepAccepted(SleepFor(sleepMs, sleepNs))
      ensures p.Fail? ==> p.error == IllegalArgumentException
      ensures p.Proceed? ==> p.waits == isPaused
      ensures p.Proceed? ==> p.sleep == SleepFor(sleepMs, sleepNs) && SleepAccepted(p.sleep)
      ensures p.Proceed? && -0x8000_0000 <= sleepNs < 0x8000_0000 ==>
        Duration(p.sleep) == sleepMs * NANOSECONDS_PER_MILLISECOND + sleepNs
    {
      if interrupted || !isRunning {
        return Stop;
      }
      var sleep := SleepFor(sleepMs, sleepNs);
      if !SleepAccepted(sleep) {
        return Fail(IllegalArgumentException);
      }
      if -0x8000_0000 <= sleepNs < 0x8000_0000 {
        SleepForDuration(sleepMs, sleepNs);
      }
      p := Proceed(sleep, isPaused);
    }
  }
}
