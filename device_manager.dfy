/** DeviceManager: a registry of device threads, each driven by a
    DeviceRunnable that calls its device's loop, counts the calls per window
    of just over a second, and, when throttled, retunes its sleep at the end
    of each window toward the target rate. */
module Devices {
  import opened Wire
  import opened RateLimit

  const NANOSECONDS_PER_SECOND: int := 1_000_000_000
  const LONG_MAX: int := 0x7fff_ffff_ffff_ffff

  /** A device, known by name only: its loop's effect is the outcome a call
      reports. */
  datatype Device = Device(name: string)

  /** How a call to device.loop() ends: it returns, it throws IOException
      (reported and swallowed), or it throws InterruptedException. */
  datatype LoopOutcome = Completed | Failed | Interrupted

  /** The sleep a window's end asks for, in long arithmetic: the target time
      per loop minus the measured time per loop net of the current sleep,
      and never below 0. */
  function Throttled(elapsed: int64, loops: int64, throttle: int64, current: int64): (sleep: int64)
    requires loops != 0 && throttle != 0
    ensures sleep >= 0
  {
    var dt := Wrap64(Wrap64(JavaDiv(elapsed, loops)) - current);
    var t := Wrap64(JavaDiv(elapsed, throttle));
    var s := Wrap64(t - dt);
    if s < 0 then 0 else s
  }

  /** Away from overflow, the new sleep is the current one corrected by the
      gap between the target period (elapsed / throttle) and the measured
      period (elapsed / loops), clamped at 0. */
  lemma ThrottledCorrects(elapsed: int64, loops: int64, throttle: int64, current: int64)
    requires 0 < elapsed < 0x4000_0000_0000_0000 && loops > 0 && throttle > 0
    requires 0 <= current < 0x4000_0000_0000_0000
    ensures var s := current + elapsed / throttle - elapsed / loops;
      Throttled(elapsed, loops, throttle, current) == if s < 0 then 0 else s
  {
    var m, t := elapsed / loops, elapsed / throttle;
    DivAtMost(elapsed, loops);
    DivAtMost(elapsed, throttle);
    assert JavaDiv(elapsed, loops) == m && JavaDiv(elapsed, throttle) == t;
    assert Wrap64(m) == m && Wrap64(t) == t;
    assert Wrap64(m - current) == m - current;
    assert Wrap64(t - (m - current)) == current + t - m;
  }

  /** A quotient of a natural number by a positive divisor is at most the
      dividend. */
  lemma DivAtMost(a: int, b: int)
    requires a >= 0 && b > 0
    ensures 0 <= a / b <= a
  {
    var q := a / b;
    assert a == b * q + a % b;
    assert q >= 0;
    MulNonnegative(b - 1, q);
    assert b * q == q + (b - 1) * q;
  }

  /** A product of naturals is a natural. */
  lemma MulNonnegative(x: int, y: int)
    requires x >= 0 && y >= 0
    ensures x * y >= 0
  {
  }

  /** A loop running exactly at the target period keeps its sleep. */
  lemma ThrottledSteady(elapsed: int64, loops: int64, throttle: int64, current: int64)
    requires 0 < elapsed < 0x4000_0000_0000_0000 && loops > 0 && throttle > 0
    requires 0 <= current < 0x4000_0000_0000_0000
    requires elapsed / loops == elapsed / throttle
    ensures Throttled(elapsed, loops, throttle, current) == current
  {
    ThrottledCorrects(elapsed, loops, throttle, current);
  }

  class DeviceRunnable {
    /** The RateLimitedRunnable part: sleep configuration and pause flag. */
    const pacing: RateLimitedRunnable
    const device: Device
    var start: int64
    var frequency: int64
    var loops: int64
    var throttle: int64

    /** DeviceRunnable(device, startPaused), with the clock read at
        construction as `now`; DeviceRunnable(device) is startPaused false. */
    constructor (device: Device, startPaused: bool, now: int64)
      ensures fresh(pacing) && this.device == device
      ensures start == now && frequency == 0 && loops == 0 && throttle == 0
      ensures pacing.sleepMs == 0 && pacing.sleepNs == 0
      ensures pacing.isPaused == startPaused && pacing.isRunning
    {
      this.device := device;
      pacing := new RateLimitedRunnable.Of(0, startPaused);
      start, frequency, loops, throttle := now, 0, 0, 0;
    }

    /** setThrottle (Hz; 0 turns the correction off). */
    method SetThrottle(hz: int64)
      modifies this
      ensures throttle == hz
      ensures start == old(start) && frequency == old(frequency) && loops == old(loops)
    {
      throttle := hz;
    }

    /** loop(), with the clock read after the device call as `now` and the
        device call's ending as `outcome`. An interrupt propagates before
        anything is counted. Otherwise the call is counted, and once more
        than a second has passed since `start` the window closes: the count
        becomes the frequency, a throttled runnable gets a new sleep, and a
        new window starts at `now`. */
    method Loop(now: int64, outcome: LoopOutcome) returns (r: Result<()>)
      modifies this, pacing
      ensures outcome == Interrupted ==> r == Err(InterruptedException)
      ensures outcome == Interrupted ==>
        loops == old(loops) && start == old(start) && frequency == old(frequency) &&
        pacing.sleepMs == old(pacing.sleepMs) && pacing.sleepNs == old(pacing.sleepNs)
      ensures outcome != Interrupted && Wrap64(now - old(start)) <= NANOSECONDS_PER_SECOND ==>
        r.Ok? && loops == Wrap64(old(loops) + 1) && start == old(start) && frequency == old(frequency) &&
        pacing.sleepMs == old(pacing.sleepMs) && pacing.sleepNs == old(pacing.sleepNs)
      ensures outcome != Interrupted && Wrap64(now - old(start)) > NANOSECONDS_PER_SECOND && r.Ok? ==>
        frequency == Wrap64(old(loops) + 1) && loops == 0 && start == now
      ensures outcome != Interrupted && Wrap64(now - old(start)) > NANOSECONDS_PER_SECOND && r.Ok? &&
              throttle != 0 && Wrap64(old(loops) + 1) != 0 ==>
        (pacing.sleepMs, pacing.sleepNs) ==
          SplitNanos(Throttled(Wrap64(now - old(start)), Wrap64(old(loops) + 1), throttle, old(pacing.SleepNanoseconds())))
      ensures outcome != Interrupted && Wrap64(now - old(start)) > NANOSECONDS_PER_SECOND && r.Ok? && throttle == 0 ==>
        pacing.sleepMs == old(pacing.sleepMs) && pacing.sleepNs == old(pacing.sleepNs)
      ensures r == Err(ArithmeticException) ==> Wrap64(old(loops) + 1) == 0 && throttle != 0
      ensures r.Err? ==> r.error in {InterruptedException, ArithmeticException}
      ensures outcome != Interrupted && 0 <= old(loops) < LONG_MAX ==> r.Ok? && loops >= 0
      ensures pacing.isPaused == old(pacing.isPaused) && pacing.isRunning == old(pacing.isRunning)
      ensures throttle == old(throttle)
    {
      if outcome == Interrupted {
        return Err(InterruptedException);
      }
      loops := Wrap64(loops + 1);
      var time := now;
      var elapsed := Wrap64(time - start);
      if elapsed > NANOSECONDS_PER_SECOND {
        if throttle != 0 {
          if loops == 0 {
            return Err(ArithmeticException);
          }
          var sleep := Throttled(elapsed, loops, throttle, pacing.SleepNanoseconds());
          pacing.SetSleepNanoseconds(sleep);
        }
        frequency := loops;
        loops := 0;
        start := time;
      }
      r := Ok(());
    }
  }

  class DeviceManager {
    /** The started device threads, each known by its runnable. */
    var threads: seq<DeviceRunnable>

    constructor ()
      ensures threads == []
    {
      threads := [];
    }

    /** add(device, startPaused); add(device) is startPaused false. A null
        device makes the runnable's constructor throw before anything is
        registered; otherwise exactly one entry is appended and its runnable
        returned. */
    method Add(device: Option<Device>, startPaused: bool, now: int64) returns (r: Result<DeviceRunnable>)
      modifies this
      ensures r.Err? <==> device.None?
      ensures r.Err? ==> r.error == NullPointerException && threads == old(threads)
      ensures r.Ok? ==> fresh(r.value) && fresh(r.value.pacing) && threads == old(threads) + [r.value]
      ensures r.Ok? ==> r.value.device == device.value && r.value.pacing.isPaused == startPaused
      ensures r.Ok? ==> r.value.loops == 0 && r.value.start == now
    {
      if device.None? {
        return Err(NullPointerException);
      }
      var runnable := new DeviceRunnable(device.value, startPaused, now);
      threads := threads + [runnable];
      r := Ok(runnable);
    }

    /** clear(): every thread is interrupted and joined, and the registry
        emptied. */
    method Clear()
      modifies this
      ensures threads == []
    {
      threads := [];
    }
  }
}
