/** The sampling controller of smart_power_2_driver.c: the global `spower2_gbl` with the
    attached device, the timer that polls it, the energy integration of each incoming
    telegram and the history of samples, together with the attach/detach, start/stop,
    period, energy-counter and device-file operations that change it. Each locked region
    of the driver is one method here. */
module Driver {
  import opened CLib
  import opened Samples
  import opened Telegram
  import opened Summary
  import opened Commands

  /** Size of the interrupt transfers, in bytes (NR_BYTES_SPOWER2_MSG). */
  const NR_BYTES_SPOWER2_MSG: nat := 0x40

  /** Timer period at load time, and the devices' read() delay, in milliseconds. */
  const SPOWER2_DEFAULT_TIMER_PERIOD: nat := 100
  const SPOWER2_DEFAULT_SAMPLING_PERIOD: nat := 200

  /** The sampling periods spower2_set_sampling_period accepts, in milliseconds. */
  const MIN_PERIOD_MS: nat := 50
  const MAX_PERIOD_MS: nat := 4000

  // ---------------------------------------------------------------------------------------
  // Arithmetic of the driver

  /** The energy of one telegram (m_ujoules): the power in mW times the time since the last
      one in ms, computed in `unsigned long` (the int power converted, the product taken
      modulo 2^64, divided by HZ) and stored back into an `int`. */
  function SampleEnergy(watt: int, now: u64, last: u64, hz: nat): (uj: int)
    requires hz > 0
    ensures -TWO31 <= uj < TWO31
  {
    var elapsedMs := ToU64(ToU64(now - last) * 1000);
    ToI32(ToU64(ToU64(watt) * elapsedMs) / hz)
  }

  /** cummulative_energy += m_ujoules on a `uint64_t`: the sum modulo 2^64. */
  function AddEnergy(total: u64, uj: int): u64 {
    (total + uj) % TWO64
  }

  /** The counter update is what C computes: the int is converted to `uint64_t` first, and
      the unsigned sum wraps. */
  lemma AddEnergyWraps(total: u64, uj: int)
    ensures AddEnergy(total, uj) == ToU64(total + ToU64(uj))
  {
    ModAdd(total, uj);
  }

  lemma ModAdd(a: int, b: int)
    ensures (a + b % TWO64) % TWO64 == (a + b) % TWO64
  {
    var q := b / TWO64;
    assert b == q * TWO64 + b % TWO64;
    assert a + b == (a + b % TWO64) + q * TWO64;
  }

  /** spower2_set_sampling_period's conversion: `(HZ*ms)/1000` on `unsigned int`. */
  function TicksOfMs(hz: nat, ms: u32): u32 {
    ToU32(hz * ms) / 1000
  }

  /** spower2_get_sampling_period's conversion: `(1000*timer_period)/HZ` on `unsigned int`. */
  function MsOfTicks(hz: nat, ticks: u32): u32
    requires hz > 0
  {
    ToU32(1000 * ticks) / hz
  }

  /** The C conditions under which spower2_set_sampling_period refuses a period. */
  predicate PeriodOutOfRange(ms: int) {
    ms < MIN_PERIOD_MS || ms > MAX_PERIOD_MS
  }

  /** The status values with which the USB core reports an unlinked or shut-down transfer;
      the completion handler gives up on them instead of resubmitting. */
  predicate Unlinked(status: int) {
    status == -ENOENT || status == -ECONNRESET || status == -ESHUTDOWN
  }

  /** The sample the completion handler builds from a telegram line at tick `now`. */
  function Measured(line: string, now: u64, last: u64, hz: nat): (s: Sample)
    requires hz > 0 && Scannable(line)
    ensures s.timestamp == now
  {
    var r := LineReading(line);
    Sample(r.volts, r.ampere, r.watt, r.watthour, SampleEnergy(r.watt, now, last, hz), now)
  }

  /** The newest CBUFFER_CAPACITY samples of an arrival sequence. */
  function Newest(arrivals: seq<Sample>): (h: seq<Sample>)
    ensures Bounded(h)
  {
    if |arrivals| <= CBUFFER_CAPACITY then arrivals else arrivals[|arrivals| - CBUFFER_CAPACITY..]
  }

  /** The value the energy counter reaches by adding up the energies of a sequence of samples
      from zero. */
  function EnergyTotal(samples: seq<Sample>): u64 {
    if samples == [] then 0
    else AddEnergy(EnergyTotal(samples[..|samples| - 1]), samples[|samples| - 1].ujoules)
  }

  /** The device of an attached Smart Power 2, as far as the controller sees it: the delay of
      its read() operation (sampling_period_ms, set by probe to the default). */
  class Device {
    var samplingPeriodMs: int

    constructor ()
      ensures samplingPeriodMs == SPOWER2_DEFAULT_SAMPLING_PERIOD
    {
      samplingPeriodMs := SPOWER2_DEFAULT_SAMPLING_PERIOD;
    }
  }

  /** spower2_gbl. `started` is 0 when idle, 1 while measuring and 2 while stopping.
      `arrivals` (the samples inserted since the history was last cleared) and `sinceReset`
      (those since the energy counter was last zeroed) are the logs the two invariants
      relate the history and the energy counter to. */
  class Controller {
    const hz: nat
    var dev: Device?
    var started: nat
    var timerPeriod: u32
    var timerArmed: bool
    var timerExpires: u64
    var timeLastSample: u64
    var cumulativeEnergy: u64
    var history: seq<Sample>
    ghost var arrivals: seq<Sample>
    ghost var sinceReset: seq<Sample>

    /** HZ is positive, the state is one of the three, the history holds the newest
        samples that arrived since it was cleared, and the energy counter is the sum of the
        energies that arrived since it was zeroed. */
    ghost predicate Valid()
      reads this
    {
      && hz > 0
      && started <= 2
      && history == Newest(arrivals)
      && cumulativeEnergy == EnergyTotal(sinceReset)
    }

    /** spower2_register_driver: no device, an empty history, the default timer period,
        idle, the energy counter at zero. */
    constructor (hz: nat)
      requires hz > 0
      ensures Valid() && this.hz == hz
      ensures dev == null && started == 0 && !timerArmed && timeLastSample == 0
      ensures timerPeriod == ToU32(hz * SPOWER2_DEFAULT_TIMER_PERIOD / 1000)
      ensures cumulativeEnergy == 0 && history == [] && arrivals == [] && sinceReset == []
    {
      this.hz := hz;
      dev := null;
      started := 0;
      timerPeriod := ToU32(hz * SPOWER2_DEFAULT_TIMER_PERIOD / 1000);
      timerArmed := false;
      timerExpires := 0;
      timeLastSample := 0;
      cumulativeEnergy := 0;
      history := [];
      arrivals := [];
      sinceReset := [];
    }

    /** spower2_probe: the first device to arrive is the one the controller uses. */
    method Attach(d: Device)
      requires Valid()
      modifies this
      ensures Valid()
      ensures dev == if old(dev) == null then d else old(dev)
      ensures started == old(started) && timerPeriod == old(timerPeriod)
      ensures timerArmed == old(timerArmed) && timerExpires == old(timerExpires)
      ensures timeLastSample == old(timeLastSample) && cumulativeEnergy == old(cumulativeEnergy)
      ensures history == old(history) && arrivals == old(arrivals) && sinceReset == old(sinceReset)
    {
      if dev == null {
        dev := d;
      }
    }

    /** spower2_disconnect: the controller forgets the device only if it is the one in use;
        a running session is not stopped. */
    method Detach(d: Device)
      requires Valid()
      modifies this
      ensures Valid()
      ensures dev == if old(dev) == d then null else old(dev)
      ensures started == old(started) && timerPeriod == old(timerPeriod)
      ensures timerArmed == old(timerArmed) && timerExpires == old(timerExpires)
      ensures timeLastSample == old(timeLastSample) && cumulativeEnergy == old(cumulativeEnergy)
      ensures history == old(history) && arrivals == old(arrivals) && sinceReset == old(sinceReset)
    {
      if dev == d {
        dev := null;
      }
    }

    /** spower2_start_measurements at tick `now`, where `submitResult` is what submitting
        the interrupt-in transfer returns. Refused with -ENODEV while not idle or without a
        device; a failed submission is passed on with nothing changed; otherwise the timer
        is armed for the next tick, the energy counter is zeroed and the session starts. */
    method Start(now: u64, submitResult: int) returns (ret: int)
      requires Valid()
      modifies this
      ensures Valid()
      ensures old(started) != 0 || old(dev) == null ==> ret == -ENODEV
      ensures old(started) == 0 && old(dev) != null ==> ret == submitResult
      ensures if ret == 0 && old(started) == 0 && old(dev) != null then
          started == 1 && timerArmed && timerExpires == ToU64(now + 1) &&
          timeLastSample == now && cumulativeEnergy == 0 && sinceReset == []
        else
          started == old(started) && timerArmed == old(timerArmed) &&
          timerExpires == old(timerExpires) && timeLastSample == old(timeLastSample) &&
          cumulativeEnergy == old(cumulativeEnergy) && sinceReset == old(sinceReset)
      ensures dev == old(dev) && timerPeriod == old(timerPeriod)
      ensures history == old(history) && arrivals == old(arrivals)
    {
      if started != 0 || dev == null {
        return -ENODEV;
      }
      ret := submitResult;
      if ret != 0 {
        return;
      }
      timerExpires := ToU64(now + 1);
      timeLastSample := ToU64(timerExpires - 1);
      cumulativeEnergy := 0;
      sinceReset := [];
      timerArmed := true;
      started := 1;
    }

    /** The first locked region of spower2_stop_measurements: a running session with a
        device moves to the stopping state; in any other state nothing happens. */
    method BeginStop() returns (stopping: bool)
      requires Valid()
      modifies this
      ensures Valid()
      ensures stopping <==> old(started) == 1 && dev != null
      ensures started == if stopping then 2 else old(started)
      ensures dev == old(dev) && timerPeriod == old(timerPeriod)
      ensures timerArmed == old(timerArmed) && timerExpires == old(timerExpires)
      ensures timeLastSample == old(timeLastSample) && cumulativeEnergy == old(cumulativeEnergy)
      ensures history == old(history) && arrivals == old(arrivals) && sinceReset == old(sinceReset)
    {
      stopping := started == 1 && dev != null;
      if stopping {
        started := 2;
      }
    }

    /** The rest of spower2_stop_measurements: the timer is cancelled, the history is
        cleared and the controller is idle again. */
    method FinishStop()
      requires Valid() && started == 2
      modifies this
      ensures Valid()
      ensures started == 0 && !timerArmed && history == [] && arrivals == []
      ensures dev == old(dev) && timerPeriod == old(timerPeriod) && timerExpires == old(timerExpires)
      ensures timeLastSample == old(timeLastSample) && cumulativeEnergy == old(cumulativeEnergy)
      ensures sinceReset == old(sinceReset)
    {
      timerArmed := false;
      history := [];
      arrivals := [];
      started := 0;
    }

    /** spower2_stop_measurements. */
    method Stop()
      requires Valid()
      modifies this
      ensures Valid()
      ensures if old(started) == 1 && old(dev) != null then
          started == 0 && !timerArmed && history == [] && arrivals == []
        else
          started == old(started) && timerArmed == old(timerArmed) &&
          history == old(history) && arrivals == old(arrivals)
      ensures dev == old(dev) && timerPeriod == old(timerPeriod) && timerExpires == old(timerExpires)
      ensures timeLastSample == old(timeLastSample) && cumulativeEnergy == old(cumulativeEnergy)
      ensures sinceReset == old(sinceReset)
    {
      var stopping := BeginStop();
      if stopping {
        FinishStop();
      }
    }

    /** spower2_fire_timer at tick `now`: a data request goes out when a device is attached
        (whether or not a session runs), and the timer is always re-armed one period on. */
    method FireTimer(now: u64) returns (polled: bool)
      requires Valid() && timerArmed
      modifies this
      ensures Valid()
      ensures polled <==> dev != null
      ensures timerArmed && timerExpires == ToU64(now + timerPeriod)
      ensures dev == old(dev) && started == old(started) && timerPeriod == old(timerPeriod)
      ensures timeLastSample == old(timeLastSample) && cumulativeEnergy == old(cumulativeEnergy)
      ensures history == old(history) && arrivals == old(arrivals) && sinceReset == old(sinceReset)
    {
      polled := dev != null;
      timerExpires := ToU64(now + timerPeriod);
      timerArmed := true;
    }

    /** spower2_int_in_callback at tick `now` for a transfer that completed with `status`
        and `actualLength` bytes in `buffer`. An unlinked transfer is dropped; any other
        failure is resubmitted untouched; a DATA telegram is parsed, its energy integrated
        and the sample inserted into the history before resubmitting. */
    method ReadComplete(status: int, actualLength: nat, buffer: string, now: u64)
      returns (resubmit: bool)
      requires Valid()
      requires |buffer| == NR_BYTES_SPOWER2_MSG
      requires status == 0 && actualLength > 0 && buffer[0] as int == REQUEST_DATA ==>
                 Scannable(CStr(buffer))
      modifies this
      ensures Valid()
      ensures resubmit <==> !Unlinked(status)
      ensures if status == 0 && actualLength > 0 && buffer[0] as int == REQUEST_DATA then
          var s := Measured(CStr(buffer), now, old(timeLastSample), hz);
          arrivals == old(arrivals) + [s] && sinceReset == old(sinceReset) + [s] &&
          history == Inserted(old(history), s) &&
          cumulativeEnergy == AddEnergy(old(cumulativeEnergy), s.ujoules) &&
          timeLastSample == now
        else
          arrivals == old(arrivals) && sinceReset == old(sinceReset) && history == old(history) &&
          cumulativeEnergy == old(cumulativeEnergy) && timeLastSample == old(timeLastSample)
      ensures dev == old(dev) && started == old(started) && timerPeriod == old(timerPeriod)
      ensures timerArmed == old(timerArmed) && timerExpires == old(timerExpires)
    {
      if status != 0 {
        resubmit := !Unlinked(status);
        return;
      }
      if actualLength > 0 && buffer[0] as int == REQUEST_DATA {
        var line := CStr(buffer);
        var sample, _ := ParseSample(line, ZeroSample);
        sample := sample.(timestamp := now);
        sample := sample.(ujoules := SampleEnergy(sample.watt, now, timeLastSample, hz));
        assert sample == Measured(line, now, old(timeLastSample), hz);
        Integrate(sample);
        Insert(sample);
      }
      resubmit := true;
    }

    /** The energy bookkeeping of one telegram in spower2_int_in_callback (done outside the
        lock): its energy is added to the counter and its time becomes the time of the
        last sample. */
    method Integrate(sample: Sample)
      requires Valid()
      requires sample.timestamp < TWO64
      modifies this
      ensures Valid()
      ensures sinceReset == old(sinceReset) + [sample]
      ensures cumulativeEnergy == AddEnergy(old(cumulativeEnergy), sample.ujoules)
      ensures timeLastSample == sample.timestamp
      ensures dev == old(dev) && started == old(started) && timerPeriod == old(timerPeriod)
      ensures timerArmed == old(timerArmed) && timerExpires == old(timerExpires)
      ensures history == old(history) && arrivals == old(arrivals)
    {
      EnergyTotalSnoc(sinceReset, sample);
      cumulativeEnergy, timeLastSample, sinceReset :=
        AddEnergy(cumulativeEnergy, sample.ujoules), sample.timestamp, sinceReset + [sample];
    }

    /** The locked insertion of one telegram's sample into the history. */
    method Insert(sample: Sample)
      requires Valid()
      modifies this
      ensures Valid()
      ensures arrivals == old(arrivals) + [sample]
      ensures history == Inserted(old(history), sample)
      ensures dev == old(dev) && started == old(started) && timerPeriod == old(timerPeriod)
      ensures timerArmed == old(timerArmed) && timerExpires == old(timerExpires)
      ensures timeLastSample == old(timeLastSample) && cumulativeEnergy == old(cumulativeEnergy)
      ensures sinceReset == old(sinceReset)
    {
      InsertedNewest(arrivals, sample);
      history := Inserted(history, sample);
      arrivals := arrivals + [sample];
    }

    /** spower2_set_sampling_period: a period outside [50, 4000] ms is refused with -EINVAL
        and changes nothing; any other is stored as timer ticks. */
    method SetSamplingPeriod(ms: u32) returns (ret: int)
      requires Valid()
      modifies this
      ensures Valid()
      ensures ret == (if PeriodOutOfRange(ms) then -EINVAL else 0)
      ensures timerPeriod == if PeriodOutOfRange(ms) then old(timerPeriod) else TicksOfMs(hz, ms)
      ensures dev == old(dev) && started == old(started)
      ensures timerArmed == old(timerArmed) && timerExpires == old(timerExpires)
      ensures timeLastSample == old(timeLastSample) && cumulativeEnergy == old(cumulativeEnergy)
      ensures history == old(history) && arrivals == old(arrivals) && sinceReset == old(sinceReset)
    {
      if ms < MIN_PERIOD_MS || ms > MAX_PERIOD_MS {
        return -EINVAL;
      }
      timerPeriod := TicksOfMs(hz, ms);
      ret := 0;
    }

    /** spower2_get_sampling_period: the timer period in milliseconds, rounded down, of
        the `unsigned int` product 1000*timer_period. */
    function SamplingPeriod(): (ms: u32)
      reads this
      requires Valid()
      ensures ms * hz <= ToU32(1000 * timerPeriod) < (ms + 1) * hz
    {
      MsOfTicks(hz, timerPeriod)
    }

    /** spower2_reset_energy_count. */
    method ResetEnergyCount()
      requires Valid()
      modifies this
      ensures Valid()
      ensures cumulativeEnergy == 0 && sinceReset == []
      ensures dev == old(dev) && started == old(started) && timerPeriod == old(timerPeriod)
      ensures timerArmed == old(timerArmed) && timerExpires == old(timerExpires)
      ensures timeLastSample == old(timeLastSample)
      ensures history == old(history) && arrivals == old(arrivals)
    {
      cumulativeEnergy := 0;
      sinceReset := [];
    }

    /** spower2_get_energy_count: the sum of the energies added since the counter was
        last zeroed, modulo 2^64. */
    function EnergyCount(): (e: u64)
      reads this
      requires Valid()
      ensures e == EnergyTotal(sinceReset)
    {
      cumulativeEnergy
    }

    /** spower2_get_sample(from, &sample): the summary of the stored samples taken at or
        after tick `from`, and their number. */
    method GetSample(from: nat) returns (sample: Sample, nrSamples: int)
      ensures nrSamples == |Selected(history, from)|
      ensures sample == SummaryOf(history, from)
    {
      sample, nrSamples := GetSummarySamples(history, from);
    }

    /** spower2_read at tick `now`: the report on the samples taken from `now` on. */
    method Read(now: nat) returns (text: string)
      ensures text == ReadText(|Selected(history, now)|, SummaryOf(history, now), cumulativeEnergy)
    {
      var sample, n := GetSummarySamples(history, now);
      text := ReadText(n, sample, cumulativeEnergy);
    }

    /** spower2_write of the bytes `user` to the file of device `file`, where `sendResult`
        is what the blocking send of a request would return. The result is the byte count
        on success, a negated errno when the command is refused, and the positive errno
        of a failed send; `sent` is the request byte that went out. */
    method Write(file: Device, user: string, sendResult: int) returns (ret: int, sent: Option<int>)
      requires Valid()
      modifies this, file
      ensures Valid()
      ensures sent == RequestOf(Classify(user))
      ensures match Classify(user)
        case TooLong => ret == -ENOSPC
        case Unknown => ret == -EINVAL
        case DevicePeriod(ms) => ret == if PeriodOutOfRange(ms) then -EINVAL else |user|
        case TimerPeriod(ms) => ret == if PeriodOutOfRange(ToU32(ms)) then -EINVAL else |user|
        case _ => ret == if sendResult < 0 then -sendResult else |user|
      ensures file.samplingPeriodMs == match Classify(user)
        case DevicePeriod(ms) => if PeriodOutOfRange(ms) then old(file.samplingPeriodMs) else ms
        case _ => old(file.samplingPeriodMs)
      ensures timerPeriod == match Classify(user)
        case TimerPeriod(ms) =>
          if PeriodOutOfRange(ToU32(ms)) then old(timerPeriod) else TicksOfMs(hz, ToU32(ms))
        case _ => old(timerPeriod)
      ensures dev == old(dev) && started == old(started)
      ensures timerArmed == old(timerArmed) && timerExpires == old(timerExpires)
      ensures timeLastSample == old(timeLastSample) && cumulativeEnergy == old(cumulativeEnergy)
      ensures history == old(history) && arrivals == old(arrivals) && sinceReset == old(sinceReset)
    {
      var command := Classify(user);
      sent := RequestOf(command);
      match command
      case TooLong =>
        ret := -ENOSPC;
      case Unknown =>
        ret := -EINVAL;
      case DevicePeriod(ms) =>
        if ms < MIN_PERIOD_MS || ms > MAX_PERIOD_MS {
          ret := -EINVAL;
        } else {
          file.samplingPeriodMs := ms;
          ret := |user|;
        }
      case TimerPeriod(ms) =>
        ret := SetSamplingPeriod(ToU32(ms));
        if ret == 0 {
          ret := |user|;
        }
      case _ =>
        ret := if sendResult < 0 then -sendResult else |user|;
    }
  }

  // ---------------------------------------------------------------------------------------
  // What the controller's arithmetic means

  /** Inserting into the history of an arrival sequence gives the history of the sequence
      extended by the new sample. */
  lemma InsertedNewest(arrivals: seq<Sample>, s: Sample)
    ensures Inserted(Newest(arrivals), s) == Newest(arrivals + [s])
  {
    var a := arrivals + [s];
    if |arrivals| >= CBUFFER_CAPACITY {
      var h := Newest(arrivals);
      assert h[1..] + [s] == a[|a| - CBUFFER_CAPACITY..];
    }
  }

  lemma EnergyTotalSnoc(log: seq<Sample>, s: Sample)
    ensures EnergyTotal(log + [s]) == AddEnergy(EnergyTotal(log), s.ujoules)
  {
    assert (log + [s])[..|log|] == log;
  }

  /** The energy counter holds the sum of the energies added to it, modulo 2^64. */
  lemma {:induction false} EnergyTotalIsSum(samples: seq<Sample>)
    ensures EnergyTotal(samples) == Sum(samples, Ujoules) % TWO64
  {
    if samples != [] {
      var init, last := samples[..|samples| - 1], samples[|samples| - 1];
      EnergyTotalIsSum(init);
      ModAdd(last.ujoules, Sum(init, Ujoules));
      assert EnergyTotal(samples) ==
        (Sum(init, Ujoules) % TWO64 + last.ujoules) % TWO64;
    }
  }

  /** With a non-negative power, ticks that have not wrapped around and a product that fits
      in 64 bits, the energy is power times elapsed milliseconds over HZ, kept exact when
      it fits in an int. */
  lemma EnergyOfPower(watt: int, now: u64, last: u64, hz: nat)
    requires hz > 0 && 0 <= watt < TWO64 && last <= now
    requires (now - last) * 1000 < TWO64 && watt * ((now - last) * 1000) < TWO64
    ensures SampleEnergy(watt, now, last, hz) == ToI32(watt * ((now - last) * 1000) / hz)
    ensures watt * ((now - last) * 1000) / hz < TWO31 ==>
      SampleEnergy(watt, now, last, hz) == watt * ((now - last) * 1000) / hz
  {
    var d := (now - last) * 1000;
    assert ToU64(now - last) == now - last;
    assert ToU64(ToU64(now - last) * 1000) == d;
    assert ToU64(watt) == watt;
    assert ToU64(watt * d) == watt * d;
  }

  /** An unavailable power reading (-1) still enters the formula: converted to unsigned it
      is 2^64-1, so the stored energy is the wrapped-around (2^64 - elapsed ms) / HZ. */
  lemma EnergyOfUnavailablePower(now: u64, last: u64, hz: nat)
    requires hz > 0 && last < now && (now - last) * 1000 < TWO64
    ensures SampleEnergy(UNAVAILABLE, now, last, hz) == ToI32((TWO64 - (now - last) * 1000) / hz)
  {
    var d := (now - last) * 1000;
    assert ToU64(UNAVAILABLE) == TWO64 - 1;
    assert (TWO64 - 1) * d == (d - 1) * TWO64 + (TWO64 - d);
    assert ToU64((TWO64 - 1) * d) == TWO64 - d;
  }

  /** Reading back a period just set gives at most the period asked for, less by under one
      tick plus one millisecond, and exactly it when HZ*ms is a multiple of 1000. */
  lemma PeriodRoundTrip(hz: nat, ms: u32)
    requires 0 < hz && hz * MAX_PERIOD_MS < TWO32 && !PeriodOutOfRange(ms)
    ensures MsOfTicks(hz, TicksOfMs(hz, ms)) <= ms
    ensures (ms - MsOfTicks(hz, TicksOfMs(hz, ms))) * hz < 1000 + hz
    ensures (hz * ms) % 1000 == 0 ==> MsOfTicks(hz, TicksOfMs(hz, ms)) == ms
  {
    var p := hz * ms;
    MulCancel(ms, MAX_PERIOD_MS, hz);
    assert p < TWO32 && ToU32(p) == p;
    var t := p / 1000;
    DivBounds(p, 1000);
    assert TicksOfMs(hz, ms) == t;
    assert 1000 * t <= p;
    assert ToU32(1000 * t) == 1000 * t;
    var r := (1000 * t) / hz;
    DivBounds(1000 * t, hz);
    assert MsOfTicks(hz, t) == r;
    assert r * hz <= ms * hz;
    MulCancel(r, ms, hz);
    assert (ms - r) * hz == ms * hz - r * hz;
    if p % 1000 == 0 {
      assert ms * hz < (r + 1) * hz;
      MulCancel(ms, r + 1, hz);
    }
  }

  /** Euclidean division of a non-negative dividend by a positive divisor. */
  lemma DivBounds(a: nat, n: nat)
    requires n > 0
    ensures 0 <= a / n && (a / n) * n <= a < (a / n) * n + n
    ensures a % n == 0 ==> (a / n) * n == a
  {
  }
}
