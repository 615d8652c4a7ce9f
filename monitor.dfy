/** The PMCTrack monitoring module of smart_power_2_mm.c: it publishes the power, the current
    and the energy of the Smart Power 2 as virtual counters, per thread or per CPU, from
    the summaries the driver computes, and exposes the driver's sampling period and energy
    counter as configuration. */
module Monitor {
  import opened CLib
  import opened Samples
  import opened Summary
  import opened Driver

  /** The virtual counters of the module, by bit of the counter mask. */
  const SPOWER2_POWER: nat := 0
  const SPOWER2_CURRENT: nat := 1
  const SPOWER2_ENERGY: nat := 2
  const SPOWER2_NR_MEASUREMENTS: nat := 3

  /** A bit mask (`unsigned int`), as the set of the positions of its 1 bits. */
  type Mask = m: set<nat> | forall i | i in m :: i < 32

  /** The counters below i, the bits of `(1<<i)-1`. */
  function Below(i: nat): (m: Mask)
    requires i <= SPOWER2_NR_MEASUREMENTS
    ensures forall j: nat :: j in m <==> j < i
  {
    if i == 0 then {} else if i == 1 then {0} else if i == 2 then {0, 1} else {0, 1, 2}
  }

  /** The per-thread (or per-CPU) state of the module: the last summary and the tick from
      which the next summary is taken (spower2_thread_data_t without its security id). */
  class ThreadData {
    var lastSample: Sample
    var timeLastSample: u64

    /** The state spower2_on_fork and the system-wide initialisation give it at tick `now`. */
    constructor (now: u64)
      ensures lastSample == ZeroSample && timeLastSample == now
    {
      lastSample := ZeroSample;
      timeLastSample := now;
    }
  }

  /** The part of a PMC sample the module fills in: the virtual-counter values, the mask of
      counters present and their number. */
  class PmcSample {
    const virtualCounts: array<int>
    var virtMask: Mask
    var nrVirtCounts: int

    constructor (room: nat)
      ensures virtualCounts.Length == room && fresh(virtualCounts)
      ensures virtMask == {} && nrVirtCounts == 0
    {
      virtualCounts := new int[room](_ => 0);
      virtMask := {};
      nrVirtCounts := 0;
    }
  }

  /** The value counter i reports for a summary. */
  function Counter(s: Sample, i: nat): int
    requires i < SPOWER2_NR_MEASUREMENTS
  {
    if i == SPOWER2_POWER then s.watt else if i == SPOWER2_CURRENT then s.ampere else s.ujoules
  }

  /** The values of the counters the mask selects among the first i, in counter order. */
  function PackedUpTo(mask: Mask, s: Sample, i: nat): (p: seq<int>)
    requires i <= SPOWER2_NR_MEASUREMENTS
    ensures |p| <= i
  {
    if i == 0 then []
    else PackedUpTo(mask, s, i - 1) + (if i - 1 in mask then [Counter(s, i - 1)] else [])
  }

  /** The values the packing loop stores for a mask and a summary. */
  function Packed(mask: Mask, s: Sample): seq<int> {
    PackedUpTo(mask, s, SPOWER2_NR_MEASUREMENTS)
  }

  /** The counter-packing loop of spower2_on_new_sample and
      spower2_on_syswide_dump_virtual_counters: for each counter the mask selects, in order,
      its value goes to the next virtual-counter slot from slot 0 on, its bit is set in the
      sample's mask and the sample's count grows by one. */
  method EmbedCounters(mask: Mask, last: Sample, sample: PmcSample)
    requires sample.virtualCounts.Length >= SPOWER2_NR_MEASUREMENTS
    modifies sample, sample.virtualCounts
    ensures var p := Packed(mask, last);
      sample.virtualCounts[..|p|] == p &&
      sample.virtualCounts[|p|..] == old(sample.virtualCounts[..])[|p|..]
    ensures sample.virtMask == old(sample.virtMask) + mask * Below(SPOWER2_NR_MEASUREMENTS)
    ensures sample.nrVirtCounts == old(sample.nrVirtCounts) + |Packed(mask, last)|
  {
    var a := sample.virtualCounts;
    ghost var before := a[..];
    var cnt := 0;
    var i := 0;
    while i < SPOWER2_NR_MEASUREMENTS
      invariant 0 <= cnt <= i <= SPOWER2_NR_MEASUREMENTS
      invariant cnt == |PackedUpTo(mask, last, i)|
      invariant a[..] == PackedUpTo(mask, last, i) + before[cnt..]
      invariant sample.virtMask == old(sample.virtMask) + mask * Below(i)
      invariant sample.nrVirtCounts == old(sample.nrVirtCounts) + cnt
    {
      BelowStep(mask, i);
      ghost var done := PackedUpTo(mask, last, i);
      if i in mask {
        var v := if i == SPOWER2_POWER then last.watt
                 else if i == SPOWER2_CURRENT then last.ampere
                 else last.ujoules;
        assert PackedUpTo(mask, last, i + 1) == done + [v];
        Splice(done, before, v);
        ghost var pre := a[..];
        a[cnt] := v;
        assert a[..] == pre[cnt := v];
        cnt := cnt + 1;
        sample.virtMask := sample.virtMask + {i};
        sample.nrVirtCounts := sample.nrVirtCounts + 1;
      } else {
        assert PackedUpTo(mask, last, i + 1) == done;
      }
      i := i + 1;
    }
    assert a[..][..cnt] == Packed(mask, last);
  }

  /** The selected counters below i + 1 are those below i, and i when it is selected. */
  lemma BelowStep(mask: Mask, i: nat)
    requires i < SPOWER2_NR_MEASUREMENTS
    ensures mask * Below(i + 1) == mask * Below(i) + (if i in mask then {i} else {})
  {
  }

  /** Overwriting the slot after a prefix extends the prefix by one and keeps the rest. */
  lemma Splice(p: seq<int>, before: seq<int>, v: int)
    requires |p| < |before|
    ensures (p + before[|p|..])[|p| := v] == p + [v] + before[|p| + 1..]
  {
  }

  /** The PMC sample is as it was. */
  twostate predicate SampleUnchanged(sample: PmcSample)
    reads sample, sample.virtualCounts
  {
    && sample.virtMask == old(sample.virtMask)
    && sample.nrVirtCounts == old(sample.nrVirtCounts)
    && sample.virtualCounts[..] == old(sample.virtualCounts[..])
  }

  /** What one dump does to the state `data` and the PMC sample: the summary of the stored
      samples since the last dump is kept; when it covers no sample, the window start and
      the PMC sample stay as they were; otherwise the window start moves to `now` and the
      selected counters of the new summary are packed from slot 0 on. */
  twostate predicate Dumped(ctl: Controller, data: ThreadData, mask: Mask, now: u64,
                            sample: PmcSample)
    requires sample.virtualCounts.Length >= SPOWER2_NR_MEASUREMENTS
    reads ctl, data, sample, sample.virtualCounts
  {
    var from := old(data.timeLastSample);
    data.lastSample == SummaryOf(ctl.history, from) &&
    if |Selected(ctl.history, from)| == 0 then
      data.timeLastSample == from && SampleUnchanged(sample)
    else
      var p := Packed(mask, data.lastSample);
      data.timeLastSample == now &&
      sample.virtualCounts[..|p|] == p &&
      sample.virtualCounts[|p|..] == old(sample.virtualCounts[..])[|p|..] &&
      sample.virtMask == old(sample.virtMask) + mask * Below(SPOWER2_NR_MEASUREMENTS) &&
      sample.nrVirtCounts == old(sample.nrVirtCounts) + |p|
  }

  /** The step both dump paths share: summarise from the last dump, keep the summary, and
      when it covers at least one sample, move the next window's start to `now` and pack the
      selected counters. With no sample the summary (all zero) is still kept but the window
      start stays where it was and the PMC sample is not touched. */
  method Dump(ctl: Controller, data: ThreadData, mask: Mask, now: u64, sample: PmcSample)
    requires sample.virtualCounts.Length >= SPOWER2_NR_MEASUREMENTS
    modifies data, sample, sample.virtualCounts
    ensures Dumped(ctl, data, mask, now, sample)
  {
    var summary, n := ctl.GetSample(data.timeLastSample);
    data.lastSample := summary;
    if n == 0 {
      return;
    }
    data.timeLastSample := now;
    EmbedCounters(mask, data.lastSample, sample);
  }

  /** spower2_on_new_sample for a thread whose module data is `tdata` (null when it has none)
      and whose counter mask is `mask`: nothing happens without data or without counters;
      otherwise the shared dump step runs. It always returns 0. */
  method OnNewSample(ctl: Controller, tdata: ThreadData?, mask: Mask, now: u64, sample: PmcSample)
    returns (ret: int)
    requires sample.virtualCounts.Length >= SPOWER2_NR_MEASUREMENTS
    modifies tdata, sample, sample.virtualCounts
    ensures ret == 0
    ensures tdata == null || mask == {} ==>
      SampleUnchanged(sample) &&
      (tdata != null ==> tdata.lastSample == old(tdata.lastSample) &&
                         tdata.timeLastSample == old(tdata.timeLastSample))
    ensures tdata != null && mask != {} ==> Dumped(ctl, tdata, mask, now, sample)
  {
    if tdata == null || mask == {} {
      return 0;
    }
    Dump(ctl, tdata, mask, now, sample);
    ret := 0;
  }

  /** spower2_on_syswide_dump_virtual_counters for the CPU whose state is `data`: nothing
      happens with an empty mask; otherwise the shared dump step runs. */
  method SyswideDump(ctl: Controller, data: ThreadData, mask: Mask, now: u64, sample: PmcSample)
    requires sample.virtualCounts.Length >= SPOWER2_NR_MEASUREMENTS
    modifies data, sample, sample.virtualCounts
    ensures mask == {} ==>
      SampleUnchanged(sample) &&
      data.lastSample == old(data.lastSample) && data.timeLastSample == old(data.timeLastSample)
    ensures mask != {} ==> Dumped(ctl, data, mask, now, sample)
  {
    if mask == {} {
      return;
    }
    Dump(ctl, data, mask, now, sample);
  }

  /** The probe of spower2_on_syswide_start_monitor accepts a mask exactly when it names
      only counters of this module: `mask & ~((1<<3)-1)` has no 1 bit. */
  predicate ProbeAccepts(mask: Mask) {
    mask - Below(SPOWER2_NR_MEASUREMENTS) == {}
  }

  /** spower2_on_syswide_start_monitor: with cpu -1 it only checks the mask; for a real CPU
      (whose state is `data`) it clears the last summary and starts the window at `now`. */
  method SyswideStartMonitor(cpu: int, mask: Mask, data: ThreadData?, now: u64) returns (ret: int)
    requires cpu != -1 ==> data != null
    modifies data
    ensures cpu == -1 ==> ret == (if ProbeAccepts(mask) then 0 else -EINVAL)
    ensures cpu == -1 && data != null ==>
      data.lastSample == old(data.lastSample) && data.timeLastSample == old(data.timeLastSample)
    ensures cpu != -1 ==> ret == 0 && data.lastSample == ZeroSample && data.timeLastSample == now
  {
    if cpu == -1 {
      if mask - Below(SPOWER2_NR_MEASUREMENTS) != {} {
        return -EINVAL;
      }
      return 0;
    }
    data.lastSample := ZeroSample;
    data.timeLastSample := now;
    ret := 0;
  }

  const PERIOD_LABEL: string := "spower2_sampling_period = "
  const ENERGY_LABEL: string := "spower2_cummulative_energy = "

  /** The configuration text spower2_on_read_config prints: the period line, then the
      energy line. */
  function ConfigText(period: nat, energy: nat): string {
    ConfigLine(PERIOD_LABEL, period) + ConfigLine(ENERGY_LABEL, energy)
  }

  /** One `<key>%u\n` line of the configuration text. */
  function ConfigLine(key: string, n: nat): string {
    key + NatToString(n) + "\n"
  }

  /** spower2_on_read_config: the sampling period and the energy counter, one per line; the
      result is the length of the text. */
  method OnReadConfig(ctl: Controller) returns (text: string, ret: int)
    requires ctl.Valid()
    ensures text == ConfigText(ctl.SamplingPeriod(), ctl.EnergyCount())
    ensures ret == |text|
  {
    text := ConfigText(ctl.SamplingPeriod(), ctl.EnergyCount());
    ret := |text|;
  }

  /** spower2_on_write_config for the text `str` of length `len`:
      "spower2_sampling_period %d" sets the period, passing on a refusal and returning
      `len` otherwise; text starting with "reset_energy_count" zeroes the energy counter;
      anything else changes nothing. The last two return 0. */
  method OnWriteConfig(ctl: Controller, str: string, len: u32) returns (ret: int)
    requires ctl.Valid()
    modifies ctl
    ensures ctl.Valid()
    ensures match ScanWordInt(str, "spower2_sampling_period")
      case Some(v) =>
        ret == (if PeriodOutOfRange(ToU32(v)) then -EINVAL else ToI32(len)) &&
        ctl.timerPeriod == (if PeriodOutOfRange(ToU32(v)) then old(ctl.timerPeriod)
                            else TicksOfMs(ctl.hz, ToU32(v))) &&
        ctl.cumulativeEnergy == old(ctl.cumulativeEnergy) && ctl.sinceReset == old(ctl.sinceReset)
      case None =>
        ret == 0 && ctl.timerPeriod == old(ctl.timerPeriod) &&
        ctl.cumulativeEnergy == (if ResetCommand(str) then 0 else old(ctl.cumulativeEnergy)) &&
        ctl.sinceReset == (if ResetCommand(str) then [] else old(ctl.sinceReset))
    ensures ctl.dev == old(ctl.dev) && ctl.started == old(ctl.started)
    ensures ctl.timerArmed == old(ctl.timerArmed) && ctl.timerExpires == old(ctl.timerExpires)
    ensures ctl.history == old(ctl.history) && ctl.arrivals == old(ctl.arrivals)
    ensures ctl.timeLastSample == old(ctl.timeLastSample)
  {
    match ScanWordInt(str, "spower2_sampling_period")
    case Some(v) =>
      ret := ctl.SetSamplingPeriod(ToU32(v));
      if ret == 0 {
        ret := ToI32(len);
      }
    case None =>
      if ResetCommand(str) {
        ctl.ResetEnergyCount();
      }
      ret := 0;
  }

  /** strncmp(str, "reset_energy_count", 18) == 0. */
  predicate ResetCommand(str: string) {
    |str| >= 18 && str[..18] == "reset_energy_count"
  }

  /** spower2_enable_module at tick `now`: the per-CPU states `cpus` are cleared, then
      measuring starts as spower2_start_measurements starts it, with its result. */
  method EnableModule(ctl: Controller, cpus: seq<ThreadData>, now: u64, submitResult: int)
    returns (ret: int)
    requires ctl.Valid()
    modifies ctl, set d | d in cpus
    ensures ctl.Valid()
    ensures forall k :: 0 <= k < |cpus| ==>
      cpus[k].lastSample == ZeroSample && cpus[k].timeLastSample == now
    ensures old(ctl.started) != 0 || old(ctl.dev) == null ==> ret == -ENODEV
    ensures old(ctl.started) == 0 && old(ctl.dev) != null ==> ret == submitResult
    ensures if ret == 0 && old(ctl.started) == 0 && old(ctl.dev) != null then
        ctl.started == 1 && ctl.timerArmed && ctl.timerExpires == ToU64(now + 1) &&
        ctl.timeLastSample == now && ctl.cumulativeEnergy == 0 && ctl.sinceReset == []
      else
        ctl.started == old(ctl.started) && ctl.timerArmed == old(ctl.timerArmed) &&
        ctl.timerExpires == old(ctl.timerExpires) && ctl.timeLastSample == old(ctl.timeLastSample) &&
        ctl.cumulativeEnergy == old(ctl.cumulativeEnergy) && ctl.sinceReset == old(ctl.sinceReset)
    ensures ctl.dev == old(ctl.dev) && ctl.timerPeriod == old(ctl.timerPeriod)
    ensures ctl.history == old(ctl.history) && ctl.arrivals == old(ctl.arrivals)
  {
    var i := 0;
    while i < |cpus|
      invariant 0 <= i <= |cpus|
      invariant forall k :: 0 <= k < i ==> cpus[k].lastSample == ZeroSample && cpus[k].timeLastSample == now
      invariant ctl.Valid() && unchanged(ctl)
    {
      cpus[i].lastSample := ZeroSample;
      cpus[i].timeLastSample := now;
      i := i + 1;
    }
    ret := ctl.Start(now, submitResult);
  }

  /** spower2_disable_module: measuring stops as spower2_stop_measurements stops it; a
      running session with a device ends idle, with the timer cancelled and the history
      cleared; the energy counter and the device are kept. */
  method DisableModule(ctl: Controller)
    requires ctl.Valid()
    modifies ctl
    ensures ctl.Valid()
    ensures if old(ctl.started) == 1 && old(ctl.dev) != null then
        ctl.started == 0 && !ctl.timerArmed && ctl.history == [] && ctl.arrivals == []
      else
        ctl.started == old(ctl.started) && ctl.timerArmed == old(ctl.timerArmed) &&
        ctl.history == old(ctl.history) && ctl.arrivals == old(ctl.arrivals)
    ensures ctl.dev == old(ctl.dev) && ctl.timerPeriod == old(ctl.timerPeriod)
    ensures ctl.timerExpires == old(ctl.timerExpires)
    ensures ctl.timeLastSample == old(ctl.timeLastSample)
    ensures ctl.cumulativeEnergy == old(ctl.cumulativeEnergy) && ctl.sinceReset == old(ctl.sinceReset)
  {
    ctl.Stop();
  }

  // ---------------------------------------------------------------------------------------
  // What the packing means

  /** Mask bits beyond the three counters play no part in the packing. */
  lemma {:induction false} PackedIgnoresHighBits(mask: Mask, s: Sample, i: nat)
    requires i <= SPOWER2_NR_MEASUREMENTS
    ensures PackedUpTo(mask, s, i) == PackedUpTo(mask * Below(SPOWER2_NR_MEASUREMENTS), s, i)
  {
    if i > 0 {
      PackedIgnoresHighBits(mask, s, i - 1);
      assert i - 1 in mask <==> i - 1 in mask * Below(SPOWER2_NR_MEASUREMENTS);
    }
  }

  /** One value is packed per selected counter of the module. */
  lemma {:induction false} PackedCount(mask: Mask, s: Sample, i: nat)
    requires i <= SPOWER2_NR_MEASUREMENTS
    ensures |PackedUpTo(mask, s, i)| == |mask * Below(i)|
  {
    if i > 0 {
      PackedCount(mask, s, i - 1);
      BelowStep(mask, i - 1);
      var lower := mask * Below(i - 1);
      if i - 1 in mask {
        assert |PackedUpTo(mask, s, i)| == |PackedUpTo(mask, s, i - 1)| + 1;
        assert mask * Below(i) == lower + {i - 1};
        assert i - 1 !in lower;
      } else {
        assert PackedUpTo(mask, s, i) == PackedUpTo(mask, s, i - 1);
        assert mask * Below(i) == lower;
      }
    }
  }

  /** The packing spelled out counter by counter. */
  lemma PackedSpelled(mask: Mask, s: Sample)
    ensures Packed(mask, s) ==
      (if SPOWER2_POWER in mask then [s.watt] else []) +
      (if SPOWER2_CURRENT in mask then [s.ampere] else []) +
      (if SPOWER2_ENERGY in mask then [s.ujoules] else [])
  {
    assert PackedUpTo(mask, s, 1) == (if 0 in mask then [s.watt] else []);
    assert PackedUpTo(mask, s, 2) == PackedUpTo(mask, s, 1) + (if 1 in mask then [s.ampere] else []);
  }

  /** With all three counters selected, power, current and energy fill slots 0, 1 and 2. */
  lemma PackedAll(s: Sample)
    ensures Packed(Below(SPOWER2_NR_MEASUREMENTS), s) == [s.watt, s.ampere, s.ujoules]
  {
    PackedSpelled(Below(SPOWER2_NR_MEASUREMENTS), s);
  }

  /** A single selected counter goes to slot 0, whichever it is. */
  lemma PackedSingle(s: Sample, i: nat)
    requires i < SPOWER2_NR_MEASUREMENTS
    ensures Packed({i}, s) == [Counter(s, i)]
  {
    PackedSpelled({i}, s);
  }

  /** A configuration line reads back: `%u` after the key gives the number, and the line
      ends right after it. */
  lemma ConfigLineReadsBack(key: string, n: nat)
    ensures var line := ConfigLine(key, n);
      |line| == |key| + |NatToString(n)| + 1 && line[..|key|] == key &&
      line[|line| - 1] == '\n' &&
      ScanInt(line, |key|) == Some((n, |key| + |NatToString(n)|))
  {
    var d := NatToString(n);
    var line := ConfigLine(key, n);
    assert line[..|key|] == key;
    assert line[|key|..|key| + |d|] == d;
    assert line[|key| + |d|] == '\n';
    ScanIntNatToString(n, line, |key|);
  }

  /** Both lines of the configuration text read back. */
  lemma ConfigTextReadsBack(period: nat, energy: nat)
    ensures var l1, l2 := ConfigLine(PERIOD_LABEL, period), ConfigLine(ENERGY_LABEL, energy);
      ConfigText(period, energy) == l1 + l2 &&
      ScanInt(l1, |PERIOD_LABEL|) == Some((period, |PERIOD_LABEL| + |NatToString(period)|)) &&
      ScanInt(l2, |ENERGY_LABEL|) == Some((energy, |ENERGY_LABEL| + |NatToString(energy)|))
  {
    ConfigLineReadsBack(PERIOD_LABEL, period);
    ConfigLineReadsBack(ENERGY_LABEL, energy);
  }
}
