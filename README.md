# Odroid Smart Power 2 driver and monitoring module, modelled in Dafny

PMCTrack talks to an Odroid Smart Power 2 USB power meter through these two pieces:

- A kernel driver (`smart_power_2_driver.c`):
  - It polls the meter on a timer and parses each ASCII telegram into fixed-point readings.
  - It credits each telegram with an energy estimate and stores the sample in a 10-slot history.
  - It summarises that history over a time window.
  - It serves a character device: `write` takes a few text commands, and `read` returns a one-line report.
- A PMCTrack monitoring module (`smart_power_2_mm.c`):
  - It packs power, current and energy into virtual PMC counters, per thread or per CPU.
  - It exposes the sampling period and the energy counter as configuration.

The project models the sequential, integer-only engine behind the USB and kernel plumbing. It is organised in seven modules, one per file:

| file | module | what it models |
|---|---|---|
| `clib.dfy` | `CLib` | C conversions and division, and the kernel `sscanf` (`%d`) and `sprintf` (`%d`, `%u`) these files use |
| `samples.dfy` | `Samples` | the `spower2_sample` record and the bounded history |
| `telegram.dfy` | `Telegram` | `spower2_parse_float` and `parse_spower2_sample` |
| `summary.dfy` | `Summary` | `get_summary_samples` |
| `commands.dfy` | `Commands` | the `spower2_write` classifier, `spower2_print_int` and the `spower2_read` report |
| `driver.dfy` | `Driver` | the global `spower2_gbl` as the class `Controller`, with one method per locked region |
| `monitor.dfy` | `Monitor` | the monitoring-module callbacks |

Time (`jiffies`), HZ and the results of USB submissions and sends are parameters of the methods that use them. HZ is any positive constant, fixed when the controller is built.

C arithmetic is written out explicitly:

- `int` to `unsigned long` conversion wraps modulo 2^64.
- The energy formula is computed in `unsigned long` and stored back into an `int`.
- The energy counter is a `uint64_t` that wraps.
- `timer_period` arithmetic is done in `unsigned int`.
- The summary's `int` sums and the parsed `unit*1000+dec` wrap modulo 2^32, read as two's complement. ISO C leaves signed overflow undefined; the kernel is built with `-fno-strict-overflow`, under which it wraps.
- The averages use C's truncating division.

The `Controller` keeps two ghost logs.

- `arrivals` holds every sample inserted since the history was last cleared.
- `sinceReset` holds every sample whose energy was added since the counter was last zeroed.

The invariant `Valid()` ties the stored state to these logs in two ways. The history is the newest 10 arrivals. The energy counter is the 64-bit wrapped sum of the logged energies (`EnergyTotalIsSum`).

The model follows the code as written, including these behaviours a reader might not expect:

- The timer polls whenever a device is attached, whether or not a session runs.
- Detaching the device does not stop a running session.
- Stop does nothing when no device is attached, even during a session.
- spower2_write returns the positive errno when the blocking send fails. The code negates an already negative result.
- An unavailable power reading (-1) still enters the energy formula, through the unsigned conversion (`EnergyOfUnavailablePower`).
- When spower2_get_sample finds no sample, the thread's last summary is still overwritten by the all-zero summary. The start of the window is not advanced.

Bit masks (`unsigned int`) are modelled as the sets of their 1-bit positions, each below 32:

- `mask & (1<<i)` becomes `i in mask`;
- `|=` becomes set union;
- `mask & ~7` becomes `mask - {0, 1, 2}`.

## Model

| member | source | states |
|---|---|---|
| CLib.CDivBounds | src/modules/pmcs/smart_power_2_driver.c:531-534 | the truncating quotient of a sum of n values in [lo, hi], divided by n, lies in [lo, hi] |
| Samples.Inserted | src/modules/pmcs/smart_power_2_driver.c:136 | the history stays within 10 samples, ends with the new sample, and keeps the newest of the old ones in order |
| Samples.InsertEvictsOldest | src/modules/pmcs/smart_power_2_driver.c:48 | inserting into a full history drops exactly the oldest sample |
| Summary.GetSummarySamples | src/modules/pmcs/smart_power_2_driver.c:511-539 | the loop returns the number of stored samples with timestamp >= T and the windowed summary: the `int` sums of volts, ampere, watt and watthour (wrapped modulo 2^32) divided with truncation, the wrapped undivided ujoules sum, timestamp 0, and all zero for an empty window |
| Summary.SelectedExactly | src/modules/pmcs/smart_power_2_driver.c:519-527 | the window holds each stored sample with timestamp >= T exactly as often as the history does, and no other sample |
| Summary.WindowAfterAll | src/modules/pmcs/smart_power_2_driver.c:517 | a window that starts after every stored sample is empty and its summary is the all-zero record |
| Summary.WindowBeforeAll | src/modules/pmcs/smart_power_2_driver.c:519-527 | a window that starts at or before every stored sample covers the whole history in order |
| Summary.AverageWithinRange | src/modules/pmcs/smart_power_2_driver.c:521-535 | each averaged field of a non-empty window lies between the least and the largest value of that field in the window, -1 sentinels included, while n times those bounds fits an `int` |
| Summary.SelectedMember | src/modules/pmcs/smart_power_2_driver.c:519-520 | every sample of the window is a stored sample taken at or after T |
| Summary.UniformWindow | src/modules/pmcs/smart_power_2_driver.c:521-535 | over n samples with equal readings, each average is n times the reading, wrapped to an `int`, divided by n, which is the reading itself whenever n times it fits an `int`; the energy is n times the sample energy wrapped to an `int`; the timestamp is 0 |
| Telegram.SkipLenSkips | src/modules/pmcs/smart_power_2_driver.c:448-451 | the skip loop steps over no digit and no '-' |
| Telegram.SkipLenFirst | src/modules/pmcs/smart_power_2_driver.c:448-451 | the skip loop stops at the first digit or '-' |
| Telegram.NumberRunSteps | src/modules/pmcs/smart_power_2_driver.c:467-470 | the number loop steps over digits and dots only |
| Telegram.NumberRunFirst | src/modules/pmcs/smart_power_2_driver.c:467-470 | the number loop stops at the first character that is neither a digit nor a dot |
| Telegram.ParseFloat | src/modules/pmcs/smart_power_2_driver.c:442-473 | the scan and the two loops give the field's value and offset: the value is unit*1000+dec, wrapped to an `int`, when `%d.%d` converts two numbers, so "-5.000" gives -5000, and -1 otherwise, as at the "-.---" placeholder; a leading '-' moves the offset to prefix+5 whatever the value, and any other field ends the offset at the end of its digit-and-dot run; it requires a digit or '-' ahead, because the skip loop has no end-of-string guard |
| Telegram.ParseSample | src/modules/pmcs/smart_power_2_driver.c:486-500 | a line shorter than 33 characters sets the four readings to -1 and returns 1; a longer one reads them in order from offset 2 and returns 0; ujoules and timestamp are untouched |
| Telegram.DashAt | src/modules/pmcs/smart_power_2_driver.c:453-454 | the "-.---" placeholder reads as -1, since `%d.%d` converts fewer than two numbers there |
| Telegram.ScanMilliOf | src/modules/pmcs/smart_power_2_driver.c:453-456 | two successful conversions around a dot give unit*1000 + dec |
| Telegram.NumberValueAt | src/modules/pmcs/smart_power_2_driver.c:453-456 | digits, a dot and digits read as whole*1000 + fraction, with a leading-zero fraction read as a decimal integer |
| Telegram.NumberSpanAt | src/modules/pmcs/smart_power_2_driver.c:466-471 | the final loop steps over exactly such a number |
| Telegram.DashField | src/modules/pmcs/smart_power_2_driver.c:462-465 | a placeholder behind the skipped prefix reads -1 and advances prefix + 5 |
| Telegram.NumberField | src/modules/pmcs/smart_power_2_driver.c:453-471 | a number behind the skipped prefix scans as whole*1000 + fraction and advances to its end |
| Telegram.FieldAt | src/modules/pmcs/smart_power_2_driver.c:442-473 | one field behind a filler of units, blanks or '*' scans as its value, and the next scan starts right after it |
| Telegram.LayoutStep | src/modules/pmcs/smart_power_2_driver.c:495-498 | each parse step consumes exactly one filler and field of a well-formed body and stores the field's value as an `int` |
| Telegram.TelegramReading | src/modules/pmcs/smart_power_2_driver.c:488-499 | a line of at least 33 characters made of 2 status characters and four laid-out fields yields their four values in order |
| Telegram.SampleLine | src/modules/pmcs/smart_power_2_driver.c:481-483 | any line "7 " + field + filler + field + ... + "Wh" of at least 33 characters reads as the four field values, whatever fillers separate them |
| Telegram.NormalLine | src/modules/pmcs/smart_power_2_driver.c:481 | the normal sample line reads (4610, 439, 2019, 0) |
| Telegram.AlertLine | src/modules/pmcs/smart_power_2_driver.c:482 | the '*' alert marker moves no field boundary: the line reads (4610, 439, 2019, 0) |
| Telegram.PlaceholderLine | src/modules/pmcs/smart_power_2_driver.c:483 | each "-.---" placeholder reads as -1 |
| Commands.RequestOf | src/modules/pmcs/smart_power_2_driver.c:417-420 | a request byte goes out exactly for on/off and start/stop |
| Commands.CStrStopsAtNul | src/modules/pmcs/smart_power_2_driver.c:415 | the command ends at the first NUL of the written bytes |
| Commands.Classify | src/modules/pmcs/smart_power_2_driver.c:409-431 | the command is refused for length exactly when more than 40 bytes are written |
| Commands.ClassifyWords | src/modules/pmcs/smart_power_2_driver.c:417-420 | "on\n" and "off\n" select the power switch; "start\n" and "stop\n" select start/stop |
| Commands.ClassifyDevicePeriod | src/modules/pmcs/smart_power_2_driver.c:421 | "sampling_period N" is read back as the device period N |
| Commands.ClassifyTimerPeriod | src/modules/pmcs/smart_power_2_driver.c:426 | "timer_period N" is read back as the timer period N |
| Commands.ClassifyStopsAtNul | src/modules/pmcs/smart_power_2_driver.c:412-415 | bytes after a NUL do not change the classification |
| Commands.PrintInt | src/modules/pmcs/smart_power_2_driver.c:502-508 | the printed text starts with "--" exactly for a -1 reading, and always ends with the tag |
| Commands.PrintIntReadsBack | src/modules/pmcs/smart_power_2_driver.c:502-508 | a reading other than -1 prints as `%d` that scans back to the same value |
| Commands.PrintIntMarker | src/modules/pmcs/smart_power_2_driver.c:504-505 | -1 prints as "--", which no `%d` scan accepts |
| Commands.ReadText | src/modules/pmcs/smart_power_2_driver.c:575-590 | the report starts with "samples=" and ends with a newline |
| Commands.ReadTextCount | src/modules/pmcs/smart_power_2_driver.c:575-576 | the report starts with "samples=" and the count, which scans back |
| Commands.ReadTextEmpty | src/modules/pmcs/smart_power_2_driver.c:588-590 | an empty window gives exactly "samples=0, Nothing to read\n" |
| Commands.ReadTextEnergy | src/modules/pmcs/smart_power_2_driver.c:581-587 | a non-empty report ends with the cumulative energy followed by "uJ\n" |
| Driver.SampleEnergy | src/modules/pmcs/smart_power_2_driver.c:132 | the stored energy always fits an int |
| Driver.Measured | src/modules/pmcs/smart_power_2_driver.c:130-132 | the sample built from a telegram carries the arrival tick |
| Driver.AddEnergyWraps | src/modules/pmcs/smart_power_2_driver.c:133 | the counter update is C's: the int is converted to uint64_t and the sum wraps |
| Driver.EnergyTotalIsSum | src/modules/pmcs/smart_power_2_driver.c:133 | the energy counter is the sum of the energies added since it was zeroed, modulo 2^64 |
| Driver.EnergyOfPower | src/modules/pmcs/smart_power_2_driver.c:132 | with a non-negative power and no wrap-around, the energy is watt*(elapsed ms)*1000/HZ, exact when it fits an int |
| Driver.EnergyOfUnavailablePower | src/modules/pmcs/smart_power_2_driver.c:132 | a -1 power reading yields the wrapped (2^64 - elapsed*1000)/HZ, truncated to an int |
| Driver.PeriodRoundTrip | src/modules/pmcs/smart_power_2_driver.c:374-385 | for any HZ with HZ*4000 below 2^32, get after set(ms) returns at most ms, less by under one tick plus one millisecond, and exactly ms when HZ*ms is a multiple of 1000 |
| Driver.InsertedNewest | src/modules/pmcs/smart_power_2_driver.c:136 | inserting into the history of an arrival sequence gives the history of the extended sequence |
| Driver.Device.constructor | src/modules/pmcs/smart_power_2_driver.c:668 | a new device reads with the default period of 200 ms |
| Driver.Controller.constructor | src/modules/pmcs/smart_power_2_driver.c:834-852 | no device, idle, empty history, energy 0, timer period (HZ*100)/1000 in unsigned int |
| Driver.Controller.Attach | src/modules/pmcs/smart_power_2_driver.c:743-748 | the first device to arrive is kept; nothing else changes |
| Driver.Controller.Detach | src/modules/pmcs/smart_power_2_driver.c:794-799 | the device is forgotten only if it is the one in use; a running session is not stopped |
| Driver.Controller.Start | src/modules/pmcs/smart_power_2_driver.c:166-206 | -ENODEV with no change unless idle with a device; a failed submit is passed on with nothing changed; success arms the timer for now+1, sets time_last_sample to now, zeroes the energy and starts |
| Driver.Controller.BeginStop | src/modules/pmcs/smart_power_2_driver.c:215-223 | a running session with a device enters state 2; otherwise nothing happens |
| Driver.Controller.FinishStop | src/modules/pmcs/smart_power_2_driver.c:225-238 | the timer is cancelled, the history cleared and the state is 0 |
| Driver.Controller.Stop | src/modules/pmcs/smart_power_2_driver.c:210-239 | a no-op unless started == 1 with a device; otherwise it ends idle with an empty history and the energy kept |
| Driver.Controller.FireTimer | src/modules/pmcs/smart_power_2_driver.c:149-164 | when the armed timer fires, a request goes out exactly when a device is attached; the timer is always re-armed one period on |
| Driver.Controller.ReadComplete | src/modules/pmcs/smart_power_2_driver.c:107-145 | unlinked statuses drop the transfer; other errors and non-data telegrams resubmit with nothing changed; a data telegram is parsed, its energy added, time_last_sample set to now and one sample inserted |
| Driver.Controller.Integrate | src/modules/pmcs/smart_power_2_driver.c:132-134 | the counter gains the sample's energy modulo 2^64 and time_last_sample becomes its tick |
| Driver.Controller.Insert | src/modules/pmcs/smart_power_2_driver.c:135-137 | the history gains the sample, evicting the oldest when full |
| Driver.Controller.SetSamplingPeriod | src/modules/pmcs/smart_power_2_driver.c:374-380 | -EINVAL with no change outside [50, 4000] ms; otherwise timer_period is (HZ*ms)/1000 |
| Driver.Controller.SamplingPeriod | src/modules/pmcs/smart_power_2_driver.c:382-385 | the period in milliseconds is the `unsigned int` 1000*timer_period divided by HZ, rounded down |
| Driver.Controller.EnergyCount | src/modules/pmcs/smart_power_2_driver.c:392-395 | the counter read is the sum, modulo 2^64, of the energies added since it was last zeroed |
| Driver.Controller.ResetEnergyCount | src/modules/pmcs/smart_power_2_driver.c:387-390 | the energy counter is zero and nothing else changes |
| Driver.Controller.GetSample | src/modules/pmcs/smart_power_2_driver.c:543-551 | the windowed summary and count of the current history |
| Driver.Controller.Read | src/modules/pmcs/smart_power_2_driver.c:554-596 | the report for the window starting now, with the cumulative energy |
| Driver.Controller.Write | src/modules/pmcs/smart_power_2_driver.c:400-439 | -ENOSPC over 40 bytes and -EINVAL for unknown text; a device period in [50, 4000] is stored, else -EINVAL; a timer period goes through set-period; on/off and start/stop send their request and return the length, or the positive errno of a failed send |
| Monitor.EmbedCounters | src/modules/pmcs/smart_power_2_mm.c:133-153 | the selected counters, in the order power, current, energy, fill the slots from 0 on and leave the rest unchanged; their bits join virt_mask and nr_virt_counts grows by their number |
| Monitor.Dump | src/modules/pmcs/smart_power_2_mm.c:127-153 | the summary since the last dump is kept; with no sample the window start and the PMC sample stay unchanged; otherwise the start moves to now and the counters are packed from the new summary |
| Monitor.OnNewSample | src/modules/pmcs/smart_power_2_mm.c:118-156 | returns 0; with no thread data or an empty mask nothing changes; otherwise the dump step runs: the summary is kept, and when it covers a sample the window start moves to now and the selected counters are packed into the PMC sample |
| Monitor.SyswideDump | src/modules/pmcs/smart_power_2_mm.c:221-257 | an empty mask changes nothing; otherwise it dumps exactly as the per-thread path, packing the selected counters of the new summary when it covers a sample |
| Monitor.SyswideStartMonitor | src/modules/pmcs/smart_power_2_mm.c:190-212 | probe mode returns -EINVAL exactly when a mask bit lies outside the low 3, else 0; a real CPU gets a zeroed last summary and its window starts now |
| Monitor.OnReadConfig | src/modules/pmcs/smart_power_2_mm.c:68-76 | the text is the two configuration lines and the result is its length |
| Monitor.OnWriteConfig | src/modules/pmcs/smart_power_2_mm.c:79-92 | "spower2_sampling_period N" sets the period from N converted to unsigned and returns its error or len; text starting with "reset_energy_count" zeroes the energy and returns 0; anything else returns 0; the device, the session state, the timer, the history and the time of the last sample never change |
| Monitor.EnableModule | src/modules/pmcs/smart_power_2_mm.c:44-57 | every per-CPU state is cleared with its window starting now, then measuring starts as start does: its result, and on success the timer armed for now+1, time_last_sample now and the energy zeroed; the device, the period and the history are kept |
| Monitor.DisableModule | src/modules/pmcs/smart_power_2_mm.c:60-64 | measuring stops as stop does: a session running with a device ends idle with the timer cancelled and the history cleared; the energy, the device and the period are kept |
| Monitor.ThreadData.constructor | src/modules/pmcs/smart_power_2_mm.c:107-108 | a new per-thread state holds the zeroed summary and a window starting now |
| Monitor.PackedIgnoresHighBits | src/modules/pmcs/smart_power_2_mm.c:134-135 | mask bits at or above 3 play no part in the packing |
| Monitor.PackedCount | src/modules/pmcs/smart_power_2_mm.c:150-151 | one value is packed per selected counter, so nr_virt_counts grows by the number of selected counters |
| Monitor.PackedSpelled | src/modules/pmcs/smart_power_2_mm.c:134-148 | the packed values are watt, ampere and ujoules, each present exactly when its bit is set, in that order |
| Monitor.PackedAll | src/modules/pmcs/smart_power_2_mm.c:134-148 | with all three counters selected, slots 0, 1 and 2 hold power, current and energy |
| Monitor.PackedSingle | src/modules/pmcs/smart_power_2_mm.c:134-148 | a single selected counter always goes to slot 0 |
| Monitor.ConfigLineReadsBack | src/modules/pmcs/smart_power_2_mm.c:72-73 | each configuration line is its key and the number, which scans back, then a newline |
| Monitor.ConfigTextReadsBack | src/modules/pmcs/smart_power_2_mm.c:72-75 | the configuration text is exactly the period line followed by the energy line, and both numbers scan back |

## Left out

- USB transport is not modelled: endpoint discovery, URB allocation, filling, submission and killing, `usb_interrupt_msg`, and driver registration. Submission and send results are method parameters.
- The device reference count (`kref_get`/`kref_put`, `spower2_delete`) is not modelled. The increment that start's failed-submit path leaves in place is therefore not visible.
- Locks and interrupt masking are not modelled. Each locked region is one atomic method. The energy update outside the write lock (smart_power_2_driver.c:132-134) can race, but the model has one thread.
- The kernel timer API and `jiffies` are not modelled. Time is a parameter, and the timer is the fields `timerArmed` and `timerExpires`.
- Samples.Inserted: the circular buffer's code (pmc/data_str/cbuffer.h) is not part of this model. The history is a sequence of at most 10 samples iterated in arrival order, and inserting into a full history drops the oldest, which is an assumption about that buffer.
- `spower2_open` and `spower2_release` are not modelled. Nor are `mdelay`, `copy_to_user`/`copy_from_user` (so the -EFAULT paths are missing) and the file offset update in `spower2_write`. The blocking `send_packet_spower2` is represented only by its result and the request byte. The timer's `send_packet_spower2_noblock` is represented only by the `polled` result of `FireTimer`, since its result reaches only a trace message.
- The CONSUMER variant of `spower2_read` is not modelled.
- Monitor: PMCTrack's `pmc_sample_t`, `pmon_prof_t` and `monitoring_mod.h` are not part of this model. The PMC sample is reduced to the three fields the module writes, and the virtual-counter array is required to have room for three values.
- Per-CPU storage is a sequence of states, and `for_each_possible_cpu` is a loop over it. `security_id`, `spower2_module_counter_usage`, `spower2_on_syswide_refresh_monitor` (empty) and `spower2_on_free_task` are not modelled.
- Monitor.ThreadData.constructor models only the state `spower2_on_fork` gives a new thread. The allocation failure (-ENOMEM) and the early return when data already exists are not modelled.
- `printk`, `trace_printk`, module load/unload (`spower2_unregister_driver`) and `cbuffer` allocation failure are not modelled.
- CLib.ScanInt: overflow of `%d` is not modelled. A digit run is read as an unbounded integer. The telegram values do not depend on this, since `unit*1000+dec` is wrapped to an `int` anyway; the periods of `spower2_write` and `spower2_on_write_config` do.
- Summary.AverageWithinRange: the bound holds only while n times the field's bounds fits an `int`. Past that, the wrapped sum can leave the range, which the lemma does not describe.
- Driver.Controller.ReadComplete: the telegram is parsed as the C string before the first NUL of the buffer. The C parser walks the raw buffer, so the two differ only when a NUL lies inside the four fields. The requirement that each field scan finds a digit or '-' ahead stands for the skip loop's missing end-of-string guard.
- Monitor.OnReadConfig: the buffer length `len` is ignored, as the code ignores it. The report of `spower2_read` is not checked against its 66-byte buffer either.
- Bit masks are sets of bit positions, not 32-bit words. The model proves nothing about their numeric value.
