/** The measurement record of the Smart Power 2 (include/pmc/smart_power_2.h) and the
    bounded sample history the driver keeps in a circular buffer. */
module Samples {

  /** The value a reading takes when the device prints the "-.---" placeholder. */
  const UNAVAILABLE: int := -1

  /** Room of the history, in samples (CBUFFER_CAPACITY). */
  const CBUFFER_CAPACITY: nat := 10

  /** One measurement: volts, amperes, watts and watt-hours in thousandths of the unit,
      the energy in micro-joules the driver attributes to it, and its arrival time in
      timer ticks. */
  datatype Sample = Sample(
    volts: int,
    ampere: int,
    watt: int,
    watthour: int,
    ujoules: int,
    timestamp: nat)

  /** The record after memset(&sample, 0, sizeof sample). */
  const ZeroSample: Sample := Sample(0, 0, 0, 0, 0, 0)

  /** A history the circular buffer can hold. */
  predicate Bounded(h: seq<Sample>) {
    |h| <= CBUFFER_CAPACITY
  }

  /** The history after insert_items_cbuffer_t: the old history followed by s, in arrival
      order, less the oldest sample when the buffer was full, so that at most
      CBUFFER_CAPACITY samples remain. */
  function Inserted(h: seq<Sample>, s: Sample): (r: seq<Sample>)
    requires Bounded(h)
    ensures Bounded(r) && |r| > 0 && r[|r| - 1] == s
    ensures |r| == if |h| < CBUFFER_CAPACITY then |h| + 1 else CBUFFER_CAPACITY
    ensures r[..|r| - 1] == h[|h| + 1 - |r|..]
  {
    if |h| < CBUFFER_CAPACITY then h + [s] else h[1..] + [s]
  }

  /** Filling a full history with one more sample drops exactly the oldest one. */
  lemma InsertEvictsOldest(h: seq<Sample>, s: Sample)
    requires |h| == CBUFFER_CAPACITY
    ensures Inserted(h, s) == h[1..] + [s]
    ensures multiset(Inserted(h, s)) == multiset(h) - multiset{h[0]} + multiset{s}
  {
    assert h == [h[0]] + h[1..];
    assert multiset(h) == multiset{h[0]} + multiset(h[1..]);
  }
}
