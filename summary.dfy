/** The windowed summary of the history (get_summary_samples in
    smart_power_2_driver.c): the samples taken at or after a given tick are added up in
    `int` accumulators, which wrap modulo 2^32 as the kernel's build makes signed
    overflow wrap, and the sums are divided with C's truncating division, except the
    energy, which stays a sum. */
module Summary {
  import opened CLib
  import opened Samples

  /** The fields of a sample that the summary combines. */
  datatype Channel = Volts | Ampere | Watt | Watthour | Ujoules

  function Get(s: Sample, c: Channel): int {
    match c
    case Volts => s.volts
    case Ampere => s.ampere
    case Watt => s.watt
    case Watthour => s.watthour
    case Ujoules => s.ujoules
  }

  /** The stored samples whose timestamp is at least t, in iteration order. */
  function Selected(h: seq<Sample>, t: nat): (r: seq<Sample>)
    ensures |r| <= |h|
  {
    if h == [] then []
    else
      var last := h[|h| - 1];
      Selected(h[..|h| - 1], t) + (if last.timestamp >= t then [last] else [])
  }

  /** The sum of one field over a sequence of samples. */
  function Sum(h: seq<Sample>, c: Channel): int {
    if h == [] then 0 else Sum(h[..|h| - 1], c) + Get(h[|h| - 1], c)
  }

  lemma SumSnoc(h: seq<Sample>, x: Sample)
    ensures forall c :: Sum(h + [x], c) == Sum(h, c) + Get(x, c)
  {
    assert (h + [x])[..|h|] == h;
  }

  /** The value the `int` accumulator of one field holds after adding up a window. */
  function Acc(h: seq<Sample>, c: Channel): int {
    ToI32(Sum(h, c))
  }

  /** One more sample in the window adds its field to the accumulator, modulo 2^32. */
  lemma AccSnoc(h: seq<Sample>, x: Sample, c: Channel)
    ensures Acc(h + [x], c) == ToI32(Acc(h, c) + Get(x, c))
  {
    SumSnoc(h, x);
    ToI32Add(Sum(h, c), Get(x, c));
  }

  /** The sample get_summary_samples writes for the window starting at tick t. */
  function SummaryOf(h: seq<Sample>, t: nat): Sample {
    var sel := Selected(h, t);
    var n := |sel|;
    if n == 0 then ZeroSample
    else Sample(CDiv(Acc(sel, Volts), n), CDiv(Acc(sel, Ampere), n), CDiv(Acc(sel, Watt), n),
                CDiv(Acc(sel, Watthour), n), Acc(sel, Ujoules), 0)
  }

  /** get_summary_samples: a single pass over the history accumulates the sums and the
      count of the samples in the window, then divides the averaged fields. */
  method GetSummarySamples(history: seq<Sample>, timestamp: nat) returns (sample: Sample, nrSamples: int)
    ensures nrSamples == |Selected(history, timestamp)|
    ensures sample == SummaryOf(history, timestamp)
  {
    sample := ZeroSample;
    nrSamples := 0;
    var i := 0;
    while i < |history|
      invariant 0 <= i <= |history|
      invariant nrSamples == |Selected(history[..i], timestamp)|
      invariant sample.volts == Acc(Selected(history[..i], timestamp), Volts)
      invariant sample.ampere == Acc(Selected(history[..i], timestamp), Ampere)
      invariant sample.watt == Acc(Selected(history[..i], timestamp), Watt)
      invariant sample.watthour == Acc(Selected(history[..i], timestamp), Watthour)
      invariant sample.ujoules == Acc(Selected(history[..i], timestamp), Ujoules)
      invariant sample.timestamp == 0
    {
      var cur := history[i];
      assert history[..i + 1][..i] == history[..i];
      assert Selected(history[..i + 1], timestamp) ==
             Selected(history[..i], timestamp) + (if cur.timestamp >= timestamp then [cur] else []);
      if cur.timestamp >= timestamp {
        ghost var sel := Selected(history[..i], timestamp);
        AccSnoc(sel, cur, Volts);
        AccSnoc(sel, cur, Ampere);
        AccSnoc(sel, cur, Watt);
        AccSnoc(sel, cur, Watthour);
        AccSnoc(sel, cur, Ujoules);
        sample := sample.(volts := ToI32(sample.volts + cur.volts),
                          ampere := ToI32(sample.ampere + cur.ampere),
                          watt := ToI32(sample.watt + cur.watt),
                          watthour := ToI32(sample.watthour + cur.watthour),
                          ujoules := ToI32(sample.ujoules + cur.ujoules));
        nrSamples := nrSamples + 1;
        assert sample.volts == Acc(sel + [cur], Volts);
        assert sample.ampere == Acc(sel + [cur], Ampere);
        assert sample.watt == Acc(sel + [cur], Watt);
        assert sample.watthour == Acc(sel + [cur], Watthour);
        assert sample.ujoules == Acc(sel + [cur], Ujoules);
      } else {
        assert Selected(history[..i + 1], timestamp) == Selected(history[..i], timestamp);
      }
      i := i + 1;
    }
    assert history[..i] == history;
    if nrSamples > 0 {
      sample := sample.(volts := CDiv(sample.volts, nrSamples), ampere := CDiv(sample.ampere, nrSamples),
                        watt := CDiv(sample.watt, nrSamples), watthour := CDiv(sample.watthour, nrSamples));
    }
  }

  // ---------------------------------------------------------------------------------------
  // What the window contains

  /** The window holds each stored sample with timestamp >= t exactly as often as the
      history does, and nothing else. */
  lemma {:induction false} SelectedExactly(h: seq<Sample>, t: nat, x: Sample)
    ensures multiset(Selected(h, t))[x] == if x.timestamp >= t then multiset(h)[x] else 0
  {
    if h != [] {
      var init, last := h[..|h| - 1], h[|h| - 1];
      SelectedExactly(init, t, x);
      assert h == init + [last];
      assert multiset(h) == multiset(init) + multiset{last};
    }
  }

  /** A window that starts after every stored sample is empty, and the summary is the
      all-zero record. */
  lemma {:induction false} WindowAfterAll(h: seq<Sample>, t: nat)
    requires forall k :: 0 <= k < |h| ==> h[k].timestamp < t
    ensures Selected(h, t) == []
    ensures SummaryOf(h, t) == ZeroSample
  {
    if h != [] {
      WindowAfterAll(h[..|h| - 1], t);
    }
  }

  /** A window that starts at or before every stored sample covers the whole history. */
  lemma {:induction false} WindowBeforeAll(h: seq<Sample>, t: nat)
    requires forall k :: 0 <= k < |h| ==> h[k].timestamp >= t
    ensures Selected(h, t) == h
  {
    if h != [] {
      WindowBeforeAll(h[..|h| - 1], t);
      assert h == h[..|h| - 1] + [h[|h| - 1]];
    }
  }

  // ---------------------------------------------------------------------------------------
  // What the summary reports

  /** A sum over n samples whose field lies in [lo, hi] lies in [n*lo, n*hi]. */
  lemma {:induction false} SumBounds(h: seq<Sample>, c: Channel, lo: int, hi: int)
    requires forall k :: 0 <= k < |h| ==> lo <= Get(h[k], c) <= hi
    ensures |h| * lo <= Sum(h, c) <= |h| * hi
  {
    if h != [] {
      var init, n := h[..|h| - 1], |h| - 1;
      assert forall k :: 0 <= k < |init| ==> init[k] == h[k];
      SumBounds(init, c, lo, hi);
      assert lo <= Get(h[n], c) <= hi;
      assert |h| * lo == n * lo + lo && |h| * hi == n * hi + hi;
    }
  }

  /** Each averaged field of a non-empty window lies between the least and the largest value
      of that field among the samples in the window, negative sentinels included, as long
      as the sum of the window cannot overflow the `int` accumulator. */
  lemma AverageWithinRange(h: seq<Sample>, t: nat, c: Channel, lo: int, hi: int)
    requires c != Ujoules
    requires |Selected(h, t)| > 0
    requires forall k :: 0 <= k < |h| && h[k].timestamp >= t ==> lo <= Get(h[k], c) <= hi
    requires -TWO31 <= |Selected(h, t)| * lo && |Selected(h, t)| * hi < TWO31
    ensures lo <= Get(SummaryOf(h, t), c) <= hi
  {
    var sel := Selected(h, t);
    forall k | 0 <= k < |sel|
      ensures lo <= Get(sel[k], c) <= hi
    {
      SelectedMember(h, t, sel[k]);
    }
    SumBounds(sel, c, lo, hi);
    assert Acc(sel, c) == Sum(sel, c);
    CDivBounds(Sum(sel, c), |sel|, lo, hi);
  }

  /** Every sample of the window is a stored sample taken at or after t. */
  lemma SelectedMember(h: seq<Sample>, t: nat, x: Sample)
    requires x in Selected(h, t)
    ensures exists k :: 0 <= k < |h| && h[k] == x && x.timestamp >= t
  {
    SelectedExactly(h, t, x);
    assert x in multiset(h);
  }

  /** The summary of n samples that all carry the same readings x: each averaged field is
      the wrapped n times that of x divided by n, which is that of x whenever n times it
      fits an `int`; the energy is n times that of x, wrapped to an `int`; the timestamp
      is 0. */
  lemma UniformWindow(h: seq<Sample>, t: nat, x: Sample)
    requires |Selected(h, t)| > 0
    requires forall k :: 0 <= k < |h| && h[k].timestamp >= t ==>
               h[k].(timestamp := 0) == x.(timestamp := 0)
    ensures var r, n := SummaryOf(h, t), |Selected(h, t)|;
      r.ujoules == ToI32(n * x.ujoules) && r.timestamp == 0 &&
      forall c :: c != Ujoules ==> Get(r, c) == CDiv(ToI32(n * Get(x, c)), n)
    ensures var r, n := SummaryOf(h, t), |Selected(h, t)|;
      forall c :: c != Ujoules && -TWO31 <= n * Get(x, c) < TWO31 ==> Get(r, c) == Get(x, c)
  {
    var sel := Selected(h, t);
    var n := |sel|;
    forall k | 0 <= k < n
      ensures sel[k].(timestamp := 0) == x.(timestamp := 0)
    {
      SelectedMember(h, t, sel[k]);
    }
    forall c: Channel
      ensures Acc(sel, c) == ToI32(n * Get(x, c))
      ensures -TWO31 <= n * Get(x, c) < TWO31 ==> CDiv(Acc(sel, c), n) == Get(x, c)
    {
      forall k | 0 <= k < n
        ensures Get(sel[k], c) == Get(x, c)
      {
        assert Get(sel[k], c) == Get(sel[k].(timestamp := 0), c);
      }
      SumBounds(sel, c, Get(x, c), Get(x, c));
      if -TWO31 <= n * Get(x, c) < TWO31 {
        CDivBounds(Sum(sel, c), n, Get(x, c), Get(x, c));
      }
    }
    assert Get(SummaryOf(h, t), Volts) == CDiv(Acc(sel, Volts), n);
    assert Get(SummaryOf(h, t), Ampere) == CDiv(Acc(sel, Ampere), n);
    assert Get(SummaryOf(h, t), Watt) == CDiv(Acc(sel, Watt), n);
    assert Get(SummaryOf(h, t), Watthour) == CDiv(Acc(sel, Watthour), n);
    assert Acc(sel, Ujoules) == ToI32(n * x.ujoules);
  }
}
