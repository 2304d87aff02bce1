/** The labeller's sliding windows: timestamp slices trimmed in place, and the windowed peak. */
module TimeWindows {

  /** Nanoseconds; 0 is Go's zero time. */
  type Time = nat

  datatype Sample = Sample(t: Time, v: real)

  /** The times at or after `cutoff`, in order. */
  function Since(times: seq<Time>, cutoff: int): (kept: seq<Time>)
    ensures |kept| <= |times|
  {
    if times == [] then []
    else
      var n := |times| - 1;
      Since(times[..n], cutoff) + if times[n] >= cutoff then [times[n]] else []
  }

  function SamplesSince(samples: seq<Sample>, cutoff: int): (kept: seq<Sample>)
    ensures |kept| <= |samples|
  {
    if samples == [] then []
    else
      var n := |samples| - 1;
      SamplesSince(samples[..n], cutoff) + if samples[n].t >= cutoff then [samples[n]] else []
  }

  /** The greatest sample, or 0 when none is positive. */
  function Peak(samples: seq<Sample>): real {
    if samples == [] then 0.0
    else
      var n := |samples| - 1;
      var before := Peak(samples[..n]);
      if samples[n].v > before then samples[n].v else before
  }

  lemma {:induction false} PeakIsTheMaximum(samples: seq<Sample>)
    ensures Peak(samples) >= 0.0
    ensures forall i :: 0 <= i < |samples| ==> samples[i].v <= Peak(samples)
    ensures Peak(samples) == 0.0 || exists i :: 0 <= i < |samples| && samples[i].v == Peak(samples)
  {
    if samples != [] {
      var n := |samples| - 1;
      PeakIsTheMaximum(samples[..n]);
      assert forall i :: 0 <= i < n ==> samples[..n][i] == samples[i];
      if samples[n].v > Peak(samples[..n]) {
        assert samples[n].v == Peak(samples);
      }
    }
  }

  /** Trimming twice is trimming to the later cutoff. */
  lemma {:induction false} TrimTwice(times: seq<Time>, c: int, d: int)
    ensures Since(Since(times, c), d) == Since(times, if c >= d then c else d)
  {
    if times != [] {
      var n := |times| - 1;
      TrimTwice(times[..n], c, d);
      if times[n] >= c {
        assert Since(times, c)[..|Since(times, c)| - 1] == Since(times[..n], c);
      } else {
        assert Since(times, c) == Since(times[..n], c);
      }
    }
  }

  lemma {:induction false} SampleTrimTwice(samples: seq<Sample>, c: int, d: int)
    ensures SamplesSince(SamplesSince(samples, c), d) == SamplesSince(samples, if c >= d then c else d)
  {
    if samples != [] {
      var n := |samples| - 1;
      SampleTrimTwice(samples[..n], c, d);
      if samples[n].t >= c {
        assert SamplesSince(samples, c)[..|SamplesSince(samples, c)| - 1] == SamplesSince(samples[..n], c);
      } else {
        assert SamplesSince(samples, c) == SamplesSince(samples[..n], c);
      }
    }
  }

  lemma SinceOne(times: seq<Time>, t: Time, cutoff: int)
    ensures Since(times + [t], cutoff) == Since(times, cutoff) + if t >= cutoff then [t] else []
  {
    assert (times + [t])[..|times|] == times;
  }

  lemma SamplesSinceOne(samples: seq<Sample>, s: Sample, cutoff: int)
    ensures SamplesSince(samples + [s], cutoff) == SamplesSince(samples, cutoff) + if s.t >= cutoff then [s] else []
  {
    assert (samples + [s])[..|samples|] == samples;
  }

  // ---------- incremental trimming against the whole history ----------

  /** A row seen by a trail: its time, whether it adds to the trail, and the value it adds. */
  datatype Beat = Beat(now: Time, on: bool, v: real)

  ghost predicate InOrder(beats: seq<Beat>) {
    forall i, j :: 0 <= i <= j < |beats| ==> beats[i].now <= beats[j].now
  }

  function Extend(times: seq<Time>, b: Beat): seq<Time> {
    if b.on then times + [b.now] else times
  }

  /** Every time added by the first k rows. */
  function Ticks(beats: seq<Beat>, k: nat): seq<Time>
    requires k <= |beats|
  {
    if k == 0 then [] else Extend(Ticks(beats, k - 1), beats[k - 1])
  }

  function Rekept(before: seq<Time>, b: Beat, window: nat): seq<Time> {
    Since(Extend(before, b), b.now - window)
  }

  /** The trail after k rows, extended and then trimmed on each. */
  function Kept(beats: seq<Beat>, k: nat, window: nat): seq<Time>
    requires k <= |beats|
  {
    if k == 0 then [] else Rekept(Kept(beats, k - 1, window), beats[k - 1], window)
  }

  /** One row keeps the trail in step with the history, seen from any cutoff its own trim allows. */
  lemma KeptStep(kept: seq<Time>, ticks: seq<Time>, b: Beat, c: int, cutoff: int)
    requires c <= cutoff && Since(kept, cutoff) == Since(ticks, cutoff)
    ensures Since(Since(Extend(kept, b), c), cutoff) == Since(Extend(ticks, b), cutoff)
    ensures Since(Since(Extend(kept, b), c), c) == Since(Extend(kept, b), c)
  {
    TrimTwice(Extend(kept, b), c, cutoff);
    TrimTwice(Extend(kept, b), c, c);
    SinceOne(kept, b.now, cutoff);
    SinceOne(ticks, b.now, cutoff);
  }

  /** Later trims would have dropped whatever earlier ones did. */
  lemma {:induction false} KeptFollowsTicks(beats: seq<Beat>, k: nat, window: nat, cutoff: int)
    requires InOrder(beats) && k <= |beats|
    requires k > 0 ==> cutoff >= beats[k - 1].now - window
    ensures Since(Kept(beats, k, window), cutoff) == Since(Ticks(beats, k), cutoff)
  {
    if k > 0 {
      var b, kept, ticks := beats[k - 1], Kept(beats, k - 1, window), Ticks(beats, k - 1);
      assert Since(kept, cutoff) == Since(ticks, cutoff) by {
        KeptFollowsTicks(beats, k - 1, window, cutoff);
      }
      assert Kept(beats, k, window) == Since(Extend(kept, b), b.now - window);
      assert Ticks(beats, k) == Extend(ticks, b);
      KeptStep(kept, ticks, b, b.now - window, cutoff);
    }
  }

  /** For rows in time order the trimmed trail is exactly the history inside the window. */
  lemma KeptIsTheWindow(beats: seq<Beat>, k: nat, window: nat)
    requires InOrder(beats) && 0 < k <= |beats|
    ensures Kept(beats, k, window) == Since(Ticks(beats, k), beats[k - 1].now - window)
  {
    var b, kept, ticks := beats[k - 1], Kept(beats, k - 1, window), Ticks(beats, k - 1);
    var c := b.now - window;
    assert Since(kept, c) == Since(ticks, c) by {
      KeptFollowsTicks(beats, k - 1, window, c);
    }
    KeptStep(kept, ticks, b, c, c);
    assert Kept(beats, k, window) == Since(Extend(kept, b), c);
    assert Ticks(beats, k) == Extend(ticks, b);
  }

  function Take(b: Beat): seq<Sample> {
    if b.on then [Sample(b.now, b.v)] else []
  }

  /** Every sample recorded by the first k rows. */
  function Recorded(beats: seq<Beat>, k: nat): seq<Sample>
    requires k <= |beats|
  {
    if k == 0 then []
    else
      var b, before := beats[k - 1], Recorded(beats, k - 1);
      if b.on then before + Take(b) else before
  }

  function Resampled(before: seq<Sample>, b: Beat, window: nat): seq<Sample> {
    if b.on then SamplesSince(before, b.now - window) + Take(b) else before
  }

  /** The trail after k rows, trimmed and then extended on those that record. */
  function Sampled(beats: seq<Beat>, k: nat, window: nat): seq<Sample>
    requires k <= |beats|
  {
    if k == 0 then [] else Resampled(Sampled(beats, k - 1, window), beats[k - 1], window)
  }

  lemma SamplesSincePlus(samples: seq<Sample>, b: Beat, cutoff: int)
    ensures SamplesSince(samples + Take(b), cutoff) == SamplesSince(samples, cutoff) + SamplesSince(Take(b), cutoff)
  {
    if b.on {
      SamplesSinceOne(samples, Sample(b.now, b.v), cutoff);
      SamplesSinceOne([], Sample(b.now, b.v), cutoff);
      assert [] + Take(b) == Take(b);
    } else {
      assert samples + [] == samples;
    }
  }

  lemma SampledStep(sampled: seq<Sample>, recorded: seq<Sample>, b: Beat, c: int, cutoff: int)
    requires c <= cutoff && c <= b.now && SamplesSince(sampled, cutoff) == SamplesSince(recorded, cutoff)
    ensures SamplesSince(SamplesSince(sampled, c) + Take(b), cutoff) == SamplesSince(recorded + Take(b), cutoff)
    ensures SamplesSince(SamplesSince(sampled, c) + Take(b), c) == SamplesSince(sampled, c) + Take(b)
  {
    SampleTrimTwice(sampled, c, cutoff);
    SampleTrimTwice(sampled, c, c);
    SamplesSincePlus(SamplesSince(sampled, c), b, cutoff);
    SamplesSincePlus(SamplesSince(sampled, c), b, c);
    SamplesSincePlus(recorded, b, cutoff);
    SamplesSincePlus([], b, c);
    assert [] + Take(b) == Take(b);
  }

  lemma {:induction false} SampledFollowsRecorded(beats: seq<Beat>, k: nat, window: nat, cutoff: int)
    requires InOrder(beats) && k <= |beats|
    requires k > 0 ==> cutoff >= beats[k - 1].now - window
    ensures SamplesSince(Sampled(beats, k, window), cutoff) == SamplesSince(Recorded(beats, k), cutoff)
  {
    if k > 0 {
      var b := beats[k - 1];
      SampledFollowsRecorded(beats, k - 1, window, cutoff);
      if b.on {
        SampledStep(Sampled(beats, k - 1, window), Recorded(beats, k - 1), b, b.now - window, cutoff);
      }
    }
  }

  /** On a row that records, the trail is exactly the history inside the window. */
  lemma SampledIsTheWindow(beats: seq<Beat>, k: nat, window: nat)
    requires InOrder(beats) && 0 < k <= |beats| && beats[k - 1].on
    ensures Sampled(beats, k, window) == SamplesSince(Recorded(beats, k), beats[k - 1].now - window)
  {
    var b := beats[k - 1];
    var c := b.now - window;
    SampledFollowsRecorded(beats, k - 1, window, c);
    SampledStep(Sampled(beats, k - 1, window), Recorded(beats, k - 1), b, c, c);
  }

  /** A growing slice of times. */
  class TimeTrail {
    var data: array<Time>
    var len: nat

    ghost predicate Valid()
      reads this
    {
      len <= data.Length
    }

    ghost function Times(): seq<Time>
      reads this, data
      requires Valid()
    {
      data[..len]
    }

    constructor ()
      ensures Valid() && fresh(data) && Times() == []
    {
      data := new Time[0];
      len := 0;
    }

    /** Go's append: in place while there is room, else into a larger copy. */
    method Append(t: Time)
      requires Valid()
      modifies this, data
      ensures Valid() && (data == old(data) || fresh(data))
      ensures Times() == old(Times()) + [t]
    {
      if len == data.Length {
        var larger := new Time[2 * len + 1];
        forall i | 0 <= i < len {
          larger[i] := data[i];
        }
        data := larger;
      }
      data[len] := t;
      len := len + 1;
    }

    /** The kept times slide down over the dropped ones in the same array. */
    method TrimBefore(cutoff: int)
      requires Valid()
      modifies this`len, data
      ensures Valid()
      ensures Times() == Since(old(Times()), cutoff)
    {
      var kept := 0;
      ghost var was := data[..len];
      for i := 0 to len
        invariant unchanged(this) && kept <= i
        invariant |was| == len && forall j :: i <= j < len ==> data[j] == was[j]
        invariant data[..kept] == Since(was[..i], cutoff)
      {
        assert was[..i + 1][..i] == was[..i];
        var t := data[i];
        assert t == was[i];
        if t >= cutoff {
          data[kept] := t;
          kept := kept + 1;
        }
      }
      assert was[..len] == was;
      len := kept;
    }
  }

  /** A growing slice of timestamped samples. */
  class SampleTrail {
    var data: array<Sample>
    var len: nat

    ghost predicate Valid()
      reads this
    {
      len <= data.Length
    }

    ghost function Samples(): seq<Sample>
      reads this, data
      requires Valid()
    {
      data[..len]
    }

    constructor ()
      ensures Valid() && fresh(data) && Samples() == []
    {
      data := new Sample[0];
      len := 0;
    }

    method Append(s: Sample)
      requires Valid()
      modifies this, data
      ensures Valid() && (data == old(data) || fresh(data))
      ensures Samples() == old(Samples()) + [s]
    {
      if len == data.Length {
        var larger := new Sample[2 * len + 1](_ => s);
        forall i | 0 <= i < len {
          larger[i] := data[i];
        }
        data := larger;
      }
      data[len] := s;
      len := len + 1;
    }

    method TrimBefore(cutoff: int)
      requires Valid()
      modifies this`len, data
      ensures Valid()
      ensures Samples() == SamplesSince(old(Samples()), cutoff)
    {
      var kept := 0;
      ghost var was := data[..len];
      for i := 0 to len
        invariant unchanged(this) && kept <= i
        invariant |was| == len && forall j :: i <= j < len ==> data[j] == was[j]
        invariant data[..kept] == SamplesSince(was[..i], cutoff)
      {
        assert was[..i + 1][..i] == was[..i];
        var s := data[i];
        assert s == was[i];
        if s.t >= cutoff {
          data[kept] := s;
          kept := kept + 1;
        }
      }
      assert was[..len] == was;
      len := kept;
    }

    /** Drops the samples older than the window, records the new one and takes the peak. */
    method RecentPeak(now: Time, v: real, window: nat) returns (peak: real)
      requires Valid()
      modifies this, data
      ensures Valid() && (data == old(data) || fresh(data))
      ensures Samples() == SamplesSince(old(Samples()), now - window) + [Sample(now, v)]
      ensures peak == Peak(Samples())
    {
      TrimBefore(now - window);
      Append(Sample(now, v));
      peak := 0.0;
      for i := 0 to len
        invariant peak == Peak(data[..i])
      {
        assert data[..i + 1][..i] == data[..i];
        if data[i].v > peak {
          peak := data[i].v;
        }
      }
    }
  }
}
