/** The windowed conditions, said of the rows themselves. */
module QoeWindows {
  import opened Labels
  import opened TimeWindows
  import opened QoeConditions
  import opened QoeStep
  import opened QoeHistory

  // ---------- counted events ----------

  /** How many of the first k rows carry event e at or after `from`. */
  function Events(rows: seq<Row>, k: nat, e: LastEvent, from: int): nat
    requires k <= |rows|
  {
    if k == 0 then 0 else Events(rows, k - 1, e, from) + if rows[k - 1].event == e && rows[k - 1].now >= from then 1 else 0
  }

  lemma {:induction false} WindowCounts(rows: seq<Row>, k: nat, c: Counted, e: LastEvent, from: int)
    requires k <= |rows| && e == EventOf(c)
    ensures |Since(Ticks(Beats(rows, c), k), from)| == Events(rows, k, e, from)
  {
    if k > 0 {
      WindowCounts(rows, k - 1, c, e, from);
      SinceOne(Ticks(Beats(rows, c), k - 1), rows[k - 1].now, from);
    }
  }

  ghost predicate Frequent(rows: seq<Row>, k: nat, e: LastEvent, windowS: nat, threshold: nat)
    requires k < |rows|
  {
    Events(rows, k + 1, e, rows[k].now - windowS * 1_000_000_000) > threshold
  }

  lemma FrequentIs(cfg: Thresholds, rows: seq<Row>, k: nat, c: Counted, e: LastEvent, windowS: u32, threshold: nat)
    requires k < |rows| && e == EventOf(c) && Seconds(windowS) == WindowOf(cfg, c)
    ensures |EventsInWindow(cfg, rows, k, c)| > threshold <==> Frequent(rows, k, e, windowS, threshold)
  {
    WindowCounts(rows, k + 1, c, e, rows[k].now - windowS * 1_000_000_000);
  }

  /** Stalls and downshifts are too frequent on a row exactly when more rows than the threshold allows carry them
      within the configured seconds up to it, the row included. */
  lemma FrequencyMeans(cfg: Thresholds, step: Stepper, rows: seq<Row>, k: nat)
    requires IsLabeller(cfg, step) && Ordered(rows) && k < |rows| && Open(rows, k + 1)
    ensures Label(Critical, StallBurst) in On(step, rows, k).current <==>
            Frequent(rows, k, StallStart, cfg.stallBurstWindowS, cfg.stallBurstThreshold)
    ensures Label(Warning, DownshiftStorm) in On(step, rows, k).current <==>
            Frequent(rows, k, RateShiftDown, cfg.downshiftStormWindowS, cfg.downshiftStormThreshold)
  {
    WindowsAgreeWithHistory(cfg, step, rows, k);
    FrequentIs(cfg, rows, k, Stalls, StallStart, cfg.stallBurstWindowS, cfg.stallBurstThreshold);
    FrequentIs(cfg, rows, k, Downshifts, RateShiftDown, cfg.downshiftStormWindowS, cfg.downshiftStormThreshold);
  }

  // ---------- throughput ----------

  /** Row i is one of the first k, in the open play, past the start-up grace, and at or after `from`. */
  ghost predicate Samples(cfg: Thresholds, rows: seq<Row>, i: int, k: nat, from: int) {
    0 <= i < k <= |rows| && Open(rows, i + 1) && rows[i].playingTimeMs >= cfg.startupGraceMs && rows[i].now >= from
  }

  /** p is the greatest transfer rate among those rows. */
  ghost predicate IsPeak(cfg: Thresholds, rows: seq<Row>, k: nat, from: int, p: real) {
    && (exists i :: Samples(cfg, rows, i, k, from) && rows[i].transferMbps == p)
    && (forall i :: Samples(cfg, rows, i, k, from) ==> rows[i].transferMbps <= p)
  }

  ghost predicate RowHas(cfg: Thresholds, rows: seq<Row>, k: nat, from: int, v: real) {
    exists i :: Samples(cfg, rows, i, k, from) && rows[i].transferMbps == v
  }

  ghost predicate TrailHas(samples: seq<Sample>, v: real) {
    exists s :: s in samples && s.v == v
  }

  /** The trail has the values the rows have. */
  ghost predicate Agree(cfg: Thresholds, rows: seq<Row>, k: nat, from: int, v: real)
    requires k <= |rows|
  {
    TrailHas(SamplesSince(Recorded(Readings(cfg, rows), k), from), v) == RowHas(cfg, rows, k, from, v)
  }

  lemma AgreeNext(cfg: Thresholds, rows: seq<Row>, k: nat, from: int, v: real)
    requires k < |rows| && Agree(cfg, rows, k, from, v)
    ensures Agree(cfg, rows, k + 1, from, v)
  {
    ghost var now, before := Recorded(Readings(cfg, rows), k + 1), Recorded(Readings(cfg, rows), k);
    ghost var more := Samples(cfg, rows, k, k + 1, from) && rows[k].transferMbps == v;
    assert TrailHas(SamplesSince(now, from), v) == (TrailHas(SamplesSince(before, from), v) || more) by {
      if Readings(cfg, rows)[k].on {
        OneMoreSample(before, Sample(rows[k].now, rows[k].transferMbps), from, v);
      }
    }
    assert RowHas(cfg, rows, k + 1, from, v) == (RowHas(cfg, rows, k, from, v) || more) by {
      OneMoreRow(cfg, rows, k, from, v);
    }
  }

  lemma {:induction false} SamplesAre(cfg: Thresholds, rows: seq<Row>, k: nat, from: int, v: real)
    requires k <= |rows|
    ensures Agree(cfg, rows, k, from, v)
  {
    if k == 0 {
      NoSamples(cfg, rows, from, v);
    } else {
      SamplesAre(cfg, rows, k - 1, from, v);
      AgreeNext(cfg, rows, k - 1, from, v);
    }
  }

  lemma NoSamples(cfg: Thresholds, rows: seq<Row>, from: int, v: real)
    ensures !TrailHas(SamplesSince(Recorded(Readings(cfg, rows), 0), from), v) && !RowHas(cfg, rows, 0, from, v)
  {
  }

  lemma OneMoreSample(before: seq<Sample>, s: Sample, from: int, v: real)
    ensures TrailHas(SamplesSince(before + [s], from), v) <==>
            TrailHas(SamplesSince(before, from), v) || (s.t >= from && s.v == v)
  {
    SamplesSinceOne(before, s, from);
    var kept := SamplesSince(before, from);
    assert s in kept + [s];
    forall x | x in kept ensures x in kept + [s] {
    }
  }

  lemma OneMoreRow(cfg: Thresholds, rows: seq<Row>, k: nat, from: int, v: real)
    requires k < |rows|
    ensures RowHas(cfg, rows, k + 1, from, v) <==>
            RowHas(cfg, rows, k, from, v) || (Samples(cfg, rows, k, k + 1, from) && rows[k].transferMbps == v)
  {
    if i :| Samples(cfg, rows, i, k, from) && rows[i].transferMbps == v {
      assert Samples(cfg, rows, i, k + 1, from);
    }
    if i :| Samples(cfg, rows, i, k + 1, from) && rows[i].transferMbps == v {
      assert i < k ==> Samples(cfg, rows, i, k, from);
    }
  }

  lemma PeakIsPeak(cfg: Thresholds, rows: seq<Row>, k: nat, from: int, peak: real, p: real)
    requires k <= |rows| && p > 0.0 && peak == Peak(SamplesSince(Recorded(Readings(cfg, rows), k), from))
    ensures peak == p <==> IsPeak(cfg, rows, k, from, p)
  {
    var samples := SamplesSince(Recorded(Readings(cfg, rows), k), from);
    PeakIsTheMaximum(samples);
    forall i | Samples(cfg, rows, i, k, from) ensures rows[i].transferMbps <= peak {
      SamplesAre(cfg, rows, k, from, rows[i].transferMbps);
      var s :| s in samples && s.v == rows[i].transferMbps;
    }
    if peak > 0.0 {
      var j :| 0 <= j < |samples| && samples[j].v == peak;
      assert samples[j] in samples;
      SamplesAre(cfg, rows, k, from, peak);
    }
  }

  /** The greatest transfer rate of the settled rows in the window is positive, and the rate is below it by more than
      the configured share. */
  ghost predicate UnderReads(cfg: Thresholds, rows: seq<Row>, k: nat, from: int, rate: real) {
    exists p :: IsPeak(cfg, rows, k, from, p) && p > 0.0 && rate < p * (1.0 - cfg.throughputDivergenceFactor)
  }

  /** Settled, with a rate of its own, and under-reading. */
  ghost predicate DivergesAt(cfg: Thresholds, rows: seq<Row>, k: nat)
    requires k < |rows|
  {
    && rows[k].playingTimeMs >= cfg.startupGraceMs && rows[k].networkMbps > 0.0
    && UnderReads(cfg, rows, k + 1, rows[k].now - cfg.throughputPeakWindowS * 1_000_000_000, rows[k].networkMbps)
  }

  lemma DivergesAtIs(cfg: Thresholds, rows: seq<Row>, k: nat)
    requires k < |rows|
    ensures DivergesAt(cfg, rows, k) <==> Settled(cfg, rows[k]) && Diverges(cfg, SamplesInWindow(cfg, rows, k), rows[k])
  {
    DivergesIs(cfg, rows, k, rows[k].now - cfg.throughputPeakWindowS * 1_000_000_000);
  }

  lemma DivergenceMeans(cfg: Thresholds, step: Stepper, rows: seq<Row>, k: nat)
    requires IsLabeller(cfg, step) && Ordered(rows) && k < |rows| && Open(rows, k + 1)
    ensures Label(Warning, ThroughputDivergence) in On(step, rows, k).current <==> DivergesAt(cfg, rows, k)
  {
    ghost var diverges := DivergesAt(cfg, rows, k);
    DivergesAtIs(cfg, rows, k);
    WindowsAgreeWithHistory(cfg, step, rows, k);
  }

  lemma DivergesIs(cfg: Thresholds, rows: seq<Row>, k: nat, from: int)
    requires k < |rows| && from == rows[k].now - cfg.throughputPeakWindowS * 1_000_000_000
    ensures Diverges(cfg, SamplesInWindow(cfg, rows, k), rows[k]) <==>
            rows[k].networkMbps > 0.0 && UnderReads(cfg, rows, k + 1, from, rows[k].networkMbps)
  {
    UnderReadsByPeak(cfg, rows, k + 1, from, Peak(SamplesInWindow(cfg, rows, k)), rows[k].networkMbps);
  }

  lemma UnderReadsByPeak(cfg: Thresholds, rows: seq<Row>, k: nat, from: int, peak: real, rate: real)
    requires k <= |rows| && peak == Peak(SamplesSince(Recorded(Readings(cfg, rows), k), from))
    ensures UnderReads(cfg, rows, k, from, rate) <==> peak > 0.0 && rate < UnderReadLimit(cfg, peak)
  {
    if peak > 0.0 {
      PeakIsPeak(cfg, rows, k, from, peak, peak);
    }
    forall p | IsPeak(cfg, rows, k, from, p) && p > 0.0 ensures p == peak {
      PeakIsPeak(cfg, rows, k, from, peak, p);
    }
  }

  // ---------- the floor ----------

  /** At the floor: playing, with a choice of rungs, and at most five hundredths above the lowest. */
  lemma FloorMeans(r: Row)
    ensures AtFloor(r) <==> |r.ladder| >= 2 && 0.0 < r.videoMbps && 100.0 * r.videoMbps <= 105.0 * r.ladder[0]
  {
  }
}
