/** The quality conditions that one row decides on its own, given the configured thresholds. */
module QoeConditions {
  import opened Labels
  import opened TimeWindows
  import opened Wrappers

  const U32: nat := 0x1_0000_0000
  const U64: nat := 0x1_0000_0000_0000_0000
  type u32 = n: nat | n < 0x1_0000_0000
  type u64 = n: nat | n < 0x1_0000_0000_0000_0000

  /** The rung bitrates of the manifest in Mbps, which parsing leaves ascending. */
  type Ladder = seq<real>

  ghost predicate Ascending(ladder: Ladder) {
    forall i, j :: 0 <= i <= j < |ladder| ==> ladder[i] <= ladder[j]
  }

  datatype LastEvent =
    | RateShiftUp | RateShiftDown | VideoFirstFrame | VideoStartTime | PlayOpened | Jumped | SegmentStall | LiveResynced
    | Frozen | Marked | Stuck | Wedged | Restart(reason: RestartReason) | Failed
    | StallStart | StallEnd | BufferingStart | BufferingEnd | SessionEnd | PlayEnd | OtherEvent

  datatype Status = AbandonedStart | Failure | OtherStatus

  datatype Row = Row(
    now: Time, event: LastEvent, status: Status,
    videoStartTimeMs: u32, videoFirstFrameTimeMs: u32, videoFirstFrameTimeS: real, videoStartTimeS: real,
    stallingTimeMs: u32, playingTimeMs: u32, stallingCount: u32, stallDurationMs: u32, bufferingDurationMs: u32,
    videoMbps: real, networkMbps: real, avgNetworkMbps: real, ladder: Ladder,
    framesDisplayed: u64, framesDropped: u32,
    transferMbps: real, nftablesMbps: real, rateLimitMbps: real, measuredMbps: real,
    recommendedOffsetS: real, liveOffsetS: real, configuredOffsetS: real)
  {
    predicate Terminal() { event == SessionEnd || event == PlayEnd }
    predicate PlaybackStarted() { videoFirstFrameTimeMs > 0 }
  }

  datatype Thresholds = Thresholds(
    refireCooldownS: u32, vstConcerningMs: u32, vstBreachMs: u32,
    cirrConcerning: real, cirrBreach: real, cirtConcerningMs: u32, cirtBreachMs: u32,
    stallBurstThreshold: u32, stallBurstWindowS: u32,
    bitrateUnderutilizedRatio: real, abrHeadroomMargin: real,
    throughputDivergenceFactor: real, throughputPeakWindowS: u32,
    downshiftStormThreshold: u32, downshiftStormWindowS: u32, minVariantStuckS: u32,
    fpsDipRatio: real, startupGraceMs: u32, downshiftOvershootRungs: int,
    offsetConcerningMarginS: real, offsetBreachMarginS: real, offsetTightMarginS: real, holdbackDeviationS: real,
    rateCapBreachFactor: real, cmcdMtpDriftRatio: real)

  const SECOND: nat := 1_000_000_000

  function Seconds(s: u32): nat { s * SECOND }

  function Abs(x: real): real { if x < 0.0 then -x else x }

  function When(on: bool, sev: Severity, event: Event): seq<Label> {
    if on then [Label(sev, event)] else []
  }

  // ---------- conditions of the row alone ----------

  /** The conditions that one row decides, with no memory of earlier rows. */
  predicate OfRow(e: Event) {
    || e.VstBreach? || e.VstConcerning? || e.CirrBreach? || e.CirrConcerning? || e.CirtBreach? || e.CirtConcerning?
    || e.AbrConservative? || e.LadderGap? || e.FpsDip?
    || e.LiveOffsetBreach? || e.LiveOffsetConcerning? || e.LiveOffsetTight? || e.HoldbackDeviation?
    || e.RateCapBreach? || e.DownshiftOvershoot? || e.CmcdMtpDrift?
  }

  function VstLabels(cfg: Thresholds, r: Row): seq<Label> {
    if r.videoStartTimeMs == 0 then []
    else if r.videoStartTimeMs >= cfg.vstBreachMs then [Label(Critical, VstBreach)]
    else When(r.videoStartTimeMs >= cfg.vstConcerningMs, Warning, VstConcerning)
  }

  /** The sum of the two accumulators wraps at 32 bits. */
  function CirrLabels(cfg: Thresholds, r: Row): seq<Label> {
    var denom := (r.stallingTimeMs + r.playingTimeMs) % U32;
    if denom == 0 then []
    else
      var cirr := r.stallingTimeMs as real / denom as real;
      if cirr >= cfg.cirrBreach then [Label(Critical, CirrBreach)]
      else When(cirr >= cfg.cirrConcerning, Warning, CirrConcerning)
  }

  function CirtLabels(cfg: Thresholds, r: Row): seq<Label> {
    if r.stallingCount == 0 then []
    else
      var cirt := r.stallingTimeMs as real / r.stallingCount as real;
      if cirt >= cfg.cirtBreachMs as real then [Label(Critical, CirtBreach)]
      else When(cirt >= cfg.cirtConcerningMs as real, Warning, CirtConcerning)
  }

  /** How many leading rungs are at most `limit`. */
  function RungsUpTo(ladder: seq<real>, limit: real): (k: nat)
    ensures k <= |ladder| && (forall i :: 0 <= i < k ==> ladder[i] <= limit) && (k < |ladder| ==> ladder[k] > limit)
  {
    if ladder == [] || ladder[0] > limit then 0 else 1 + RungsUpTo(ladder[1..], limit)
  }

  /** The least rung that is clearly above `cur`. */
  function NextRung(ladder: seq<real>, cur: real): Option<real> {
    var k := RungsUpTo(ladder, cur * 1.001);
    if k < |ladder| then Some(ladder[k]) else None
  }

  method NextRungAbove(ladder: Ladder, cur: real) returns (next: Option<real>)
    ensures next == NextRung(ladder, cur)
  {
    for i := 0 to |ladder|
      invariant forall k :: 0 <= k < i ==> ladder[k] <= cur * 1.001
    {
      if ladder[i] > cur * 1.001 {
        assert RungsUpTo(ladder, cur * 1.001) == i;
        return Some(ladder[i]);
      }
    }
    next := None;
  }

  /** The responsive client measurement, or the whole-play average when there is none. */
  function Throughput(r: Row): real {
    if r.networkMbps > 0.0 then r.networkMbps else r.avgNetworkMbps
  }

  function Utilisation(cur: real, throughput: real): real
    requires throughput > 0.0
  {
    cur / throughput
  }

  function Affordable(cfg: Thresholds, throughput: real): real {
    throughput * cfg.abrHeadroomMargin
  }

  /** Whether the chosen variant leaves the link underused without being the top rung. */
  predicate Underutilized(cfg: Thresholds, r: Row) {
    && r.videoMbps > 0.0 && Throughput(r) > 0.0
    && Utilisation(r.videoMbps, Throughput(r)) < cfg.bitrateUnderutilizedRatio
    && r.ladder != [] && r.videoMbps < r.ladder[|r.ladder| - 1] * 0.999
  }

  predicate FittingRung(ladder: seq<real>, cur: real, limit: real) {
    var next := NextRung(ladder, cur);
    next.Some? && next.value <= limit
  }

  function AbrLabels(cfg: Thresholds, r: Row): seq<Label> {
    if !Underutilized(cfg, r) then []
    else if FittingRung(r.ladder, r.videoMbps, Affordable(cfg, Throughput(r))) then [Label(Warning, AbrConservative)]
    else [Label(Info, LadderGap)]
  }

  /** The player, not the ladder, is to blame exactly when some rung clearly above the chosen one fits. */
  lemma FittingRungExists(ladder: Ladder, cur: real, limit: real)
    requires Ascending(ladder)
    ensures FittingRung(ladder, cur, limit) <==>
            exists i :: 0 <= i < |ladder| && ladder[i] > cur * 1.001 && ladder[i] <= limit
  {
    var k := RungsUpTo(ladder, cur * 1.001);
    if i :| 0 <= i < |ladder| && ladder[i] > cur * 1.001 && ladder[i] <= limit {
      assert k <= i;
      assert ladder[k] <= ladder[i];
    }
  }

  method AbrBitrateLabels(cfg: Thresholds, r: Row) returns (labels: seq<Label>)
    ensures labels == AbrLabels(cfg, r)
  {
    var cur := r.videoMbps;
    if cur <= 0.0 {
      return [];
    }
    var denom := r.networkMbps;
    if denom <= 0.0 {
      denom := r.avgNetworkMbps;
    }
    if denom <= 0.0 {
      return [];
    }
    if Utilisation(cur, denom) >= cfg.bitrateUnderutilizedRatio {
      return [];
    }
    if |r.ladder| == 0 {
      return [];
    }
    if cur >= r.ladder[|r.ladder| - 1] * 0.999 {
      return [];
    }
    var next := NextRungAbove(r.ladder, cur);
    if next.Some? && next.value <= Affordable(cfg, denom) {
      return [Label(Warning, AbrConservative)];
    }
    return [Label(Info, LadderGap)];
  }

  function FpsLabels(cfg: Thresholds, r: Row): seq<Label> {
    var total := (r.framesDisplayed + r.framesDropped) % U64;
    if !r.PlaybackStarted() || total == 0 then []
    else When(r.framesDropped as real / total as real >= cfg.fpsDipRatio, Warning, FpsDip)
  }

  function LiveOffsetLabels(cfg: Thresholds, r: Row): seq<Label> {
    if !r.PlaybackStarted() || r.recommendedOffsetS <= 0.0 then []
    else
      var excess := r.liveOffsetS - r.recommendedOffsetS;
      var drift :=
        if r.liveOffsetS <= 0.0 then []
        else if excess >= cfg.offsetBreachMarginS then [Label(Critical, LiveOffsetBreach)]
        else if excess >= cfg.offsetConcerningMarginS then [Label(Warning, LiveOffsetConcerning)]
        else When(cfg.offsetTightMarginS > 0.0 && excess <= -cfg.offsetTightMarginS, Warning, LiveOffsetTight);
      drift + When(r.configuredOffsetS > 0.0 && Abs(r.configuredOffsetS - r.recommendedOffsetS) > cfg.holdbackDeviationS,
                   Warning, HoldbackDeviation)
  }

  function RateCapLabels(cfg: Thresholds, r: Row): seq<Label> {
    var served := if r.nftablesMbps > 0.0 then r.nftablesMbps else r.transferMbps;
    When(r.rateLimitMbps > 0.0 && served > 0.0 && served > r.rateLimitMbps * cfg.rateCapBreachFactor, Warning, RateCapBreach)
  }

  function CmcdLabels(cfg: Thresholds, r: Row): seq<Label> {
    When(r.measuredMbps > 0.0 && r.transferMbps > 0.0
         && Abs(r.measuredMbps - r.transferMbps) / r.transferMbps > cfg.cmcdMtpDriftRatio, Warning, CmcdMtpDrift)
  }

  // ---------- overshoot: rungs below the ceiling the cap supports ----------

  /** Rung c is the highest the cap supports, or the lowest rung when it supports none. */
  ghost predicate IsCeiling(ladder: seq<real>, limit: real, c: nat) {
    && c < |ladder|
    && (c == 0 || ladder[c] <= limit)
    && forall i :: c < i < |ladder| ==> ladder[i] > limit
  }

  /** Rung n is the nearest to `cur`, the lowest of equals. */
  ghost predicate IsNearest(ladder: seq<real>, cur: real, n: nat) {
    && n < |ladder|
    && (forall i :: 0 <= i < |ladder| ==> Abs(ladder[n] - cur) <= Abs(ladder[i] - cur))
    && forall i :: 0 <= i < n ==> Abs(ladder[n] - cur) < Abs(ladder[i] - cur)
  }

  lemma RungsAreUnique(ladder: seq<real>, x: real, a: nat, b: nat)
    ensures IsCeiling(ladder, x, a) && IsCeiling(ladder, x, b) ==> a == b
    ensures IsNearest(ladder, x, a) && IsNearest(ladder, x, b) ==> a == b
  {
  }

  /** The last of the leading rungs that the cap supports. */
  function Ceiling(ladder: seq<real>, limit: real): (c: nat)
    requires ladder != []
    ensures c < |ladder|
  {
    var k := RungsUpTo(ladder, limit);
    if k == 0 then 0 else k - 1
  }

  function Nearest(ladder: seq<real>, cur: real): (best: nat)
    requires ladder != []
    ensures IsNearest(ladder, cur, best)
  {
    var n := |ladder| - 1;
    if n == 0 then 0
    else
      var best := Nearest(ladder[..n], cur);
      assert forall i :: 0 <= i < n ==> ladder[..n][i] == ladder[i];
      if Abs(ladder[n] - cur) < Abs(ladder[best] - cur) then n else best
  }

  lemma CeilingIsHighest(ladder: Ladder, limit: real)
    requires ladder != [] && Ascending(ladder)
    ensures IsCeiling(ladder, limit, Ceiling(ladder, limit))
  {
    var k := RungsUpTo(ladder, limit);
    forall i | Ceiling(ladder, limit) < i < |ladder| ensures ladder[i] > limit {
      assert ladder[k] <= ladder[i];
    }
  }

  predicate Overshoots(cfg: Thresholds, r: Row) {
    && r.rateLimitMbps > 0.0 && r.videoMbps > 0.0 && |r.ladder| >= 2
    && Ceiling(r.ladder, r.rateLimitMbps * 1.001) - Nearest(r.ladder, r.videoMbps) >= cfg.downshiftOvershootRungs
  }

  method CeilingIndex(ladder: Ladder, limit: real) returns (c: nat)
    requires ladder != []
    ensures c == Ceiling(ladder, limit)
  {
    c := 0;
    var i := 0;
    while i < |ladder| && ladder[i] <= limit
      invariant i <= |ladder| && c == if i == 0 then 0 else i - 1
      invariant forall k :: 0 <= k < i ==> ladder[k] <= limit
    {
      c := i;
      i := i + 1;
    }
    assert i == RungsUpTo(ladder, limit);
  }

  method NearestIndex(ladder: Ladder, cur: real) returns (best: nat)
    requires ladder != []
    ensures best == Nearest(ladder, cur)
  {
    best := 0;
    var distance := Abs(ladder[0] - cur);
    for i := 0 to |ladder|
      invariant best < |ladder| && best <= i && distance == Abs(ladder[best] - cur)
      invariant forall k :: 0 <= k < i ==> distance <= Abs(ladder[k] - cur)
      invariant forall k :: 0 <= k < best ==> distance < Abs(ladder[k] - cur)
    {
      var d := Abs(ladder[i] - cur);
      if d < distance {
        best, distance := i, d;
      }
    }
    RungsAreUnique(ladder, cur, best, Nearest(ladder, cur));
  }

  method DownshiftOvershootLabel(cfg: Thresholds, r: Row) returns (labels: seq<Label>)
    ensures labels == When(Overshoots(cfg, r), Warning, DownshiftOvershoot)
  {
    if r.rateLimitMbps <= 0.0 || r.videoMbps <= 0.0 || |r.ladder| < 2 {
      return [];
    }
    var ceilingIdx := CeilingIndex(r.ladder, r.rateLimitMbps * 1.001);
    var curIdx := NearestIndex(r.ladder, r.videoMbps);
    if ceilingIdx - curIdx >= cfg.downshiftOvershootRungs {
      return [Label(Warning, DownshiftOvershoot)];
    }
    return [];
  }
}
