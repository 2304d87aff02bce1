/** What is on the list of conditions true on a row: nothing twice, and of each graded condition the worse
    label or the milder one, never both. */
module QoeFamilies {
  import opened Labels
  import opened QoeConditions
  import opened QoeStep

  const KINDS: nat := 14

  /** The source's order of conditions. */
  function KindOf(e: Event): nat {
    if e.VstBreach? || e.VstConcerning? then 0
    else if e.NoFirstFrame? then 1
    else if e.CirrBreach? || e.CirrConcerning? then 2
    else if e.CirtBreach? || e.CirtConcerning? then 3
    else if e.StallBurst? then 4
    else if e.AbrConservative? || e.LadderGap? then 5
    else if e.DownshiftStorm? then 6
    else if e.MinVariantStuck? then 7
    else if e.FpsDip? then 8
    else if e.ThroughputDivergence? then 9
    else if e.LiveOffsetBreach? || e.LiveOffsetConcerning? || e.LiveOffsetTight? || e.HoldbackDeviation? then 10
    else if e.RateCapBreach? then 11
    else if e.DownshiftOvershoot? then 12
    else if e.CmcdMtpDrift? then 13
    else KINDS
  }

  /** The conditions of one kind. */
  function Piece(cfg: Thresholds, f: Flags, r: Row, kind: nat): seq<Label> {
    match kind
    case 0 => VstLabels(cfg, r)
    case 1 => When(f.frameless, Warning, NoFirstFrame)
    case 2 => CirrLabels(cfg, r)
    case 3 => CirtLabels(cfg, r)
    case 4 => When(f.burst, Critical, StallBurst)
    case 5 => if Settled(cfg, r) then AbrLabels(cfg, r) else []
    case 6 => When(f.storm, Warning, DownshiftStorm)
    case 7 => When(f.stuck, Warning, MinVariantStuck)
    case 8 => FpsLabels(cfg, r)
    case 9 => When(f.diverges, Warning, ThroughputDivergence)
    case 10 => LiveOffsetLabels(cfg, r)
    case 11 => RateCapLabels(cfg, r)
    case 12 => When(Overshoots(cfg, r), Warning, DownshiftOvershoot)
    case 13 => CmcdLabels(cfg, r)
    case _ => []
  }

  /** Labels of kinds lo to hi, each once. */
  ghost predicate Ranged(labels: seq<Label>, lo: nat, hi: nat) {
    && (forall l :: l in labels ==> lo <= KindOf(l.event) <= hi)
    && (forall l :: multiset(labels)[l] <= 1)
  }

  lemma FewAreRanged(labels: seq<Label>, kind: nat)
    requires |labels| <= 1 || (|labels| == 2 && labels[0] != labels[1])
    requires forall i :: 0 <= i < |labels| ==> KindOf(labels[i].event) == kind
    ensures Ranged(labels, kind, kind)
  {
    assert |labels| == 1 ==> labels == [labels[0]];
    assert |labels| == 2 ==> labels == [labels[0], labels[1]];
  }

  lemma WhenIsOne(on: bool, sev: Severity, event: Event)
    ensures Ranged(When(on, sev, event), KindOf(event), KindOf(event))
  {
    FewAreRanged(When(on, sev, event), KindOf(event));
  }

  lemma VstIsRanged(cfg: Thresholds, r: Row)
    ensures Ranged(VstLabels(cfg, r), 0, 0)
  {
    FewAreRanged(VstLabels(cfg, r), 0);
  }

  lemma CirrIsRanged(cfg: Thresholds, r: Row)
    ensures Ranged(CirrLabels(cfg, r), 2, 2)
  {
    FewAreRanged(CirrLabels(cfg, r), 2);
  }

  lemma CirtIsRanged(cfg: Thresholds, r: Row)
    ensures Ranged(CirtLabels(cfg, r), 3, 3)
  {
    FewAreRanged(CirtLabels(cfg, r), 3);
  }

  lemma AbrIsRanged(cfg: Thresholds, r: Row)
    ensures Ranged(AbrLabels(cfg, r), 5, 5)
  {
    FewAreRanged(AbrLabels(cfg, r), 5);
  }

  lemma FpsIsRanged(cfg: Thresholds, r: Row)
    ensures Ranged(FpsLabels(cfg, r), 8, 8)
  {
    FewAreRanged(FpsLabels(cfg, r), 8);
  }

  lemma LiveOffsetIsRanged(cfg: Thresholds, r: Row)
    ensures Ranged(LiveOffsetLabels(cfg, r), 10, 10)
  {
    FewAreRanged(LiveOffsetLabels(cfg, r), 10);
  }

  lemma RateCapIsRanged(cfg: Thresholds, r: Row)
    ensures Ranged(RateCapLabels(cfg, r), 11, 11)
  {
    FewAreRanged(RateCapLabels(cfg, r), 11);
  }

  lemma CmcdIsRanged(cfg: Thresholds, r: Row)
    ensures Ranged(CmcdLabels(cfg, r), 13, 13)
  {
    FewAreRanged(CmcdLabels(cfg, r), 13);
  }

  lemma EarlyPieces(cfg: Thresholds, f: Flags, r: Row, kind: nat)
    requires kind < 5
    ensures Ranged(Piece(cfg, f, r, kind), kind, kind)
  {
    if kind == 0 {
      VstIsRanged(cfg, r);
    } else if kind == 1 {
      WhenIsOne(f.frameless, Warning, NoFirstFrame);
    } else if kind == 2 {
      CirrIsRanged(cfg, r);
    } else if kind == 3 {
      CirtIsRanged(cfg, r);
    } else {
      WhenIsOne(f.burst, Critical, StallBurst);
    }
  }

  lemma AbrPiece(cfg: Thresholds, f: Flags, r: Row)
    ensures Ranged(Piece(cfg, f, r, 5), 5, 5)
  {
    if Settled(cfg, r) {
      AbrIsRanged(cfg, r);
    } else {
      FewAreRanged([], 5);
    }
  }

  lemma StormPiece(cfg: Thresholds, f: Flags, r: Row)
    ensures Ranged(Piece(cfg, f, r, 6), 6, 6)
  {
    WhenIsOne(f.storm, Warning, DownshiftStorm);
  }

  lemma StuckPiece(cfg: Thresholds, f: Flags, r: Row)
    ensures Ranged(Piece(cfg, f, r, 7), 7, 7)
  {
    WhenIsOne(f.stuck, Warning, MinVariantStuck);
  }

  lemma FpsPiece(cfg: Thresholds, f: Flags, r: Row)
    ensures Ranged(Piece(cfg, f, r, 8), 8, 8)
  {
    FpsIsRanged(cfg, r);
  }

  lemma DivergencePiece(cfg: Thresholds, f: Flags, r: Row)
    ensures Ranged(Piece(cfg, f, r, 9), 9, 9)
  {
    WhenIsOne(f.diverges, Warning, ThroughputDivergence);
  }

  lemma LatePieces(cfg: Thresholds, f: Flags, r: Row, kind: nat)
    requires kind >= 10
    ensures Ranged(Piece(cfg, f, r, kind), kind, kind)
  {
    if kind == 10 {
      LiveOffsetIsRanged(cfg, r);
    } else if kind == 11 {
      RateCapIsRanged(cfg, r);
    } else if kind == 12 {
      WhenIsOne(Overshoots(cfg, r), Warning, DownshiftOvershoot);
    } else if kind == 13 {
      CmcdIsRanged(cfg, r);
    } else {
      FewAreRanged([], kind);
    }
  }

  lemma PiecesAreRanged(cfg: Thresholds, f: Flags, r: Row)
    ensures forall m: nat :: Ranged(PiecesOf(cfg, f, r)(m), m, m)
  {
    forall m: nat ensures Ranged(PiecesOf(cfg, f, r)(m), m, m) {
      if m < 5 {
        EarlyPieces(cfg, f, r, m);
      } else if m == 5 {
        AbrPiece(cfg, f, r);
      } else if m == 6 {
        StormPiece(cfg, f, r);
      } else if m == 7 {
        StuckPiece(cfg, f, r);
      } else if m == 8 {
        FpsPiece(cfg, f, r);
      } else if m == 9 {
        DivergencePiece(cfg, f, r);
      } else {
        LatePieces(cfg, f, r, m);
      }
    }
  }

  lemma Join(a: seq<Label>, b: seq<Label>, lo: nat, mid: nat, hi: nat, l: Label)
    requires lo <= mid < hi && Ranged(a, lo, mid) && Ranged(b, mid + 1, hi)
    ensures Ranged(a + b, lo, hi)
    ensures l in a + b <==> if KindOf(l.event) <= mid then l in a else l in b
  {
    assert multiset(a + b) == multiset(a) + multiset(b);
    forall x ensures multiset(a + b)[x] <= 1 {
      assert x in a <==> multiset(a)[x] > 0;
      assert x in b <==> multiset(b)[x] > 0;
    }
  }

  type Pieces = nat -> seq<Label>

  /** Pieces lo to hi, in order. */
  function Concat(piece: Pieces, lo: nat, hi: nat): seq<Label>
    requires lo <= hi
  {
    if lo == hi then piece(lo) else Concat(piece, lo, hi - 1) + piece(hi)
  }

  ghost predicate Lists(labels: seq<Label>, piece: Pieces, lo: nat, hi: nat, l: Label) {
    && Ranged(labels, lo, hi)
    && (lo <= KindOf(l.event) <= hi ==> (l in labels <==> l in piece(KindOf(l.event))))
  }

  lemma {:induction false} ConcatLists(piece: Pieces, lo: nat, hi: nat, l: Label)
    requires lo <= hi && forall k: nat :: Ranged(piece(k), k, k)
    ensures Lists(Concat(piece, lo, hi), piece, lo, hi, l)
  {
    assert Ranged(piece(hi), hi, hi);
    if lo < hi {
      ConcatLists(piece, lo, hi - 1, l);
      Join(Concat(piece, lo, hi - 1), piece(hi), lo, hi - 1, hi, l);
    }
  }

  lemma ListsJoin(piece: Pieces, lo: nat, mid: nat, hi: nat, a: seq<Label>, l: Label)
    requires lo <= mid < hi && Lists(a, piece, lo, mid, l) && forall k: nat :: Ranged(piece(k), k, k)
    ensures Lists(a + Concat(piece, mid + 1, hi), piece, lo, hi, l)
  {
    ConcatLists(piece, mid + 1, hi, l);
    Join(a, Concat(piece, mid + 1, hi), lo, mid, hi, l);
  }

  lemma GroupsList(piece: Pieces, i: nat, j: nat, k: nat, n: nat, l: Label)
    requires i < j < k < n && forall m: nat :: Ranged(piece(m), m, m)
    ensures Lists(Concat(piece, 0, i) + Concat(piece, i + 1, j) + Concat(piece, j + 1, k) + Concat(piece, k + 1, n), piece, 0, n, l)
  {
    var a := Concat(piece, 0, i);
    var b := a + Concat(piece, i + 1, j);
    ConcatLists(piece, 0, i, l);
    ListsJoin(piece, 0, i, j, a, l);
    ListsJoin(piece, 0, j, k, b, l);
    ListsJoin(piece, 0, k, n, b + Concat(piece, j + 1, k), l);
  }

  function PiecesOf(cfg: Thresholds, f: Flags, r: Row): Pieces {
    (k: nat) => Piece(cfg, f, r, k)
  }

  lemma StartupIsConcat(cfg: Thresholds, f: Flags, r: Row)
    ensures StartupConditions(cfg, f, r) == Concat(PiecesOf(cfg, f, r), 0, 1)
    ensures ContinuityConditions(cfg, f, r) == Concat(PiecesOf(cfg, f, r), 2, 4)
  {
  }

  lemma AbrIsConcat(cfg: Thresholds, f: Flags, r: Row)
    ensures AbrConditions(cfg, f, r) == Concat(PiecesOf(cfg, f, r), 5, 9)
  {
  }

  lemma DeliveryIsConcat(cfg: Thresholds, f: Flags, r: Row)
    ensures DeliveryConditions(cfg, r) == Concat(PiecesOf(cfg, f, r), 10, 13)
  {
  }

  lemma ConditionsAreConcat(cfg: Thresholds, f: Flags, r: Row)
    ensures var piece := PiecesOf(cfg, f, r);
            Conditions(cfg, f, r) == Concat(piece, 0, 1) + Concat(piece, 2, 4) + Concat(piece, 5, 9) + Concat(piece, 10, 13)
  {
    StartupIsConcat(cfg, f, r);
    AbrIsConcat(cfg, f, r);
    DeliveryIsConcat(cfg, f, r);
  }

  lemma GroupsListAll(all: seq<Label>, piece: Pieces, i: nat, j: nat, k: nat, n: nat, l: Label)
    requires i < j < k < n && n + 1 == KINDS
    requires all == Concat(piece, 0, i) + Concat(piece, i + 1, j) + Concat(piece, j + 1, k) + Concat(piece, k + 1, n)
    requires forall m: nat :: Ranged(piece(m), m, m)
    ensures multiset(all)[l] <= 1 && (l in all <==> KindOf(l.event) < KINDS && l in piece(KindOf(l.event)))
  {
    GroupsList(piece, i, j, k, n, l);
  }

  /** A row's conditions list no label twice, and list a label exactly when its own kind does. */
  lemma ConditionsList(cfg: Thresholds, f: Flags, r: Row, l: Label)
    ensures multiset(Conditions(cfg, f, r))[l] <= 1
    ensures l in Conditions(cfg, f, r) <==> KindOf(l.event) < KINDS && l in PiecesOf(cfg, f, r)(KindOf(l.event))
  {
    PiecesAreRanged(cfg, f, r);
    ConditionsAreConcat(cfg, f, r);
    GroupsListAll(Conditions(cfg, f, r), PiecesOf(cfg, f, r), 1, 4, 9, 13, l);
  }

  // ---------- graded conditions ----------

  /** A condition graded by two thresholds: from the breach threshold on the breach alone, between the two the
      concern alone, below both neither. */
  ghost predicate IsGraded(labels: seq<Label>, breach: Event, concern: Event, known: bool, value: real, high: real, low: real) {
    && (Label(Critical, breach) in labels <==> known && value >= high)
    && (Label(Warning, concern) in labels <==> known && low <= value < high)
  }

  lemma GradedByPiece(cfg: Thresholds, f: Flags, r: Row, breach: Event, concern: Event, known: bool, value: real, high: real, low: real)
    requires KindOf(breach) == KindOf(concern) < KINDS
    requires IsGraded(Piece(cfg, f, r, KindOf(breach)), breach, concern, known, value, high, low)
    ensures IsGraded(Conditions(cfg, f, r), breach, concern, known, value, high, low)
  {
    ConditionsList(cfg, f, r, Label(Critical, breach));
    ConditionsList(cfg, f, r, Label(Warning, concern));
  }

  lemma StartupIsGraded(cfg: Thresholds, f: Flags, r: Row)
    ensures IsGraded(Conditions(cfg, f, r), VstBreach, VstConcerning, r.videoStartTimeMs > 0,
                     r.videoStartTimeMs as real, cfg.vstBreachMs as real, cfg.vstConcerningMs as real)
  {
    GradedByPiece(cfg, f, r, VstBreach, VstConcerning, r.videoStartTimeMs > 0,
                  r.videoStartTimeMs as real, cfg.vstBreachMs as real, cfg.vstConcerningMs as real);
  }

  function PlayedOrStalled(r: Row): nat {
    (r.stallingTimeMs + r.playingTimeMs) % U32
  }

  function Share(part: nat, whole: nat): real {
    if whole == 0 then 0.0 else part as real / whole as real
  }

  /** The rebuffer ratio, over a sum that wraps at 32 bits. */
  lemma RebufferingIsGraded(cfg: Thresholds, f: Flags, r: Row)
    ensures IsGraded(Conditions(cfg, f, r), CirrBreach, CirrConcerning, PlayedOrStalled(r) > 0,
                     Share(r.stallingTimeMs, PlayedOrStalled(r)), cfg.cirrBreach, cfg.cirrConcerning)
  {
    GradedByPiece(cfg, f, r, CirrBreach, CirrConcerning, PlayedOrStalled(r) > 0,
                  Share(r.stallingTimeMs, PlayedOrStalled(r)), cfg.cirrBreach, cfg.cirrConcerning);
  }

  /** The mean interruption. */
  lemma InterruptionIsGraded(cfg: Thresholds, f: Flags, r: Row)
    ensures IsGraded(Conditions(cfg, f, r), CirtBreach, CirtConcerning, r.stallingCount > 0,
                     Share(r.stallingTimeMs, r.stallingCount), cfg.cirtBreachMs as real, cfg.cirtConcerningMs as real)
  {
    GradedByPiece(cfg, f, r, CirtBreach, CirtConcerning, r.stallingCount > 0,
                  Share(r.stallingTimeMs, r.stallingCount), cfg.cirtBreachMs as real, cfg.cirtConcerningMs as real);
  }

  /** How far the player is behind the recommended offset, once playback has started on a live stream. */
  lemma LiveOffsetIsGraded(cfg: Thresholds, f: Flags, r: Row)
    ensures IsGraded(Conditions(cfg, f, r), LiveOffsetBreach, LiveOffsetConcerning,
                     r.PlaybackStarted() && r.recommendedOffsetS > 0.0 && r.liveOffsetS > 0.0,
                     r.liveOffsetS - r.recommendedOffsetS, cfg.offsetBreachMarginS, cfg.offsetConcerningMarginS)
  {
    GradedByPiece(cfg, f, r, LiveOffsetBreach, LiveOffsetConcerning,
                  r.PlaybackStarted() && r.recommendedOffsetS > 0.0 && r.liveOffsetS > 0.0,
                  r.liveOffsetS - r.recommendedOffsetS, cfg.offsetBreachMarginS, cfg.offsetConcerningMarginS);
  }

  // ---------- the other conditions of a row ----------

  /** A label is listed exactly when `on`. */
  ghost predicate IsFlagged(labels: seq<Label>, sev: Severity, event: Event, on: bool) {
    Label(sev, event) in labels <==> on
  }

  lemma FlaggedByPiece(cfg: Thresholds, f: Flags, r: Row, sev: Severity, event: Event, on: bool)
    requires KindOf(event) < KINDS && IsFlagged(Piece(cfg, f, r, KindOf(event)), sev, event, on)
    ensures IsFlagged(Conditions(cfg, f, r), sev, event, on)
  {
    ConditionsList(cfg, f, r, Label(sev, event));
  }

  /** Dropped frames, as a share of all frames once playback has started; the sum wraps at 64 bits. */
  lemma FpsDipMeans(cfg: Thresholds, f: Flags, r: Row)
    ensures var total := (r.framesDisplayed + r.framesDropped) % 0x1_0000_0000_0000_0000;
            IsFlagged(Conditions(cfg, f, r), Warning, FpsDip,
                      r.videoFirstFrameTimeMs > 0 && total > 0 && Share(r.framesDropped, total) >= cfg.fpsDipRatio)
  {
    var total := (r.framesDisplayed + r.framesDropped) % 0x1_0000_0000_0000_0000;
    FlaggedByPiece(cfg, f, r, Warning, FpsDip,
                   r.videoFirstFrameTimeMs > 0 && total > 0 && Share(r.framesDropped, total) >= cfg.fpsDipRatio);
  }

  /** Closer to live than asked, though not behind it. */
  lemma LiveOffsetTightMeans(cfg: Thresholds, f: Flags, r: Row)
    ensures var excess := r.liveOffsetS - r.recommendedOffsetS;
            IsFlagged(Conditions(cfg, f, r), Warning, LiveOffsetTight,
                      && r.videoFirstFrameTimeMs > 0 && r.recommendedOffsetS > 0.0 && r.liveOffsetS > 0.0
                      && excess < cfg.offsetConcerningMarginS && excess < cfg.offsetBreachMarginS
                      && cfg.offsetTightMarginS > 0.0 && excess <= -cfg.offsetTightMarginS)
  {
    var excess := r.liveOffsetS - r.recommendedOffsetS;
    FlaggedByPiece(cfg, f, r, Warning, LiveOffsetTight,
                   && r.videoFirstFrameTimeMs > 0 && r.recommendedOffsetS > 0.0 && r.liveOffsetS > 0.0
                   && excess < cfg.offsetConcerningMarginS && excess < cfg.offsetBreachMarginS
                   && cfg.offsetTightMarginS > 0.0 && excess <= -cfg.offsetTightMarginS);
  }

  /** A hold-back that was configured off the recommended one, either way. */
  lemma HoldbackMeans(cfg: Thresholds, f: Flags, r: Row)
    ensures var gap := r.configuredOffsetS - r.recommendedOffsetS;
            IsFlagged(Conditions(cfg, f, r), Warning, HoldbackDeviation,
                      && r.videoFirstFrameTimeMs > 0 && r.recommendedOffsetS > 0.0 && r.configuredOffsetS > 0.0
                      && (gap > cfg.holdbackDeviationS || -gap > cfg.holdbackDeviationS))
  {
    var gap := r.configuredOffsetS - r.recommendedOffsetS;
    FlaggedByPiece(cfg, f, r, Warning, HoldbackDeviation,
                   && r.videoFirstFrameTimeMs > 0 && r.recommendedOffsetS > 0.0 && r.configuredOffsetS > 0.0
                   && (gap > cfg.holdbackDeviationS || -gap > cfg.holdbackDeviationS));
  }

  /** More served than the cap allows; the kernel's counter is preferred to the transfer rate. */
  lemma RateCapMeans(cfg: Thresholds, f: Flags, r: Row)
    ensures var served := if r.nftablesMbps > 0.0 then r.nftablesMbps else r.transferMbps;
            IsFlagged(Conditions(cfg, f, r), Warning, RateCapBreach,
                      r.rateLimitMbps > 0.0 && served > 0.0 && served > r.rateLimitMbps * cfg.rateCapBreachFactor)
  {
    var served := if r.nftablesMbps > 0.0 then r.nftablesMbps else r.transferMbps;
    FlaggedByPiece(cfg, f, r, Warning, RateCapBreach,
                   r.rateLimitMbps > 0.0 && served > 0.0 && served > r.rateLimitMbps * cfg.rateCapBreachFactor);
  }

  /** The client's measurement drifts off the transfer rate, either way. */
  lemma CmcdDriftMeans(cfg: Thresholds, f: Flags, r: Row)
    ensures var gap := r.measuredMbps - r.transferMbps;
            IsFlagged(Conditions(cfg, f, r), Warning, CmcdMtpDrift,
                      r.measuredMbps > 0.0 && r.transferMbps > 0.0 && (if gap < 0.0 then -gap else gap) / r.transferMbps > cfg.cmcdMtpDriftRatio)
  {
    var gap := r.measuredMbps - r.transferMbps;
    FlaggedByPiece(cfg, f, r, Warning, CmcdMtpDrift,
                   r.measuredMbps > 0.0 && r.transferMbps > 0.0 && (if gap < 0.0 then -gap else gap) / r.transferMbps > cfg.cmcdMtpDriftRatio);
  }

  /** The variant leaves the link underused past the start-up grace, and is not the top rung. */
  ghost predicate Underuses(cfg: Thresholds, r: Row) {
    var throughput := if r.networkMbps > 0.0 then r.networkMbps else r.avgNetworkMbps;
    && r.playingTimeMs >= cfg.startupGraceMs && r.videoMbps > 0.0 && throughput > 0.0
    && r.videoMbps / throughput < cfg.bitrateUnderutilizedRatio
    && r.ladder != [] && r.videoMbps < r.ladder[|r.ladder| - 1] * 0.999
  }

  ghost predicate SomeFits(ladder: Ladder, cur: real, limit: real) {
    exists i :: 0 <= i < |ladder| && ladder[i] > cur * 1.001 && ladder[i] <= limit
  }

  /** Some rung clearly above the chosen one fits the link with the configured headroom. */
  ghost predicate CouldClimb(cfg: Thresholds, r: Row) {
    var throughput := if r.networkMbps > 0.0 then r.networkMbps else r.avgNetworkMbps;
    SomeFits(r.ladder, r.videoMbps, throughput * cfg.abrHeadroomMargin)
  }

  lemma SomeFitsIs(ladder: Ladder, cur: real, limit: real)
    requires Ascending(ladder)
    ensures SomeFits(ladder, cur, limit) <==> FittingRung(ladder, cur, limit)
  {
    FittingRungExists(ladder, cur, limit);
  }

  lemma UnderusesIs(cfg: Thresholds, r: Row)
    ensures Underuses(cfg, r) <==> Settled(cfg, r) && Underutilized(cfg, r)
  {
  }

  lemma CouldClimbIs(cfg: Thresholds, r: Row)
    requires Ascending(r.ladder)
    ensures CouldClimb(cfg, r) <==> FittingRung(r.ladder, r.videoMbps, Affordable(cfg, Throughput(r)))
  {
    var limit := Affordable(cfg, Throughput(r));
    assert CouldClimb(cfg, r) <==> SomeFits(r.ladder, r.videoMbps, limit);
    SomeFitsIs(r.ladder, r.videoMbps, limit);
  }

  lemma AbrPieceSays(cfg: Thresholds, f: Flags, r: Row, under: bool, climb: bool)
    requires under <==> Settled(cfg, r) && Underutilized(cfg, r)
    requires climb <==> FittingRung(r.ladder, r.videoMbps, Affordable(cfg, Throughput(r)))
    ensures IsFlagged(Piece(cfg, f, r, KindOf(AbrConservative)), Warning, AbrConservative, under && climb)
    ensures IsFlagged(Piece(cfg, f, r, KindOf(LadderGap)), Info, LadderGap, under && !climb)
  {
  }

  /** An underused link is the player's doing when it could climb, and the ladder's when it could not. */
  lemma UnderuseMeans(cfg: Thresholds, f: Flags, r: Row)
    requires Ascending(r.ladder)
    ensures IsFlagged(Conditions(cfg, f, r), Warning, AbrConservative, Underuses(cfg, r) && CouldClimb(cfg, r))
    ensures IsFlagged(Conditions(cfg, f, r), Info, LadderGap, Underuses(cfg, r) && !CouldClimb(cfg, r))
  {
    ghost var under, climb := Underuses(cfg, r), CouldClimb(cfg, r);
    UnderusesIs(cfg, r);
    CouldClimbIs(cfg, r);
    AbrPieceSays(cfg, f, r, under, climb);
    FlaggedByPiece(cfg, f, r, Warning, AbrConservative, under && climb);
    FlaggedByPiece(cfg, f, r, Info, LadderGap, under && !climb);
  }

  /** Rung c is the highest the cap supports, rung n the nearest to the selected one. */
  ghost predicate Placed(ladder: Ladder, limit: real, cur: real, c: nat, n: nat) {
    IsCeiling(ladder, limit, c) && IsNearest(ladder, cur, n)
  }

  ghost predicate FallsBy(ladder: Ladder, limit: real, cur: real, rungs: int) {
    exists c: nat, n: nat :: Placed(ladder, limit, cur, c, n) && c - n >= rungs
  }

  lemma PlacedOnce(ladder: Ladder, limit: real, cur: real, rungs: int)
    requires ladder != [] && Ascending(ladder)
    ensures Ceiling(ladder, limit) - Nearest(ladder, cur) >= rungs <==> FallsBy(ladder, limit, cur, rungs)
  {
    var c, n := Ceiling(ladder, limit), Nearest(ladder, cur);
    CeilingIsHighest(ladder, limit);
    assert Placed(ladder, limit, cur, c, n);
    forall c': nat, n': nat | Placed(ladder, limit, cur, c', n') ensures c' == c && n' == n {
      RungsAreUnique(ladder, limit, c, c');
      RungsAreUnique(ladder, cur, n, n');
    }
  }

  /** Under a cap, the nearest rung is enough rungs below the highest one the cap supports. */
  ghost predicate FellTooFar(cfg: Thresholds, r: Row) {
    && r.rateLimitMbps > 0.0 && r.videoMbps > 0.0 && |r.ladder| >= 2
    && FallsBy(r.ladder, r.rateLimitMbps * 1.001, r.videoMbps, cfg.downshiftOvershootRungs)
  }

  lemma OvershootIs(cfg: Thresholds, r: Row)
    requires Ascending(r.ladder)
    ensures FellTooFar(cfg, r) <==> Overshoots(cfg, r)
  {
    if r.ladder != [] {
      PlacedOnce(r.ladder, r.rateLimitMbps * 1.001, r.videoMbps, cfg.downshiftOvershootRungs);
    }
  }

  lemma OvershootMeans(cfg: Thresholds, f: Flags, r: Row)
    requires Ascending(r.ladder)
    ensures IsFlagged(Conditions(cfg, f, r), Warning, DownshiftOvershoot, FellTooFar(cfg, r))
  {
    ghost var far := FellTooFar(cfg, r);
    OvershootIs(cfg, r);
    OvershootPieceSays(cfg, f, r, far);
    FlaggedByPiece(cfg, f, r, Warning, DownshiftOvershoot, far);
  }

  lemma OvershootPieceSays(cfg: Thresholds, f: Flags, r: Row, far: bool)
    requires far == Overshoots(cfg, r)
    ensures IsFlagged(Piece(cfg, f, r, KindOf(DownshiftOvershoot)), Warning, DownshiftOvershoot, far)
  {
  }
}
