/** What one row of a play does to the labeller's per-play state, and the labels it gets. */
module QoeStep {
  import opened Labels
  import opened TimeWindows
  import opened QoeConditions
  import opened EdgeTrigger

  datatype Marks = Marks(
    stallStart: Time, bufferingStart: Time, firstFrame: Time, lastTimejump: Time,
    openTime: Time, everOpened: bool, noFirstFrameEmitted: bool)
  datatype Windows = Windows(stalls: seq<Time>, downshifts: seq<Time>, minVariantSince: Time, samples: seq<Sample>)
  datatype Grading = Grading(worst: Severity, terminalEmitted: bool)
  datatype PlayState = PlayState(marks: Marks, windows: Windows, edge: Edge, grading: Grading)

  function Fresh(): PlayState {
    PlayState(Marks(0, 0, 0, 0, 0, false, false), Windows([], [], 0, []), Edge({}, map[]), Grading(Unranked, false))
  }

  // ---------- the lifecycle part ----------

  function Signalled(m: Marks, r: Row): Marks {
    var shown := r.event == VideoFirstFrame || r.event == VideoStartTime || r.videoFirstFrameTimeS > 0.0 || r.videoStartTimeS > 0.0;
    m.(firstFrame := if m.firstFrame == 0 && shown then r.now else m.firstFrame,
       lastTimejump := if r.event == Jumped then r.now else m.lastTimejump)
  }

  function BucketOf(d: int): Bucket {
    if d < SECOND then Short else if d < 3 * SECOND then Long else Severe
  }

  function InStartup(m: Marks, now: Time): bool {
    m.firstFrame != 0 && now - m.firstFrame <= 10 * SECOND
  }

  function StallContext(m: Marks, now: Time): Context {
    if InStartup(m, now) then Startup else Midplay
  }

  function BufferingContext(m: Marks, now: Time): Context {
    if InStartup(m, now) then Startup
    else if m.lastTimejump != 0 && now - m.lastTimejump <= 3 * SECOND then Scrub
    else Midplay
  }

  function StallLabel(d: int, context: Context): Label {
    var b := BucketOf(d);
    Label(match b { case Short => Info case Long => Warning case Severe => Critical }, Interrupted(Stall, b, context))
  }

  function BufferingLabel(d: int, context: Context): Label {
    var b := BucketOf(d);
    match context
    case Midplay => StallLabel(d, Midplay)
    case Scrub => Label(if b == Severe then Warning else Info, Interrupted(Buffering, b, Scrub))
    case Startup =>
      Label(match b { case Short => Info case Long => Warning case Severe => Critical }, Interrupted(Buffering, b, Startup))
  }

  /** The reported duration, or the time since the open start mark when none is reported. */
  function Duration(reportedMs: u32, start: Time, now: Time): int {
    if reportedMs > 0 then reportedMs * 1_000_000 else if start != 0 then now - start else 0
  }

  function RestartSeverity(reason: RestartReason): Severity {
    match reason case UserRetry => Warning case Reload => Info case _ => Critical
  }

  function LifecycleLabels(m: Marks, r: Row): (labels: seq<Label>)
    ensures |labels| <= 1
  {
    match r.event
    case RateShiftUp => [Label(Info, Lifecycle(ShiftUp))]
    case RateShiftDown => [Label(Info, Lifecycle(ShiftDown))]
    case VideoFirstFrame => [Label(Info, Lifecycle(FirstFrame))]
    case PlayOpened => [Label(Info, Lifecycle(PlayStart))]
    case Jumped => [Label(Warning, Lifecycle(Timejump))]
    case SegmentStall => [Label(Warning, Lifecycle(StallSegment))]
    case LiveResynced => [Label(Warning, Lifecycle(LiveResync))]
    case Frozen => [Label(Critical, Lifecycle(StallFrozen))]
    case Marked => [Label(Critical, Lifecycle(UserMarked))]
    case Stuck => [Label(Error, Lifecycle(PlayerStuck))]
    case Wedged => [Label(Error, Lifecycle(WedgeDetected))]
    case Restart(reason) => [Label(RestartSeverity(reason), Restarted(reason))]
    case Failed => [Label(Error, Lifecycle(PlayerError))]
    case StallEnd =>
      var d := Duration(r.stallDurationMs, m.stallStart, r.now);
      if d > 0 then [StallLabel(d, StallContext(m, r.now))] else []
    case BufferingEnd =>
      var d := Duration(r.bufferingDurationMs, m.bufferingStart, r.now);
      if d > 0 then [BufferingLabel(d, BufferingContext(m, r.now))] else []
    case _ => []
  }

  function Paired(m: Marks, r: Row): Marks {
    match r.event
    case StallStart => m.(stallStart := r.now)
    case StallEnd => m.(stallStart := 0)
    case BufferingStart => m.(bufferingStart := r.now)
    case BufferingEnd => m.(bufferingStart := 0)
    case _ => m
  }

  function Noted(w: Windows, r: Row): Windows {
    match r.event
    case RateShiftDown => w.(downshifts := w.downshifts + [r.now])
    case StallStart => w.(stalls := w.stalls + [r.now])
    case _ => w
  }

  // ---------- the quality part ----------

  const NO_FIRST_FRAME_AFTER: nat := 30 * SECOND

  function Opened(m: Marks, r: Row): Marks {
    if r.Terminal() then m
    else m.(everOpened := true, openTime := if m.openTime == 0 then r.now else m.openTime)
  }

  predicate Frameless(m: Marks, r: Row) {
    && !r.Terminal() && m.firstFrame == 0 && !m.noFirstFrameEmitted && m.openTime != 0
    && r.now - m.openTime >= NO_FIRST_FRAME_AFTER
  }

  predicate Settled(cfg: Thresholds, r: Row) {
    r.playingTimeMs >= cfg.startupGraceMs
  }

  predicate AtFloor(r: Row) {
    r.videoMbps > 0.0 && |r.ladder| >= 2 && r.videoMbps <= r.ladder[0] * 1.05
  }

  function DwellFrom(since: Time, r: Row): Time {
    if !AtFloor(r) then 0 else if since == 0 then r.now else since
  }

  predicate Dwelt(cfg: Thresholds, since: Time, r: Row) {
    AtFloor(r) && since != 0 && r.now - since >= Seconds(cfg.minVariantStuckS)
  }

  function Trimmed(cfg: Thresholds, w: Windows, r: Row): Windows {
    Windows(Since(w.stalls, r.now - Seconds(cfg.stallBurstWindowS)),
            Since(w.downshifts, r.now - Seconds(cfg.downshiftStormWindowS)),
            DwellFrom(w.minVariantSince, r),
            if Settled(cfg, r)
            then SamplesSince(w.samples, r.now - Seconds(cfg.throughputPeakWindowS)) + [Sample(r.now, r.transferMbps)]
            else w.samples)
  }

  function UnderReadLimit(cfg: Thresholds, peak: real): real {
    peak * (1.0 - cfg.throughputDivergenceFactor)
  }

  predicate Diverges(cfg: Thresholds, samples: seq<Sample>, r: Row) {
    r.networkMbps > 0.0 && Peak(samples) > 0.0 && r.networkMbps < UnderReadLimit(cfg, Peak(samples))
  }

  /** The conditions that depend on earlier rows. */
  datatype Flags = Flags(frameless: bool, burst: bool, storm: bool, stuck: bool, diverges: bool)

  /** m and w are the marks and windows before the row. */
  function FlagsOf(cfg: Thresholds, m: Marks, w: Windows, r: Row): Flags {
    var now := Trimmed(cfg, w, r);
    Flags(Frameless(m, r), |now.stalls| > cfg.stallBurstThreshold, |now.downshifts| > cfg.downshiftStormThreshold,
          Dwelt(cfg, w.minVariantSince, r), Settled(cfg, r) && Diverges(cfg, now.samples, r))
  }

  function StartupConditions(cfg: Thresholds, f: Flags, r: Row): seq<Label> {
    VstLabels(cfg, r) + When(f.frameless, Warning, NoFirstFrame)
  }

  function ContinuityConditions(cfg: Thresholds, f: Flags, r: Row): seq<Label> {
    CirrLabels(cfg, r) + CirtLabels(cfg, r) + When(f.burst, Critical, StallBurst)
  }

  function AbrConditions(cfg: Thresholds, f: Flags, r: Row): seq<Label> {
    (if Settled(cfg, r) then AbrLabels(cfg, r) else [])
    + When(f.storm, Warning, DownshiftStorm) + When(f.stuck, Warning, MinVariantStuck)
    + FpsLabels(cfg, r) + When(f.diverges, Warning, ThroughputDivergence)
  }

  function DeliveryConditions(cfg: Thresholds, r: Row): seq<Label> {
    LiveOffsetLabels(cfg, r) + RateCapLabels(cfg, r) + When(Overshoots(cfg, r), Warning, DownshiftOvershoot) + CmcdLabels(cfg, r)
  }

  /** Every condition true on the row. */
  function Conditions(cfg: Thresholds, f: Flags, r: Row): seq<Label> {
    StartupConditions(cfg, f, r) + ContinuityConditions(cfg, f, r) + AbrConditions(cfg, f, r) + DeliveryConditions(cfg, r)
  }

  method CollectConditions(cfg: Thresholds, f: Flags, r: Row) returns (current: seq<Label>)
    ensures current == Conditions(cfg, f, r)
  {
    current := StartupConditions(cfg, f, r) + ContinuityConditions(cfg, f, r);
    var abr: seq<Label> := [];
    if Settled(cfg, r) {
      abr := AbrBitrateLabels(cfg, r);
    }
    abr := abr + When(f.storm, Warning, DownshiftStorm) + When(f.stuck, Warning, MinVariantStuck)
           + FpsLabels(cfg, r) + When(f.diverges, Warning, ThroughputDivergence);
    var overshoot := DownshiftOvershootLabel(cfg, r);
    var delivery := LiveOffsetLabels(cfg, r) + RateCapLabels(cfg, r) + overshoot + CmcdLabels(cfg, r);
    current := current + abr + delivery;
  }

  function Outcome(r: Row): seq<Label> {
    if r.status == AbandonedStart then [Label(Warning, Ebvs)]
    else if r.status == Failure then (if r.videoFirstFrameTimeMs == 0 then [Label(Error, Vsf)] else [Label(Error, Msf)])
    else []
  }

  function Closing(worst: Severity, current: seq<Label>, r: Row): seq<Label> {
    Outcome(r)
    + [TierFromSeverity(AtExit, WorseSeverity(Worst(current), Worst(Outcome(r))))]
    + [TierFromSeverity(WholePlay, WorseSeverity(worst, Worst(Outcome(r))))]
  }

  /** The new state, and the row's labels by kind: lifecycle, conditions true, conditions emitted, closing. */
  datatype Verdict = Verdict(
    state: PlayState, evaluated: bool, lifecycle: seq<Label>, current: seq<Label>, emitted: seq<Label>, closing: seq<Label>)
  {
    function Quality(): seq<Label> { emitted + closing }
    function All(): seq<Label> { lifecycle + Quality() }
  }

  /** A terminal row before the play ever opened belongs to the previous play. */
  predicate Stray(s: PlayState, r: Row) {
    r.Terminal() && !s.marks.everOpened
  }

  function Live(s: PlayState, r: Row): PlayState {
    var m := Signalled(s.marks, r);
    PlayState(Paired(m, r), Noted(s.windows, r), s.edge,
              Grading(WorseSeverity(s.grading.worst, Worst(LifecycleLabels(m, r))), s.grading.terminalEmitted))
  }

  /** The conditions true on a row that opens or continues the play. */
  function Current(cfg: Thresholds, s: PlayState, r: Row): seq<Label> {
    Conditions(cfg, FlagsOf(cfg, Opened(s.marks, r), s.windows, r), r)
  }

  function MarksAfter(m: Marks, r: Row): Marks {
    var live := Opened(m, r);
    live.(noFirstFrameEmitted := live.noFirstFrameEmitted || Frameless(live, r))
  }

  predicate Closes(s: PlayState, r: Row) {
    r.Terminal() && !s.grading.terminalEmitted
  }

  function GradingAfter(s: PlayState, current: seq<Label>, r: Row): Grading {
    var worst := WorseSeverity(s.grading.worst, Worst(current));
    if Closes(s, r) then Grading(WorseSeverity(worst, Worst(Outcome(r))), true)
    else Grading(worst, s.grading.terminalEmitted)
  }

  function EmittedOn(cfg: Thresholds, s: PlayState, r: Row, current: seq<Label>): seq<Label> {
    Rising(s.edge, current, r.now, Seconds(cfg.refireCooldownS))
  }

  function ClosingOn(s: PlayState, r: Row, current: seq<Label>): seq<Label> {
    if Closes(s, r) then Closing(WorseSeverity(s.grading.worst, Worst(current)), current, r) else []
  }

  function JudgedOn(cfg: Thresholds, s: PlayState, r: Row, lifecycle: seq<Label>, current: seq<Label>): Verdict {
    Verdict(PlayState(MarksAfter(s.marks, r), Trimmed(cfg, s.windows, r), EdgeAfter(s.edge, current, r.now),
                      GradingAfter(s, current, r)),
            true, lifecycle, current, EmittedOn(cfg, s, r, current), ClosingOn(s, r, current))
  }

  /** The quality part of a row, from the state the lifecycle part leaves. */
  function Judge(cfg: Thresholds, s: PlayState, r: Row, lifecycle: seq<Label>): Verdict {
    if Stray(s, r) then Verdict(s, false, lifecycle, [], [], [])
    else JudgedOn(cfg, s, r, lifecycle, Current(cfg, s, r))
  }

  function Step(cfg: Thresholds, s: PlayState, r: Row): Verdict {
    Judge(cfg, Live(s, r), r, LifecycleLabels(Signalled(s.marks, r), r))
  }
}
