/** What the labeller's labels mean over a whole play: each is a predicate of the rows seen so far. */
module QoeHistory {
  import opened Labels
  import opened TimeWindows
  import opened QoeConditions
  import opened EdgeTrigger
  import opened QoeStep
  import opened QoeLaws

  // ---------- runs ----------

  type Stepper = (PlayState, Row) -> Verdict

  predicate JudgesBy(cfg: Thresholds, step: Stepper, s: PlayState, r: Row) {
    step(s, r) == Step(cfg, s, r)
  }

  /** step is the labeller's step under cfg. */
  ghost predicate IsLabeller(cfg: Thresholds, step: Stepper) {
    forall s, r {:trigger JudgesBy(cfg, step, s, r)} :: JudgesBy(cfg, step, s, r)
  }

  lemma LabellerExists(cfg: Thresholds)
    ensures exists step :: IsLabeller(cfg, step)
  {
    var step: Stepper := (s, r) => Step(cfg, s, r);
    assert forall s, r {:trigger JudgesBy(cfg, step, s, r)} :: JudgesBy(cfg, step, s, r);
    assert IsLabeller(cfg, step);
  }

  /** The state after the first k rows of a play, in order of arrival. */
  function After(step: Stepper, rows: seq<Row>, k: nat): PlayState
    requires k <= |rows|
  {
    if k == 0 then Fresh() else step(After(step, rows, k - 1), rows[k - 1]).state
  }

  /** What row k gets. */
  function On(step: Stepper, rows: seq<Row>, k: nat): Verdict
    requires k < |rows|
  {
    step(After(step, rows, k), rows[k])
  }

  ghost predicate Opens(step: Stepper) {
    forall s, r {:trigger OpenLaw(s, r, step(s, r))} :: OpenLaw(s, r, step(s, r))
  }
  ghost predicate Edges(cfg: Thresholds, step: Stepper) {
    forall s, r {:trigger EdgeLaw(cfg, s, r, step(s, r))} :: EdgeLaw(cfg, s, r, step(s, r))
  }
  ghost predicate Levels(step: Stepper) {
    forall s, r {:trigger LevelLaw(step(s, r))} :: LevelLaw(step(s, r))
  }
  ghost predicate FramelessOnce(step: Stepper) {
    forall s, r {:trigger FramelessLaw(s, step(s, r))} :: FramelessLaw(s, step(s, r))
  }
  ghost predicate Slides(cfg: Thresholds, step: Stepper) {
    forall s, r {:trigger WindowsLaw(cfg, s, r, step(s, r))} :: WindowsLaw(cfg, s, r, step(s, r))
  }
  ghost predicate Grades(step: Stepper) {
    forall s, r {:trigger GradingLaw(s, r, step(s, r))} :: GradingLaw(s, r, step(s, r))
  }

  lemma LabellerIsLawful(cfg: Thresholds, step: Stepper)
    requires IsLabeller(cfg, step)
    ensures Opens(step) && Edges(cfg, step) && Levels(step) && FramelessOnce(step) && Slides(cfg, step) && Grades(step)
  {
    forall s, r ensures StepLaw(cfg, s, r, step(s, r)) {
      assert JudgesBy(cfg, step, s, r);
      StepIsLawful(cfg, s, r);
    }
  }

  /** Some of the first k rows opened the play. */
  predicate Open(rows: seq<Row>, k: nat)
    requires k <= |rows|
  {
    exists i :: 0 <= i < k && !rows[i].Terminal()
  }

  /** A row is evaluated exactly when it or an earlier row opened the play; until then nothing is kept. */
  lemma {:induction false} EvaluatedWhenOpen(step: Stepper, rows: seq<Row>, k: nat)
    requires Opens(step) && k <= |rows|
    ensures After(step, rows, k).marks.everOpened == Open(rows, k)
    ensures k < |rows| ==> On(step, rows, k).evaluated == Open(rows, k + 1)
    ensures !Open(rows, k) ==>
              var s := After(step, rows, k);
              s.edge == Fresh().edge && s.windows == Fresh().windows && s.grading == Fresh().grading
  {
    if k > 0 {
      EvaluatedWhenOpen(step, rows, k - 1);
      assert OpenLaw(After(step, rows, k - 1), rows[k - 1], On(step, rows, k - 1));
    }
    if k < |rows| {
      assert OpenLaw(After(step, rows, k), rows[k], On(step, rows, k));
    }
  }

  /** A terminal row before the play opened belongs to the play before, and gets no label at all. */
  lemma StrayTerminalIsSilent(cfg: Thresholds, step: Stepper, rows: seq<Row>, k: nat)
    requires IsLabeller(cfg, step)
    requires k < |rows| && !Open(rows, k + 1)
    ensures On(step, rows, k).All() == []
  {
    LabellerIsLawful(cfg, step);
    EvaluatedWhenOpen(step, rows, k);
    assert OpenLaw(After(step, rows, k), rows[k], On(step, rows, k));
  }

  // ---------- edge trigger ----------

  /** The conditions true on each row; none on a stray terminal row. */
  function Moments(step: Stepper, rows: seq<Row>): (h: seq<Moment>)
    ensures |h| == |rows|
  {
    seq(|rows|, i requires 0 <= i < |rows| => Moment(rows[i].now, On(step, rows, i).current))
  }

  lemma EdgeNext(cfg: Thresholds, step: Stepper, rows: seq<Row>, k: nat)
    requires Opens(step) && Edges(cfg, step) && k < |rows|
    ensures var s, v := After(step, rows, k), On(step, rows, k);
            && After(step, rows, k + 1).edge == EdgeAfter(s.edge, v.current, rows[k].now)
            && v.emitted == Rising(s.edge, v.current, rows[k].now, Seconds(cfg.refireCooldownS))
  {
    EvaluatedWhenOpen(step, rows, k);
    assert EdgeLaw(cfg, After(step, rows, k), rows[k], On(step, rows, k));
  }

  lemma {:induction false} EdgeFollowsMoments(cfg: Thresholds, step: Stepper, rows: seq<Row>, k: nat)
    requires Opens(step) && Edges(cfg, step) && k <= |rows|
    ensures After(step, rows, k).edge == EdgeOver(Moments(step, rows), k)
  {
    if k > 0 {
      var h := Moments(step, rows);
      EdgeFollowsMoments(cfg, step, rows, k - 1);
      EdgeNext(cfg, step, rows, k - 1);
      assert h[k - 1] == Moment(rows[k - 1].now, On(step, rows, k - 1).current);
      assert EdgeOver(h, k) == EdgeAfter(EdgeOver(h, k - 1), h[k - 1].current, h[k - 1].now);
    }
  }

  lemma EmissionFollowsMoments(cfg: Thresholds, step: Stepper, rows: seq<Row>, k: nat)
    requires Opens(step) && Edges(cfg, step) && k < |rows|
    ensures On(step, rows, k).emitted == Emitted(Moments(step, rows), k, Seconds(cfg.refireCooldownS))
  {
    EdgeFollowsMoments(cfg, step, rows, k);
    EdgeNext(cfg, step, rows, k);
  }

  lemma AllCounts(v: Verdict, l: Label)
    requires LevelLaw(v) && IsLevel(l.event)
    ensures multiset(v.All())[l] == multiset(v.emitted)[l] && (l in v.All() <==> l in v.emitted)
  {
    assert l !in v.lifecycle && l !in v.closing;
  }

  /** A level label appears on a row exactly when it is true there, was not true on the row before, and was
      last true at least the cooldown earlier, if it ever was; and it appears once. */
  lemma EdgeTriggerRefinesHistory(cfg: Thresholds, step: Stepper, rows: seq<Row>, k: nat, l: Label)
    requires IsLabeller(cfg, step)
    requires k < |rows| && IsLevel(l.event)
    ensures FiresByHistory(Moments(step, rows), k, l, On(step, rows, k).All(), Seconds(cfg.refireCooldownS))
  {
    LabellerIsLawful(cfg, step);
    LevelsFollowHistory(cfg, step, rows, k, l);
  }

  lemma LevelsComeFromMoments(cfg: Thresholds, step: Stepper, rows: seq<Row>, k: nat, l: Label)
    requires Opens(step) && Edges(cfg, step) && Levels(step)
    requires k < |rows| && IsLevel(l.event)
    ensures var emitted := Emitted(Moments(step, rows), k, Seconds(cfg.refireCooldownS));
            && (l in On(step, rows, k).All() <==> l in emitted)
            && multiset(On(step, rows, k).All())[l] == multiset(emitted)[l]
  {
    EmissionFollowsMoments(cfg, step, rows, k);
    assert LevelLaw(On(step, rows, k));
    AllCounts(On(step, rows, k), l);
  }

  lemma LevelsFollowHistory(cfg: Thresholds, step: Stepper, rows: seq<Row>, k: nat, l: Label)
    requires Opens(step) && Edges(cfg, step) && Levels(step)
    requires k < |rows| && IsLevel(l.event)
    ensures FiresByHistory(Moments(step, rows), k, l, On(step, rows, k).All(), Seconds(cfg.refireCooldownS))
  {
    LevelsComeFromMoments(cfg, step, rows, k, l);
    EmittedMeans(Moments(step, rows), k, Seconds(cfg.refireCooldownS), l);
  }

  /** Which rows carry l. */
  function ChipRows(step: Stepper, rows: seq<Row>, l: Label): (carried: seq<bool>)
    ensures |carried| == |rows|
  {
    seq(|rows|, i requires 0 <= i < |rows| => l in On(step, rows, i).All())
  }

  lemma ChipRowsAreFirings(cfg: Thresholds, step: Stepper, rows: seq<Row>, l: Label)
    requires Opens(step) && Edges(cfg, step) && Levels(step) && IsLevel(l.event)
    ensures ChipRows(step, rows, l) == Firings(Moments(step, rows), Seconds(cfg.refireCooldownS), l)
  {
    var carried, fired := ChipRows(step, rows, l), Firings(Moments(step, rows), Seconds(cfg.refireCooldownS), l);
    forall i | 0 <= i < |rows| ensures carried[i] == fired[i] {
      LevelsComeFromMoments(cfg, step, rows, i, l);
    }
  }

  ghost predicate Ordered(rows: seq<Row>) {
    forall i, j :: 0 <= i <= j < |rows| ==> rows[i].now <= rows[j].now
  }

  lemma MomentsAreOrdered(step: Stepper, rows: seq<Row>)
    requires Ordered(rows)
    ensures InTimeOrder(Moments(step, rows))
    ensures rows != [] ==>
              Moments(step, rows)[0].now == rows[0].now && Moments(step, rows)[|rows| - 1].now == rows[|rows| - 1].now
  {
  }

  /** A level label is on at most 1 + (t_last - t_first) / C rows of a play. */
  lemma ChipBound(cfg: Thresholds, step: Stepper, rows: seq<Row>, l: Label, span: int)
    requires IsLabeller(cfg, step)
    requires rows != [] && Ordered(rows) && IsLevel(l.event) && cfg.refireCooldownS > 0
    requires span == rows[|rows| - 1].now - rows[0].now
    ensures Count(ChipRows(step, rows, l), |rows|) <= 1 + span / Seconds(cfg.refireCooldownS)
  {
    LabellerIsLawful(cfg, step);
    ChipRowsAreFirings(cfg, step, rows, l);
    MomentsAreOrdered(step, rows);
    ChipCountIsBounded(Moments(step, rows), Seconds(cfg.refireCooldownS), l, span);
  }

  ghost predicate AtMost(n: nat, flags: seq<bool>) {
    Count(flags, |flags|) <= n
  }

  /** Whatever the times and the cooldown, a play is called frameless at most once. */
  lemma NoFirstFrameOnce(cfg: Thresholds, step: Stepper, rows: seq<Row>)
    requires IsLabeller(cfg, step)
    ensures AtMost(1, ChipRows(step, rows, Label(Warning, NoFirstFrame)))
  {
    LabellerIsLawful(cfg, step);
    FramelessChips(step, rows, |rows|);
  }

  lemma FramelessNext(step: Stepper, rows: seq<Row>, k: nat)
    requires FramelessOnce(step) && Levels(step) && k < |rows|
    ensures var l, s := Label(Warning, NoFirstFrame), After(step, rows, k);
            && (l in On(step, rows, k).All() ==> !s.marks.noFirstFrameEmitted && After(step, rows, k + 1).marks.noFirstFrameEmitted)
            && (s.marks.noFirstFrameEmitted ==> After(step, rows, k + 1).marks.noFirstFrameEmitted)
  {
    var v := On(step, rows, k);
    assert LevelLaw(v) && FramelessLaw(After(step, rows, k), v);
    AllCounts(v, Label(Warning, NoFirstFrame));
  }

  lemma {:induction false} FramelessChips(step: Stepper, rows: seq<Row>, k: nat)
    requires FramelessOnce(step) && Levels(step) && k <= |rows|
    ensures var chips := Count(ChipRows(step, rows, Label(Warning, NoFirstFrame)), k);
            chips <= 1 && (chips == 1 ==> After(step, rows, k).marks.noFirstFrameEmitted)
  {
    if k > 0 {
      FramelessChips(step, rows, k - 1);
      FramelessNext(step, rows, k - 1);
    }
  }

  // ---------- sliding windows ----------

  datatype Counted = Stalls | Downshifts

  function EventOf(c: Counted): LastEvent {
    if c == Stalls then StallStart else RateShiftDown
  }

  function WindowOf(cfg: Thresholds, c: Counted): nat {
    Seconds(if c == Stalls then cfg.stallBurstWindowS else cfg.downshiftStormWindowS)
  }

  function TrailOf(w: Windows, c: Counted): seq<Time> {
    if c == Stalls then w.stalls else w.downshifts
  }

  /** The counted events of the play. */
  function Beats(rows: seq<Row>, c: Counted): (beats: seq<Beat>)
    ensures |beats| == |rows|
  {
    seq(|rows|, i requires 0 <= i < |rows| => Beat(rows[i].now, rows[i].event == EventOf(c), 0.0))
  }

  lemma TrailOfNoted(w: Windows, r: Row, c: Counted)
    ensures TrailOf(Noted(w, r), c) == Extend(TrailOf(w, c), Beat(r.now, r.event == EventOf(c), 0.0))
  {
  }

  lemma TrailOfStep(cfg: Thresholds, w: Windows, r: Row, c: Counted)
    ensures TrailOf(Trimmed(cfg, Noted(w, r), r), c)
            == Rekept(TrailOf(w, c), Beat(r.now, r.event == EventOf(c), 0.0), WindowOf(cfg, c))
  {
    var noted := Noted(w, r);
    TrailOfNoted(w, r, c);
    assert TrailOf(Trimmed(cfg, noted, r), c) == Since(TrailOf(noted, c), r.now - WindowOf(cfg, c));
  }

  lemma TrailNext(cfg: Thresholds, step: Stepper, rows: seq<Row>, c: Counted, k: nat)
    requires Opens(step) && Slides(cfg, step) && k < |rows|
    ensures TrailOf(After(step, rows, k + 1).windows, c)
            == Rekept(TrailOf(After(step, rows, k).windows, c), Beats(rows, c)[k], WindowOf(cfg, c))
  {
    var s, r, v := After(step, rows, k), rows[k], On(step, rows, k);
    EvaluatedWhenOpen(step, rows, k);
    WindowsNext(cfg, step, rows, k);
    TrailOfStep(cfg, s.windows, r, c);
    if !v.evaluated {
      assert TrailOf(s.windows, c) == [] && !Beats(rows, c)[k].on;
    }
  }

  lemma WindowsNext(cfg: Thresholds, step: Stepper, rows: seq<Row>, k: nat)
    requires Opens(step) && Slides(cfg, step) && k < |rows|
    ensures var s, r, v := After(step, rows, k), rows[k], On(step, rows, k);
            && v.state.windows == (if v.evaluated then Trimmed(cfg, Noted(s.windows, r), r) else s.windows)
            && (v.evaluated || r.Terminal())
  {
    var s, v := After(step, rows, k), On(step, rows, k);
    assert OpenLaw(s, rows[k], v) && WindowsLaw(cfg, s, rows[k], v);
  }

  lemma {:induction false} TrailIsKept(cfg: Thresholds, step: Stepper, rows: seq<Row>, c: Counted, k: nat)
    requires Opens(step) && Slides(cfg, step) && k <= |rows|
    ensures TrailOf(After(step, rows, k).windows, c) == Kept(Beats(rows, c), k, WindowOf(cfg, c))
  {
    if k > 0 {
      TrailIsKept(cfg, step, rows, c, k - 1);
      TrailNext(cfg, step, rows, c, k - 1);
    }
  }

  /** The throughput samples the play records: on its settled rows. */
  function Readings(cfg: Thresholds, rows: seq<Row>): (beats: seq<Beat>)
    ensures |beats| == |rows|
  {
    seq(|rows|, i requires 0 <= i < |rows| => Beat(rows[i].now, Open(rows, i + 1) && Settled(cfg, rows[i]), rows[i].transferMbps))
  }

  lemma SamplesOfStep(cfg: Thresholds, w: Windows, r: Row)
    ensures Trimmed(cfg, Noted(w, r), r).samples
            == Resampled(w.samples, Beat(r.now, Settled(cfg, r), r.transferMbps), Seconds(cfg.throughputPeakWindowS))
  {
  }

  /** The samples after a row, from its windows before and after. */
  lemma SamplesFrom(cfg: Thresholds, w: Windows, r: Row, evaluated: bool, next: Windows, beat: Beat, window: nat)
    requires next == if evaluated then Trimmed(cfg, Noted(w, r), r) else w
    requires beat == Beat(r.now, evaluated && Settled(cfg, r), r.transferMbps) && window == Seconds(cfg.throughputPeakWindowS)
    ensures next.samples == Resampled(w.samples, beat, window)
  {
    if evaluated {
      SamplesOfStep(cfg, w, r);
    }
  }

  lemma SamplesNext(cfg: Thresholds, step: Stepper, rows: seq<Row>, k: nat)
    requires Opens(step) && Slides(cfg, step) && k < |rows|
    ensures After(step, rows, k + 1).windows.samples
            == Resampled(After(step, rows, k).windows.samples, Readings(cfg, rows)[k], Seconds(cfg.throughputPeakWindowS))
  {
    var v, window := On(step, rows, k), Seconds(cfg.throughputPeakWindowS);
    assert v.evaluated <==> Open(rows, k + 1) by {
      EvaluatedWhenOpen(step, rows, k);
    }
    WindowsNext(cfg, step, rows, k);
    SamplesFrom(cfg, After(step, rows, k).windows, rows[k], v.evaluated, v.state.windows, Readings(cfg, rows)[k], window);
  }

  lemma {:induction false} SamplesAreKept(cfg: Thresholds, step: Stepper, rows: seq<Row>, k: nat)
    requires Opens(step) && Slides(cfg, step) && k <= |rows|
    ensures After(step, rows, k).windows.samples == Sampled(Readings(cfg, rows), k, Seconds(cfg.throughputPeakWindowS))
  {
    if k > 0 {
      SamplesAreKept(cfg, step, rows, k - 1);
      SamplesNext(cfg, step, rows, k - 1);
    }
  }

  /** The counted events of the first k + 1 rows that are inside the window of row k. */
  function EventsInWindow(cfg: Thresholds, rows: seq<Row>, k: nat, c: Counted): seq<Time>
    requires k < |rows|
  {
    Since(Ticks(Beats(rows, c), k + 1), rows[k].now - WindowOf(cfg, c))
  }

  function SamplesInWindow(cfg: Thresholds, rows: seq<Row>, k: nat): seq<Sample>
    requires k < |rows|
  {
    SamplesSince(Recorded(Readings(cfg, rows), k + 1), rows[k].now - Seconds(cfg.throughputPeakWindowS))
  }

  /** For rows in time order the trimmed trails count exactly the history's events inside the window, and the
      divergence compares with the peak over the history's settled samples inside it. */
  ghost predicate AgreesWithHistory(cfg: Thresholds, rows: seq<Row>, k: nat, current: seq<Label>)
    requires k < |rows|
  {
    && (Label(Critical, StallBurst) in current <==> |EventsInWindow(cfg, rows, k, Stalls)| > cfg.stallBurstThreshold)
    && (Label(Warning, DownshiftStorm) in current <==> |EventsInWindow(cfg, rows, k, Downshifts)| > cfg.downshiftStormThreshold)
    && (Label(Warning, ThroughputDivergence) in current <==>
          Settled(cfg, rows[k]) && Diverges(cfg, SamplesInWindow(cfg, rows, k), rows[k]))
  }

  lemma WindowsAgreeWithHistory(cfg: Thresholds, step: Stepper, rows: seq<Row>, k: nat)
    requires IsLabeller(cfg, step)
    requires Ordered(rows) && k < |rows| && Open(rows, k + 1)
    ensures AgreesWithHistory(cfg, rows, k, On(step, rows, k).current)
  {
    LabellerIsLawful(cfg, step);
    WindowsFollow(cfg, step, rows, k);
  }

  lemma TrailIsWindow(cfg: Thresholds, step: Stepper, rows: seq<Row>, k: nat, c: Counted)
    requires Opens(step) && Slides(cfg, step) && Ordered(rows) && k < |rows|
    ensures TrailOf(On(step, rows, k).state.windows, c) == EventsInWindow(cfg, rows, k, c)
  {
    TrailIsKept(cfg, step, rows, c, k + 1);
    KeptIsEvents(cfg, rows, k, c);
  }

  lemma KeptIsEvents(cfg: Thresholds, rows: seq<Row>, k: nat, c: Counted)
    requires Ordered(rows) && k < |rows|
    ensures Kept(Beats(rows, c), k + 1, WindowOf(cfg, c)) == EventsInWindow(cfg, rows, k, c)
  {
    KeptIsTheWindow(Beats(rows, c), k + 1, WindowOf(cfg, c));
  }

  lemma ReadingsAreOrdered(cfg: Thresholds, rows: seq<Row>)
    requires Ordered(rows)
    ensures InOrder(Readings(cfg, rows))
  {
  }

  lemma RecordedIsWindow(cfg: Thresholds, rows: seq<Row>, k: nat)
    requires Ordered(rows) && k < |rows| && Open(rows, k + 1) && Settled(cfg, rows[k])
    ensures Sampled(Readings(cfg, rows), k + 1, Seconds(cfg.throughputPeakWindowS)) == SamplesInWindow(cfg, rows, k)
  {
    ReadingsAreOrdered(cfg, rows);
    SampledIsTheWindow(Readings(cfg, rows), k + 1, Seconds(cfg.throughputPeakWindowS));
  }

  lemma SamplesAreWindow(cfg: Thresholds, step: Stepper, rows: seq<Row>, k: nat)
    requires Opens(step) && Slides(cfg, step) && Ordered(rows) && k < |rows| && Open(rows, k + 1) && Settled(cfg, rows[k])
    ensures On(step, rows, k).state.windows.samples == SamplesInWindow(cfg, rows, k)
  {
    SamplesAreKept(cfg, step, rows, k + 1);
    RecordedIsWindow(cfg, rows, k);
  }

  lemma WindowsFollow(cfg: Thresholds, step: Stepper, rows: seq<Row>, k: nat)
    requires Opens(step) && Slides(cfg, step) && Ordered(rows) && k < |rows| && Open(rows, k + 1)
    ensures AgreesWithHistory(cfg, rows, k, On(step, rows, k).current)
  {
    TrailIsWindow(cfg, step, rows, k, Stalls);
    TrailIsWindow(cfg, step, rows, k, Downshifts);
    if Settled(cfg, rows[k]) {
      SamplesAreWindow(cfg, step, rows, k);
    }
    EvaluatedWhenOpen(step, rows, k);
    assert WindowsLaw(cfg, After(step, rows, k), rows[k], On(step, rows, k));
  }

  // ---------- dwell at the floor ----------

  /** From row j to row k - 1, every row is evaluated and at the lowest rung. */
  ghost predicate FloorRun(rows: seq<Row>, j: int, k: nat)
    requires k <= |rows|
  {
    0 <= j < k && Open(rows, j + 1) && forall i :: j <= i < k ==> AtFloor(rows[i])
  }

  /** Row j is the first timed row of the run at the floor that reaches row k - 1. */
  ghost predicate StartsDwell(rows: seq<Row>, j: int, k: nat)
    requires k <= |rows|
  {
    FloorRun(rows, j, k) && rows[j].now != 0 && forall i :: 0 <= i < j && FloorRun(rows, i, k) ==> rows[i].now == 0
  }

  ghost predicate IsDwellStart(rows: seq<Row>, k: nat, since: Time)
    requires k <= |rows|
  {
    if since == 0 then forall j :: FloorRun(rows, j, k) ==> rows[j].now == 0
    else exists j :: StartsDwell(rows, j, k) && rows[j].now == since
  }

  lemma DwellStep(rows: seq<Row>, k: nat, since: Time)
    requires k < |rows| && Open(rows, k + 1) && IsDwellStart(rows, k, since)
    ensures IsDwellStart(rows, k + 1, DwellFrom(since, rows[k]))
  {
    forall i | FloorRun(rows, i, k + 1) ensures i == k || FloorRun(rows, i, k) {
    }
    if !AtFloor(rows[k]) {
      var n := k + 1;
      forall i ensures !FloorRun(rows, i, n) {
      }
    } else if since != 0 {
      var j :| StartsDwell(rows, j, k) && rows[j].now == since;
      StartsDwellNext(rows, j, k);
    } else if rows[k].now != 0 {
      assert FloorRun(rows, k, k + 1);
      assert StartsDwell(rows, k, k + 1);
    }
  }

  lemma NoDwell(rows: seq<Row>, k: nat)
    requires k <= |rows| && !Open(rows, k)
    ensures IsDwellStart(rows, k, 0)
  {
  }

  lemma DwellNext(cfg: Thresholds, step: Stepper, rows: seq<Row>, k: nat)
    requires Opens(step) && Slides(cfg, step) && k < |rows| && Open(rows, k + 1)
    ensures After(step, rows, k + 1).windows.minVariantSince == DwellFrom(After(step, rows, k).windows.minVariantSince, rows[k])
  {
    EvaluatedWhenOpen(step, rows, k);
    assert WindowsLaw(cfg, After(step, rows, k), rows[k], On(step, rows, k));
  }

  lemma {:induction false} DwellFollowsHistory(cfg: Thresholds, step: Stepper, rows: seq<Row>, k: nat)
    requires Opens(step) && Slides(cfg, step) && k <= |rows|
    ensures IsDwellStart(rows, k, After(step, rows, k).windows.minVariantSince)
  {
    if !Open(rows, k) {
      EvaluatedWhenOpen(step, rows, k);
      NoDwell(rows, k);
    } else {
      var before, after := After(step, rows, k - 1).windows.minVariantSince, After(step, rows, k).windows.minVariantSince;
      DwellFollowsHistory(cfg, step, rows, k - 1);
      assert after == DwellFrom(before, rows[k - 1]) by {
        DwellNext(cfg, step, rows, k - 1);
      }
      DwellStep(rows, k - 1, before);
    }
  }

  /** The floor label is true on a row exactly when the row is at the floor and the first timed row of its
      run there is at least the configured dwell earlier. */
  lemma StuckMeansDwelt(cfg: Thresholds, step: Stepper, rows: seq<Row>, k: nat)
    requires IsLabeller(cfg, step)
    requires k < |rows| && Open(rows, k + 1)
    ensures Label(Warning, MinVariantStuck) in On(step, rows, k).current <==>
            exists j :: j < k && StartsDwell(rows, j, k + 1) && rows[k].now - rows[j].now >= Seconds(cfg.minVariantStuckS)
  {
    LabellerIsLawful(cfg, step);
    StuckFollows(cfg, step, rows, k);
  }

  lemma StuckFollows(cfg: Thresholds, step: Stepper, rows: seq<Row>, k: nat)
    requires Opens(step) && Slides(cfg, step) && k < |rows| && Open(rows, k + 1)
    ensures Label(Warning, MinVariantStuck) in On(step, rows, k).current <==>
            exists j :: j < k && StartsDwell(rows, j, k + 1) && rows[k].now - rows[j].now >= Seconds(cfg.minVariantStuckS)
  {
    var since := After(step, rows, k).windows.minVariantSince;
    DwellFollowsHistory(cfg, step, rows, k);
    EvaluatedWhenOpen(step, rows, k);
    assert WindowsLaw(cfg, After(step, rows, k), rows[k], On(step, rows, k));
    DweltMeans(cfg, rows, k, since);
  }

  lemma StartsDwellNext(rows: seq<Row>, j: nat, k: nat)
    requires j < k < |rows|
    ensures StartsDwell(rows, j, k + 1) <==> StartsDwell(rows, j, k) && AtFloor(rows[k])
  {
    forall i | 0 <= i <= j ensures FloorRun(rows, i, k + 1) <==> FloorRun(rows, i, k) && AtFloor(rows[k]) {
    }
  }

  lemma DweltMeans(cfg: Thresholds, rows: seq<Row>, k: nat, since: Time)
    requires k < |rows| && IsDwellStart(rows, k, since)
    ensures Dwelt(cfg, since, rows[k]) <==>
            exists j :: j < k && StartsDwell(rows, j, k + 1) && rows[k].now - rows[j].now >= Seconds(cfg.minVariantStuckS)
  {
    forall j | 0 <= j < k ensures StartsDwell(rows, j, k + 1) <==> StartsDwell(rows, j, k) && AtFloor(rows[k]) {
      StartsDwellNext(rows, j, k);
    }
    if since != 0 {
      var j :| StartsDwell(rows, j, k) && rows[j].now == since;
      forall i | StartsDwell(rows, i, k) ensures i == j {
        assert FloorRun(rows, i, k) && FloorRun(rows, j, k);
      }
    }
  }
}
