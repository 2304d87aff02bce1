/** Laws of the labeller's step: what each row does to each part of the state, and where labels come from. */
module QoeLaws {
  import opened Labels
  import opened QoeConditions
  import opened EdgeTrigger
  import opened QoeStep

  /** A row is evaluated once the play is open; until then nothing is kept or said. */
  ghost predicate OpenLaw(s: PlayState, r: Row, v: Verdict) {
    && v.evaluated == v.state.marks.everOpened == (s.marks.everOpened || !r.Terminal())
    && (!v.evaluated ==>
          && v.state.edge == s.edge && v.state.windows == s.windows && v.state.grading == s.grading
          && v.lifecycle == v.current == v.emitted == v.closing == [])
  }

  ghost predicate EdgeLaw(cfg: Thresholds, s: PlayState, r: Row, v: Verdict) {
    (!s.marks.everOpened ==> s.edge == Fresh().edge) ==>
      && v.state.edge == EdgeAfter(s.edge, v.current, r.now)
      && v.emitted == Rising(s.edge, v.current, r.now, Seconds(cfg.refireCooldownS))
  }

  ghost predicate LevelLaw(v: Verdict) {
    && (forall l :: l in v.current ==> IsLevel(l.event))
    && (forall l :: l in v.emitted ==> l in v.current)
    && (forall l :: l in v.lifecycle ==> !IsLevel(l.event) && !IsClosing(l.event))
    && (forall l :: l in v.closing ==> IsClosing(l.event))
  }

  ghost predicate FramelessLaw(s: PlayState, v: Verdict) {
    && v.state.marks.noFirstFrameEmitted == (s.marks.noFirstFrameEmitted || Label(Warning, NoFirstFrame) in v.current)
    && (Label(Warning, NoFirstFrame) in v.current ==> !s.marks.noFirstFrameEmitted)
  }

  ghost predicate WindowsLaw(cfg: Thresholds, s: PlayState, r: Row, v: Verdict) {
    v.evaluated ==>
      && v.state.windows == Trimmed(cfg, Noted(s.windows, r), r)
      && (Label(Critical, StallBurst) in v.current <==> |v.state.windows.stalls| > cfg.stallBurstThreshold)
      && (Label(Warning, DownshiftStorm) in v.current <==> |v.state.windows.downshifts| > cfg.downshiftStormThreshold)
      && (Label(Warning, MinVariantStuck) in v.current <==> Dwelt(cfg, s.windows.minVariantSince, r))
      && (Label(Warning, ThroughputDivergence) in v.current <==> Settled(cfg, r) && Diverges(cfg, v.state.windows.samples, r))
  }

  ghost predicate GradingLaw(s: PlayState, r: Row, v: Verdict) {
    v.evaluated ==>
      var worst := WorseSeverity(WorseSeverity(s.grading.worst, Worst(v.lifecycle)), Worst(v.current));
      if r.Terminal() && !s.grading.terminalEmitted
      then v.closing == Closing(worst, v.current, r) && v.state.grading.terminalEmitted
      else v.closing == [] && v.state.grading == Grading(worst, s.grading.terminalEmitted)
  }

  ghost predicate StepLaw(cfg: Thresholds, s: PlayState, r: Row, v: Verdict) {
    && OpenLaw(s, r, v) && EdgeLaw(cfg, s, r, v) && LevelLaw(v) && FramelessLaw(s, v)
    && WindowsLaw(cfg, s, r, v) && GradingLaw(s, r, v)
  }

  predicate IsLevel(e: Event) {
    OfRow(e) || e.NoFirstFrame? || e.StallBurst? || e.DownshiftStorm? || e.MinVariantStuck? || e.ThroughputDivergence?
  }

  predicate IsClosing(e: Event) {
    e.Graded? || e.Ebvs? || e.Vsf? || e.Msf?
  }

  /** Nothing but conditions of the row and the given flagged ones. */
  ghost predicate Only(labels: seq<Label>, flagged: set<Label>) {
    (forall l :: l in labels ==> OfRow(l.event) || l in flagged) && (forall l :: l in flagged ==> l in labels)
  }

  function If(on: bool, sev: Severity, event: Event): set<Label> {
    if on then {Label(sev, event)} else {}
  }

  lemma StartupOnly(cfg: Thresholds, f: Flags, r: Row)
    ensures Only(StartupConditions(cfg, f, r), If(f.frameless, Warning, NoFirstFrame))
  {
  }

  lemma ContinuityOnly(cfg: Thresholds, f: Flags, r: Row)
    ensures Only(ContinuityConditions(cfg, f, r), If(f.burst, Critical, StallBurst))
  {
  }

  lemma AbrOnly(cfg: Thresholds, f: Flags, r: Row)
    ensures Only(AbrConditions(cfg, f, r),
                 If(f.storm, Warning, DownshiftStorm) + If(f.stuck, Warning, MinVariantStuck)
                 + If(f.diverges, Warning, ThroughputDivergence))
  {
  }

  lemma DeliveryOnly(cfg: Thresholds, r: Row)
    ensures Only(DeliveryConditions(cfg, r), {})
  {
  }

  /** The flagged labels are true on a row exactly when their flags are. */
  lemma ConditionsAreLevels(cfg: Thresholds, f: Flags, r: Row)
    ensures forall l :: l in Conditions(cfg, f, r) ==> IsLevel(l.event)
    ensures Label(Warning, NoFirstFrame) in Conditions(cfg, f, r) <==> f.frameless
    ensures Label(Critical, StallBurst) in Conditions(cfg, f, r) <==> f.burst
    ensures Label(Warning, DownshiftStorm) in Conditions(cfg, f, r) <==> f.storm
    ensures Label(Warning, MinVariantStuck) in Conditions(cfg, f, r) <==> f.stuck
    ensures Label(Warning, ThroughputDivergence) in Conditions(cfg, f, r) <==> f.diverges
  {
    StartupOnly(cfg, f, r);
    ContinuityOnly(cfg, f, r);
    AbrOnly(cfg, f, r);
    DeliveryOnly(cfg, r);
    Joined(StartupConditions(cfg, f, r), ContinuityConditions(cfg, f, r), AbrConditions(cfg, f, r), DeliveryConditions(cfg, r),
           f, Conditions(cfg, f, r));
  }

  lemma Joined(a: seq<Label>, b: seq<Label>, c: seq<Label>, d: seq<Label>, f: Flags, all: seq<Label>)
    requires all == a + b + c + d
    requires Only(a, If(f.frameless, Warning, NoFirstFrame))
    requires Only(b, If(f.burst, Critical, StallBurst))
    requires Only(c, If(f.storm, Warning, DownshiftStorm) + If(f.stuck, Warning, MinVariantStuck)
                     + If(f.diverges, Warning, ThroughputDivergence))
    requires Only(d, {})
    ensures forall l :: l in all ==> IsLevel(l.event)
    ensures Label(Warning, NoFirstFrame) in all <==> f.frameless
    ensures Label(Critical, StallBurst) in all <==> f.burst
    ensures Label(Warning, DownshiftStorm) in all <==> f.storm
    ensures Label(Warning, MinVariantStuck) in all <==> f.stuck
    ensures Label(Warning, ThroughputDivergence) in all <==> f.diverges
  {
  }

  lemma ClosingKinds(s: PlayState, r: Row, current: seq<Label>)
    ensures forall l :: l in ClosingOn(s, r, current) ==> IsClosing(l.event)
  {
  }

  lemma LifecycleKinds(m: Marks, r: Row)
    ensures forall l :: l in LifecycleLabels(m, r) ==> !IsLevel(l.event) && !IsClosing(l.event)
  {
  }

  lemma OpenHolds(cfg: Thresholds, s: PlayState, r: Row)
    ensures OpenLaw(s, r, Step(cfg, s, r))
  {
  }

  lemma EdgeHolds(cfg: Thresholds, s: PlayState, r: Row)
    ensures EdgeLaw(cfg, s, r, Step(cfg, s, r))
  {
    assert EdgeAfter(Fresh().edge, [], r.now) == Fresh().edge;
  }

  lemma LevelHolds(cfg: Thresholds, s: PlayState, r: Row)
    ensures LevelLaw(Step(cfg, s, r))
  {
    var live := Live(s, r);
    LifecycleKinds(Signalled(s.marks, r), r);
    if !Stray(live, r) {
      var current := Current(cfg, live, r);
      ConditionsAreLevels(cfg, FlagsOf(cfg, Opened(live.marks, r), live.windows, r), r);
      forall l ensures l in EmittedOn(cfg, live, r, current) ==> l in current {
        RisingLabels(live.edge, current, r.now, Seconds(cfg.refireCooldownS), l);
      }
      ClosingKinds(live, r, current);
    }
  }

  /** A step of an open play, by its flags. */
  lemma StepOfOpen(cfg: Thresholds, s: PlayState, r: Row, f: Flags)
    requires !Stray(Live(s, r), r)
    requires f == FlagsOf(cfg, Opened(Live(s, r).marks, r), Noted(s.windows, r), r)
    ensures Step(cfg, s, r).current == Conditions(cfg, f, r)
    ensures Step(cfg, s, r).state.windows == Trimmed(cfg, Noted(s.windows, r), r)
    ensures Step(cfg, s, r).state.marks == MarksAfter(Live(s, r).marks, r)
  {
  }

  lemma LiveKeepsGuard(s: PlayState, r: Row)
    ensures Opened(Live(s, r).marks, r).noFirstFrameEmitted == s.marks.noFirstFrameEmitted
    ensures Live(s, r).marks.noFirstFrameEmitted == s.marks.noFirstFrameEmitted
  {
  }

  lemma FramelessHolds(cfg: Thresholds, s: PlayState, r: Row)
    ensures FramelessLaw(s, Step(cfg, s, r))
  {
    LiveKeepsGuard(s, r);
    if !Stray(Live(s, r), r) {
      FramelessOfOpen(cfg, s, r);
    }
  }

  lemma FramelessOfOpen(cfg: Thresholds, s: PlayState, r: Row)
    requires !Stray(Live(s, r), r)
    ensures var m, v := Opened(Live(s, r).marks, r), Step(cfg, s, r);
            && v.state.marks.noFirstFrameEmitted == (m.noFirstFrameEmitted || Frameless(m, r))
            && (Label(Warning, NoFirstFrame) in v.current <==> Frameless(m, r))
  {
    var f := FlagsOf(cfg, Opened(Live(s, r).marks, r), Noted(s.windows, r), r);
    StepOfOpen(cfg, s, r, f);
    ConditionsAreLevels(cfg, f, r);
  }

  lemma WindowsHold(cfg: Thresholds, s: PlayState, r: Row)
    ensures WindowsLaw(cfg, s, r, Step(cfg, s, r))
  {
    if !Stray(Live(s, r), r) {
      var f := FlagsOf(cfg, Opened(Live(s, r).marks, r), Noted(s.windows, r), r);
      StepOfOpen(cfg, s, r, f);
      ConditionsAreLevels(cfg, f, r);
      assert f.stuck == Dwelt(cfg, s.windows.minVariantSince, r);
    }
  }

  lemma GradingHolds(cfg: Thresholds, s: PlayState, r: Row)
    ensures GradingLaw(s, r, Step(cfg, s, r))
  {
  }

  lemma StepIsLawful(cfg: Thresholds, s: PlayState, r: Row)
    ensures StepLaw(cfg, s, r, Step(cfg, s, r))
  {
    OpenHolds(cfg, s, r);
    EdgeHolds(cfg, s, r);
    LevelHolds(cfg, s, r);
    FramelessHolds(cfg, s, r);
    WindowsHold(cfg, s, r);
    GradingHolds(cfg, s, r);
  }
}
