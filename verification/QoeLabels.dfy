/** The per-play label state and the labeller that updates it in place, row by row. */
module QoeLabels {
  import opened Labels
  import opened TimeWindows
  import opened QoeConditions
  import opened EdgeTrigger
  import opened QoeStep

  class PlayLabelState {
    var stallStartTime: Time
    var bufferingStartTime: Time
    var firstFrameTime: Time
    var lastTimejumpTime: Time
    var openTime: Time
    var everOpened: bool
    var noFirstFrameEmitted: bool
    const stallBurstTimes: TimeTrail
    const downshiftTimes: TimeTrail
    var minVariantSince: Time
    const peakSamples: SampleTrail
    var qoeActive: set<Label>
    var qoeLastOn: map<Label, Time>
    var worstSeen: Severity
    var terminalEmitted: bool

    ghost function Footprint(): set<object>
      reads stallBurstTimes, downshiftTimes, peakSamples
    {
      {this, stallBurstTimes, stallBurstTimes.data, downshiftTimes, downshiftTimes.data, peakSamples, peakSamples.data}
    }

    ghost predicate Valid()
      reads stallBurstTimes, downshiftTimes, peakSamples
    {
      && stallBurstTimes.Valid() && downshiftTimes.Valid() && peakSamples.Valid()
      && stallBurstTimes != downshiftTimes && stallBurstTimes.data != downshiftTimes.data
    }

    /** The trails keep their arrays or move to new ones. */
    twostate predicate Grown()
      reads stallBurstTimes, downshiftTimes, peakSamples
    {
      && (stallBurstTimes.data == old(stallBurstTimes.data) || fresh(stallBurstTimes.data))
      && (downshiftTimes.data == old(downshiftTimes.data) || fresh(downshiftTimes.data))
      && (peakSamples.data == old(peakSamples.data) || fresh(peakSamples.data))
    }

    function GetMarks(): Marks
      reads this`stallStartTime, this`bufferingStartTime, this`firstFrameTime, this`lastTimejumpTime, this`openTime,
            this`everOpened, this`noFirstFrameEmitted
    {
      Marks(stallStartTime, bufferingStartTime, firstFrameTime, lastTimejumpTime, openTime, everOpened, noFirstFrameEmitted)
    }

    ghost function GetWindows(): Windows
      reads this`minVariantSince, stallBurstTimes, stallBurstTimes.data, downshiftTimes, downshiftTimes.data,
            peakSamples, peakSamples.data
      requires Valid()
    {
      Windows(stallBurstTimes.Times(), downshiftTimes.Times(), minVariantSince, peakSamples.Samples())
    }

    ghost function State(): PlayState
      reads this, stallBurstTimes, stallBurstTimes.data, downshiftTimes, downshiftTimes.data, peakSamples, peakSamples.data
      requires Valid()
    {
      PlayState(GetMarks(), GetWindows(), Edge(qoeActive, qoeLastOn), Grading(worstSeen, terminalEmitted))
    }

    constructor ()
      ensures Valid() && fresh(Footprint()) && State() == Fresh()
    {
      stallStartTime, bufferingStartTime, firstFrameTime, lastTimejumpTime, openTime := 0, 0, 0, 0, 0;
      everOpened, noFirstFrameEmitted, terminalEmitted := false, false, false;
      minVariantSince, qoeActive, qoeLastOn, worstSeen := 0, {}, map[], Unranked;
      stallBurstTimes := new TimeTrail();
      downshiftTimes := new TimeTrail();
      peakSamples := new SampleTrail();
    }

    method RecordSignals(r: Row)
      modifies this`firstFrameTime, this`lastTimejumpTime
      ensures GetMarks() == Signalled(old(GetMarks()), r)
    {
      if firstFrameTime == 0 {
        if r.event == VideoFirstFrame || r.event == VideoStartTime {
          firstFrameTime := r.now;
        }
        if firstFrameTime == 0 && (r.videoFirstFrameTimeS > 0.0 || r.videoStartTimeS > 0.0) {
          firstFrameTime := r.now;
        }
      }
      if r.event == Jumped {
        lastTimejumpTime := r.now;
      }
    }

    /** The switch on the row's event. */
    method LifecycleEvent(r: Row) returns (out: seq<Label>)
      requires Valid()
      modifies this`stallStartTime, this`bufferingStartTime,
               stallBurstTimes, stallBurstTimes.data, downshiftTimes, downshiftTimes.data
      ensures Valid() && Grown()
      ensures out == LifecycleLabels(old(GetMarks()), r)
      ensures GetMarks() == Paired(old(GetMarks()), r)
      ensures GetWindows() == Noted(old(GetWindows()), r)
    {
      out := [];
      match r.event {
        case RateShiftUp => out := [Label(Info, Lifecycle(ShiftUp))];
        case RateShiftDown =>
          out := [Label(Info, Lifecycle(ShiftDown))];
          downshiftTimes.Append(r.now);
        case VideoFirstFrame => out := [Label(Info, Lifecycle(FirstFrame))];
        case PlayOpened => out := [Label(Info, Lifecycle(PlayStart))];
        case Jumped => out := [Label(Warning, Lifecycle(Timejump))];
        case SegmentStall => out := [Label(Warning, Lifecycle(StallSegment))];
        case LiveResynced => out := [Label(Warning, Lifecycle(LiveResync))];
        case Frozen => out := [Label(Critical, Lifecycle(StallFrozen))];
        case Marked => out := [Label(Critical, Lifecycle(UserMarked))];
        case Stuck => out := [Label(Error, Lifecycle(PlayerStuck))];
        case Wedged => out := [Label(Error, Lifecycle(WedgeDetected))];
        case Restart(reason) => out := [Label(RestartSeverity(reason), Restarted(reason))];
        case Failed => out := [Label(Error, Lifecycle(PlayerError))];
        case StallStart =>
          stallStartTime := r.now;
          stallBurstTimes.Append(r.now);
        case StallEnd =>
          var d := r.stallDurationMs * 1_000_000;
          if d <= 0 && stallStartTime != 0 {
            d := r.now - stallStartTime;
          }
          stallStartTime := 0;
          if d > 0 {
            out := [StallLabel(d, StallContext(GetMarks(), r.now))];
          }
        case BufferingStart => bufferingStartTime := r.now;
        case BufferingEnd =>
          var d := r.bufferingDurationMs * 1_000_000;
          if d <= 0 && bufferingStartTime != 0 {
            d := r.now - bufferingStartTime;
          }
          bufferingStartTime := 0;
          if d > 0 {
            out := [BufferingLabel(d, BufferingContext(GetMarks(), r.now))];
          }
        case _ =>
      }
    }

    method MinVariantStuckLabel(cfg: Thresholds, r: Row) returns (on: bool)
      modifies this`minVariantSince
      ensures on == Dwelt(cfg, old(minVariantSince), r)
      ensures minVariantSince == DwellFrom(old(minVariantSince), r)
    {
      if r.videoMbps <= 0.0 || |r.ladder| < 2 {
        minVariantSince := 0;
        return false;
      }
      if r.videoMbps > r.ladder[0] * 1.05 {
        minVariantSince := 0;
        return false;
      }
      if minVariantSince == 0 {
        minVariantSince := r.now;
        return false;
      }
      return r.now - minVariantSince >= Seconds(cfg.minVariantStuckS);
    }

    method ThroughputDivergenceLabel(cfg: Thresholds, r: Row) returns (on: bool)
      requires peakSamples.Valid()
      modifies peakSamples, peakSamples.data
      ensures peakSamples.Valid() && (peakSamples.data == old(peakSamples.data) || fresh(peakSamples.data))
      ensures peakSamples.Samples()
              == SamplesSince(old(peakSamples.Samples()), r.now - Seconds(cfg.throughputPeakWindowS)) + [Sample(r.now, r.transferMbps)]
      ensures on == Diverges(cfg, peakSamples.Samples(), r)
    {
      var peak := peakSamples.RecentPeak(r.now, r.transferMbps, Seconds(cfg.throughputPeakWindowS));
      if r.networkMbps <= 0.0 {
        return false;
      }
      return peak > 0.0 && r.networkMbps < UnderReadLimit(cfg, peak);
    }

    /** Slides the windows to the row. */
    method SlideWindows(cfg: Thresholds, r: Row) returns (burst: bool, storm: bool, stuck: bool, diverges: bool)
      requires Valid()
      modifies this`minVariantSince, stallBurstTimes, stallBurstTimes.data, downshiftTimes, downshiftTimes.data,
               peakSamples, peakSamples.data
      ensures Valid() && Grown()
      ensures GetWindows() == Trimmed(cfg, old(GetWindows()), r)
      ensures burst <==> |GetWindows().stalls| > cfg.stallBurstThreshold
      ensures storm <==> |GetWindows().downshifts| > cfg.downshiftStormThreshold
      ensures stuck <==> Dwelt(cfg, old(minVariantSince), r)
      ensures diverges <==> Settled(cfg, r) && Diverges(cfg, GetWindows().samples, r)
    {
      stallBurstTimes.TrimBefore(r.now - Seconds(cfg.stallBurstWindowS));
      burst := stallBurstTimes.len > cfg.stallBurstThreshold;
      downshiftTimes.TrimBefore(r.now - Seconds(cfg.downshiftStormWindowS));
      storm := downshiftTimes.len > cfg.downshiftStormThreshold;
      stuck := MinVariantStuckLabel(cfg, r);
      diverges := false;
      if Settled(cfg, r) {
        diverges := ThroughputDivergenceLabel(cfg, r);
      }
    }

    /** Opens the play on its first non-terminal row, and looks for one that never renders a frame. */
    method OpenPlay(r: Row) returns (frameless: bool)
      modifies this`everOpened, this`openTime, this`noFirstFrameEmitted
      ensures frameless == Frameless(Opened(old(GetMarks()), r), r)
      ensures GetMarks() == MarksAfter(old(GetMarks()), r)
    {
      if !r.Terminal() {
        everOpened := true;
        if openTime == 0 {
          openTime := r.now;
        }
      }
      frameless := !r.Terminal() && firstFrameTime == 0 && !noFirstFrameEmitted && openTime != 0
                   && r.now - openTime >= NO_FIRST_FRAME_AFTER;
      if frameless {
        noFirstFrameEmitted := true;
      }
    }

    /** The outcome and the two grades of the play's first terminal row. */
    method ClosePlay(r: Row, current: seq<Label>) returns (closing: seq<Label>)
      modifies this`worstSeen, this`terminalEmitted
      ensures closing == Closing(old(worstSeen), current, r)
      ensures worstSeen == WorseSeverity(old(worstSeen), Worst(Outcome(r))) && terminalEmitted
    {
      var outcome: seq<Label> := [];
      if r.status == AbandonedStart {
        outcome := [Label(Warning, Ebvs)];
      } else if r.status == Failure && r.videoFirstFrameTimeMs == 0 {
        outcome := [Label(Error, Vsf)];
      } else if r.status == Failure && r.videoFirstFrameTimeMs > 0 {
        outcome := [Label(Error, Msf)];
      }
      var currentSev := WorstSeverity(current);
      var outcomeSev := WorstSeverity(outcome);
      closing := outcome + [TierFromSeverity(AtExit, WorseSeverity(currentSev, outcomeSev))];
      worstSeen := WorseSeverity(worstSeen, outcomeSev);
      closing := closing + [TierFromSeverity(WholePlay, worstSeen)];
      terminalEmitted := true;
    }

    /** Edge-triggering with a clear-cooldown. */
    method EdgeTrigger(current: seq<Label>, now: Time, cooldown: nat) returns (out: seq<Label>)
      modifies this`qoeActive, this`qoeLastOn
      ensures out == Rising(Edge(old(qoeActive), old(qoeLastOn)), current, now, cooldown)
      ensures Edge(qoeActive, qoeLastOn) == EdgeAfter(Edge(old(qoeActive), old(qoeLastOn)), current, now)
    {
      ghost var was := Edge(qoeActive, qoeLastOn);
      var next: set<Label> := {};
      out := [];
      for i := 0 to |current|
        invariant qoeActive == was.active
        invariant Edge(next, qoeLastOn) == EdgeAfter(was, current[..i], now)
        invariant out == Rising(was, current[..i], now, cooldown)
      {
        var l := current[i];
        EdgeAfterMeans(was, current[..i], now, l);
        EdgeOneMore(was, current, i, now);
        RisingOneMore(was, current, i, now, cooldown);
        if l in next {
          continue;
        }
        UnseenKeepsItsTime(was, current[..i], l, now);
        next := next + {l};
        if l !in qoeActive {
          if l !in qoeLastOn || now - qoeLastOn[l] >= cooldown {
            out := out + [l];
          }
        }
        qoeLastOn := qoeLastOn[l := now];
      }
      assert current[..|current|] == current;
      qoeActive := next;
    }

    /** Moves marks and windows to the row and finds the conditions that depend on earlier rows. */
    method Advance(cfg: Thresholds, r: Row) returns (flags: Flags)
      requires Valid()
      modifies this`everOpened, this`openTime, this`noFirstFrameEmitted, this`minVariantSince,
               stallBurstTimes, stallBurstTimes.data, downshiftTimes, downshiftTimes.data, peakSamples, peakSamples.data
      ensures Valid() && Grown()
      ensures flags == FlagsOf(cfg, Opened(old(GetMarks()), r), old(GetWindows()), r)
      ensures GetMarks() == MarksAfter(old(GetMarks()), r)
      ensures GetWindows() == Trimmed(cfg, old(GetWindows()), r)
    {
      var frameless := OpenPlay(r);
      var burst, storm, stuck, diverges := SlideWindows(cfg, r);
      flags := Flags(frameless, burst, storm, stuck, diverges);
    }

    /** Emits the rising edges among the current labels and, on the closing row, the grades. */
    method Emit(cfg: Thresholds, r: Row, current: seq<Label>, ghost was: PlayState) returns (out: seq<Label>)
      requires was.edge == Edge(qoeActive, qoeLastOn) && was.grading == Grading(worstSeen, terminalEmitted)
      modifies this`qoeActive, this`qoeLastOn, this`worstSeen, this`terminalEmitted
      ensures Edge(qoeActive, qoeLastOn) == EdgeAfter(was.edge, current, r.now)
      ensures Grading(worstSeen, terminalEmitted) == GradingAfter(was, current, r)
      ensures out == EmittedOn(cfg, was, r, current) + ClosingOn(was, r, current)
    {
      var firstTerminal := r.Terminal() && !terminalEmitted;
      out := EdgeTrigger(current, r.now, Seconds(cfg.refireCooldownS));
      var currentSev := WorstSeverity(current);
      worstSeen := WorseSeverity(worstSeen, currentSev);
      if firstTerminal {
        var closing := ClosePlay(r, current);
        out := out + closing;
      }
    }

    /** The quality labels of one row. */
    method ComputeQoEEventLabels(cfg: Thresholds, r: Row, ghost lifecycle: seq<Label>) returns (out: seq<Label>)
      requires Valid()
      modifies this, stallBurstTimes, stallBurstTimes.data, downshiftTimes, downshiftTimes.data, peakSamples, peakSamples.data
      ensures Valid() && Grown()
      ensures State() == Judge(cfg, old(State()), r, lifecycle).state
      ensures out == Judge(cfg, old(State()), r, lifecycle).Quality()
    {
      ghost var was := State();
      if r.Terminal() && !everOpened {
        return [];
      }
      out := JudgeRow(cfg, r, was);
    }

    method JudgeRow(cfg: Thresholds, r: Row, ghost was: PlayState) returns (out: seq<Label>)
      requires Valid() && was == State()
      modifies this`everOpened, this`openTime, this`noFirstFrameEmitted, this`minVariantSince,
               this`qoeActive, this`qoeLastOn, this`worstSeen, this`terminalEmitted,
               stallBurstTimes, stallBurstTimes.data, downshiftTimes, downshiftTimes.data, peakSamples, peakSamples.data
      ensures Valid() && Grown()
      ensures GetMarks() == MarksAfter(was.marks, r) && GetWindows() == Trimmed(cfg, was.windows, r)
      ensures Edge(qoeActive, qoeLastOn) == EdgeAfter(was.edge, Current(cfg, was, r), r.now)
      ensures Grading(worstSeen, terminalEmitted) == GradingAfter(was, Current(cfg, was, r), r)
      ensures out == EmittedOn(cfg, was, r, Current(cfg, was, r)) + ClosingOn(was, r, Current(cfg, was, r))
    {
      var flags := Advance(cfg, r);
      var current := CollectConditions(cfg, flags, r);
      out := Emit(cfg, r, current, was);
    }

    /** The lifecycle part of a row. */
    method RecordLifecycle(r: Row) returns (out: seq<Label>)
      requires Valid()
      modifies this`firstFrameTime, this`lastTimejumpTime, this`stallStartTime, this`bufferingStartTime, this`worstSeen,
               stallBurstTimes, stallBurstTimes.data, downshiftTimes, downshiftTimes.data
      ensures Valid() && Grown()
      ensures State() == Live(old(State()), r)
      ensures out == LifecycleLabels(Signalled(old(GetMarks()), r), r)
    {
      out := SignalAndPair(r);
      RaiseWorst(out);
    }

    method SignalAndPair(r: Row) returns (out: seq<Label>)
      requires Valid()
      modifies this`firstFrameTime, this`lastTimejumpTime, this`stallStartTime, this`bufferingStartTime,
               stallBurstTimes, stallBurstTimes.data, downshiftTimes, downshiftTimes.data
      ensures Valid() && Grown()
      ensures out == LifecycleLabels(Signalled(old(GetMarks()), r), r)
      ensures GetMarks() == Paired(Signalled(old(GetMarks()), r), r)
      ensures GetWindows() == Noted(old(GetWindows()), r)
    {
      RecordSignals(r);
      out := LifecycleEvent(r);
    }

    method RaiseWorst(labels: seq<Label>)
      modifies this`worstSeen
      ensures worstSeen == WorseSeverity(old(worstSeen), Worst(labels))
    {
      var sev := WorstSeverity(labels);
      worstSeen := WorseSeverity(worstSeen, sev);
    }

    /** All labels of one row. */
    method ComputeEventLabels(cfg: Thresholds, r: Row) returns (out: seq<Label>)
      requires Valid()
      modifies this, stallBurstTimes, stallBurstTimes.data, downshiftTimes, downshiftTimes.data, peakSamples, peakSamples.data
      ensures Valid() && Grown()
      ensures State() == Step(cfg, old(State()), r).state && out == Step(cfg, old(State()), r).All()
    {
      var lifecycle := RecordLifecycle(r);
      out := ComputeQoEEventLabels(cfg, r, lifecycle);
      out := lifecycle + out;
    }
  }
}
