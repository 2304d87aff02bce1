/** When a play is said to have no first frame. */
module QoeFirstFrame {
  import opened Labels
  import opened TimeWindows
  import opened QoeConditions
  import opened EdgeTrigger
  import opened QoeStep
  import opened QoeLaws
  import opened QoeHistory
  import opened QoeLifecycle

  const FRAMELESS := Label(Warning, NoFirstFrame)

  /** Row k does not end the play, nothing has been shown yet, and the play opened thirty seconds ago or more. */
  ghost predicate LateAt(rows: seq<Row>, k: int) {
    && 0 <= k < |rows| && !rows[k].Terminal()
    && (forall i :: 0 <= i <= k && Shown(rows[i]) ==> rows[i].now == 0)
    && exists j :: 0 <= j <= k && IsFirst(rows, j, Alive()) && rows[k].now - rows[j].now >= 30_000_000_000
  }

  /** What the step says of a play without a frame, by the marks after it. */
  ghost predicate FrameLaw(s: PlayState, r: Row, v: Verdict) {
    var n := v.state.marks;
    && (FRAMELESS in v.current <==>
          !r.Terminal() && n.firstFrame == 0 && !s.marks.noFirstFrameEmitted && n.openTime != 0 && r.now - n.openTime >= 30_000_000_000)
    && n.noFirstFrameEmitted == (s.marks.noFirstFrameEmitted || FRAMELESS in v.current)
  }

  lemma FrameHolds(cfg: Thresholds, s: PlayState, r: Row)
    ensures FrameLaw(s, r, Step(cfg, s, r))
  {
    var p := Paired(Signalled(s.marks, r), r);
    StepMarks(cfg, s, r, p);
    FramelessHolds(cfg, s, r);
    if !Stray(Live(s, r), r) {
      FramelessOfOpen(cfg, s, r);
    }
  }

  ghost predicate KeepsFrame(step: Stepper) {
    forall s, r {:trigger FrameLaw(s, r, step(s, r))} :: FrameLaw(s, r, step(s, r))
  }

  lemma LabellerKeepsFrame(cfg: Thresholds, step: Stepper)
    requires IsLabeller(cfg, step)
    ensures KeepsFrame(step)
  {
    forall s, r ensures FrameLaw(s, r, step(s, r)) {
      assert JudgesBy(cfg, step, s, r);
      FrameHolds(cfg, s, r);
    }
  }

  lemma LateMeans(rows: seq<Row>, k: nat, n: Marks)
    requires k < |rows| && FirstOf(rows, k + 1, Shown, n.firstFrame) && FirstOf(rows, k + 1, Alive(), n.openTime)
    ensures LateAt(rows, k) <==>
            !rows[k].Terminal() && n.firstFrame == 0 && n.openTime != 0 && rows[k].now - n.openTime >= 30_000_000_000
  {
    if n.openTime != 0 {
      var i :| 0 <= i < k + 1 && IsFirst(rows, i, Alive()) && rows[i].now == n.openTime;
      forall j | IsFirst(rows, j, Alive()) ensures i == j {
      }
    }
  }

  lemma LateOn(step: Stepper, rows: seq<Row>, k: nat)
    requires KeepsMarks(step) && KeepsFrame(step) && k < |rows|
    ensures FRAMELESS in On(step, rows, k).current <==> LateAt(rows, k) && !After(step, rows, k).marks.noFirstFrameEmitted
    ensures After(step, rows, k + 1).marks.noFirstFrameEmitted
            == (After(step, rows, k).marks.noFirstFrameEmitted || FRAMELESS in On(step, rows, k).current)
  {
    FirstFrameFollows(step, rows, k + 1);
    OpenTimeFollows(step, rows, k + 1);
    LateMeans(rows, k, After(step, rows, k + 1).marks);
    assert FrameLaw(After(step, rows, k), rows[k], On(step, rows, k));
  }

  /** The guard is set once some row was late. */
  lemma {:induction false} GuardMeans(step: Stepper, rows: seq<Row>, k: nat)
    requires KeepsMarks(step) && KeepsFrame(step) && k <= |rows|
    ensures After(step, rows, k).marks.noFirstFrameEmitted <==> exists i :: i < k && LateAt(rows, i)
  {
    if k > 0 {
      GuardMeans(step, rows, k - 1);
      LateOn(step, rows, k - 1);
    }
  }

  lemma FirstLate(step: Stepper, rows: seq<Row>, k: nat)
    requires KeepsMarks(step) && KeepsFrame(step) && k < |rows|
    ensures FRAMELESS in On(step, rows, k).current <==> LateAt(rows, k) && forall i :: i < k ==> !LateAt(rows, i)
  {
    GuardMeans(step, rows, k);
    LateOn(step, rows, k);
  }

  /** A row is labelled exactly when it is the first on which the play has run for thirty seconds without a frame. */
  lemma NoFirstFrameMeans(cfg: Thresholds, step: Stepper, rows: seq<Row>, k: nat)
    requires IsLabeller(cfg, step) && k < |rows|
    ensures FRAMELESS in On(step, rows, k).All() <==> LateAt(rows, k) && forall i :: i < k ==> !LateAt(rows, i)
  {
    LabellerKeepsMarks(cfg, step);
    LabellerKeepsFrame(cfg, step);
    EdgeTriggerRefinesHistory(cfg, step, rows, k, FRAMELESS);
    FirstLate(step, rows, k);
    if FRAMELESS in On(step, rows, k).current {
      forall i | 0 <= i < k ensures FRAMELESS !in Moments(step, rows)[i].current {
        FirstLate(step, rows, i);
      }
    }
  }
}
