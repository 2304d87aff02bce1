/** What the closing labels say of the play, severity by severity. */
module QoeGrades {
  import opened Labels
  import opened QoeConditions
  import opened QoeStep
  import opened QoeLaws
  import opened QoeHistory
  import opened QoeGrading

  ghost predicate Ranked(labels: seq<Label>, s: Severity) {
    exists l :: l in labels && l.sev == s
  }

  /** The end of the play itself counts: an abandoned start as a warning, a failure as an error. */
  predicate EndsIn(r: Row, s: Severity) {
    (s == Warning && r.status == AbandonedStart) || (s == Error && r.status == Failure)
  }

  /** A condition of row k, or the end of the play there, has severity s. */
  ghost predicate MetAtExit(step: Stepper, rows: seq<Row>, k: nat, s: Severity)
    requires k < |rows|
  {
    Ranked(On(step, rows, k).current, s) || EndsIn(rows[k], s)
  }

  ghost predicate RowRanks(v: Verdict, s: Severity) {
    Ranked(v.lifecycle, s) || Ranked(v.current, s)
  }

  /** Some of the first k rows has a lifecycle label or a condition of severity s. */
  ghost predicate RankedBefore(step: Stepper, rows: seq<Row>, k: nat, s: Severity)
    requires k <= |rows|
  {
    exists i :: 0 <= i < k && RowRanks(On(step, rows, i), s)
  }

  /** A lifecycle label or a condition of some row up to row k, or the end of the play there, has severity s. */
  ghost predicate MetInPlay(step: Stepper, rows: seq<Row>, k: nat, s: Severity)
    requires k < |rows|
  {
    RankedBefore(step, rows, k + 1, s) || EndsIn(rows[k], s)
  }

  /** The grade by what was met: bad for anything critical or worse, fair for a warning and nothing worse. */
  ghost predicate IsGrade(l: Label, scope: Scope, met: Severity -> bool) {
    l == if met(Error) || met(Critical) then Label(Critical, Graded(scope, Unacceptable))
         else if met(Warning) then Label(Warning, Graded(scope, Acceptable))
         else Label(Info, Graded(scope, Premium))
  }

  lemma HasIsRanked(labels: seq<Label>, s: Severity)
    ensures Has(labels, s) <==> Ranked(labels, s)
  {
    if Ranked(labels, s) {
      var l :| l in labels && l.sev == s;
      var k :| 0 <= k < |labels| && labels[k] == l;
    }
  }

  /** The grade of the worst label depends only on which severities occur. */
  lemma TierOfWorst(labels: seq<Label>, scope: Scope, met: Severity -> bool)
    requires forall s :: s != Unranked ==> (met(s) <==> Ranked(labels, s))
    ensures IsGrade(TierFromSeverity(scope, Worst(labels)), scope, met)
  {
    WorstBounds(labels);
    HasIsRanked(labels, Error);
    HasIsRanked(labels, Critical);
    HasIsRanked(labels, Warning);
    HasIsRanked(labels, Worst(labels));
  }

  lemma RankedAppend(a: seq<Label>, b: seq<Label>, s: Severity)
    ensures Ranked(a + b, s) <==> Ranked(a, s) || Ranked(b, s)
  {
    if Ranked(a, s) {
      var l :| l in a && l.sev == s;
      assert l in a + b;
    }
    if Ranked(b, s) {
      var l :| l in b && l.sev == s;
      assert l in a + b;
    }
  }

  lemma OutcomeRanks(r: Row, s: Severity)
    requires s != Unranked
    ensures Ranked(Outcome(r), s) <==> EndsIn(r, s)
  {
    if r.status == AbandonedStart {
      assert Outcome(r)[0].sev == Warning && Outcome(r)[0] in Outcome(r);
    } else if r.status == Failure {
      assert Outcome(r)[0].sev == Error && Outcome(r)[0] in Outcome(r);
    }
  }

  lemma SeenNext(step: Stepper, rows: seq<Row>, k: nat, s: Severity)
    requires k < |rows|
    ensures Ranked(Seen(step, rows, k + 1), s) <==> Ranked(Seen(step, rows, k), s) || RowRanks(On(step, rows, k), s)
  {
    var v := On(step, rows, k);
    RankedAppend(Seen(step, rows, k) + v.lifecycle, v.current, s);
    RankedAppend(Seen(step, rows, k), v.lifecycle, s);
  }

  lemma RankedNext(step: Stepper, rows: seq<Row>, k: nat, s: Severity)
    requires k < |rows|
    ensures RankedBefore(step, rows, k + 1, s) <==> RankedBefore(step, rows, k, s) || RowRanks(On(step, rows, k), s)
  {
  }

  lemma {:induction false} SeenRanks(step: Stepper, rows: seq<Row>, k: nat, s: Severity)
    requires k <= |rows|
    ensures Ranked(Seen(step, rows, k), s) <==> RankedBefore(step, rows, k, s)
  {
    if k > 0 {
      SeenRanks(step, rows, k - 1, s);
      SeenNext(step, rows, k - 1, s);
      RankedNext(step, rows, k - 1, s);
    }
  }

  /** A label is carried exactly when the row closes the play and the label is its grade. */
  lemma GradeIsCarried(step: Stepper, rows: seq<Row>, k: nat, l: Label)
    requires Opens(step) && Grades(step) && Levels(step) && k < |rows| && l.event.Graded?
    ensures l in On(step, rows, k).All() <==>
            ClosesPlay(rows, k) && (l == ExitLabel(On(step, rows, k), rows[k]) || l == TierLabel(step, rows, k))
  {
    ClosingLabels(step, rows, k, l);
    assert l !in Outcome(rows[k]);
    assert l in On(step, rows, k).All() <==> multiset(On(step, rows, k).All())[l] > 0;
  }

  /** A grade of either scope, by what was met. */
  ghost predicate GradedBy(labels: seq<Label>, scope: Scope, met: Severity -> bool) {
    && (Label(Critical, Graded(scope, Unacceptable)) in labels <==> met(Critical) || met(Error))
    && (Label(Warning, Graded(scope, Acceptable)) in labels <==> met(Warning) && !met(Critical) && !met(Error))
    && (Label(Info, Graded(scope, Premium)) in labels <==> !met(Warning) && !met(Critical) && !met(Error))
  }

  lemma ExitGrade(step: Stepper, rows: seq<Row>, k: nat)
    requires k < |rows|
    ensures IsGrade(ExitLabel(On(step, rows, k), rows[k]), AtExit, s => MetAtExit(step, rows, k, s))
  {
    var labels := On(step, rows, k).current + Outcome(rows[k]);
    forall s: Severity | s != Unranked ensures MetAtExit(step, rows, k, s) <==> Ranked(labels, s) {
      RankedAppend(On(step, rows, k).current, Outcome(rows[k]), s);
      OutcomeRanks(rows[k], s);
    }
    TierOfWorst(labels, AtExit, s => MetAtExit(step, rows, k, s));
  }

  lemma PlayGrade(step: Stepper, rows: seq<Row>, k: nat)
    requires k < |rows|
    ensures IsGrade(TierLabel(step, rows, k), WholePlay, s => MetInPlay(step, rows, k, s))
  {
    var seen := Seen(step, rows, k + 1);
    forall s: Severity | s != Unranked ensures MetInPlay(step, rows, k, s) <==> Ranked(seen + Outcome(rows[k]), s) {
      RankedAppend(seen, Outcome(rows[k]), s);
      OutcomeRanks(rows[k], s);
      SeenRanks(step, rows, k + 1, s);
    }
    TierOfWorst(seen + Outcome(rows[k]), WholePlay, s => MetInPlay(step, rows, k, s));
  }

  /** The closing row's two grades.  Whole play: unacceptable exactly when a lifecycle label or condition of any row
      up to it, or the end of the play, is critical or an error; acceptable when none is and one is a warning;
      premium otherwise.  At exit: the same over the conditions of the closing row and the end alone. */
  lemma GradesMean(cfg: Thresholds, step: Stepper, rows: seq<Row>, k: nat)
    requires IsLabeller(cfg, step) && k < |rows| && ClosesPlay(rows, k)
    ensures GradedBy(On(step, rows, k).All(), WholePlay, s => MetInPlay(step, rows, k, s))
    ensures GradedBy(On(step, rows, k).All(), AtExit, s => MetAtExit(step, rows, k, s))
  {
    LabellerIsLawful(cfg, step);
    PlayGrade(step, rows, k);
    ExitGrade(step, rows, k);
    ScopeGrades(step, rows, k, WholePlay, TierLabel(step, rows, k), s => MetInPlay(step, rows, k, s));
    ScopeGrades(step, rows, k, AtExit, ExitLabel(On(step, rows, k), rows[k]), s => MetAtExit(step, rows, k, s));
  }

  lemma ScopeGrades(step: Stepper, rows: seq<Row>, k: nat, scope: Scope, grade: Label, met: Severity -> bool)
    requires Opens(step) && Grades(step) && Levels(step) && k < |rows| && ClosesPlay(rows, k)
    requires grade == if scope == WholePlay then TierLabel(step, rows, k) else ExitLabel(On(step, rows, k), rows[k])
    requires IsGrade(grade, scope, met)
    ensures GradedBy(On(step, rows, k).All(), scope, met)
  {
    GradeIsCarried(step, rows, k, Label(Critical, Graded(scope, Unacceptable)));
    GradeIsCarried(step, rows, k, Label(Warning, Graded(scope, Acceptable)));
    GradeIsCarried(step, rows, k, Label(Info, Graded(scope, Premium)));
    ExitIsNoWorseThanTier(step, rows, k);
  }

  /** No row but the closing one is graded. */
  lemma NoOtherGrades(cfg: Thresholds, step: Stepper, rows: seq<Row>, k: nat, l: Label)
    requires IsLabeller(cfg, step) && k < |rows| && !ClosesPlay(rows, k) && IsClosing(l.event)
    ensures l !in On(step, rows, k).All()
  {
    LabellerIsLawful(cfg, step);
    ClosingLabels(step, rows, k, l);
    assert l in On(step, rows, k).All() <==> multiset(On(step, rows, k).All())[l] > 0;
  }

  /** How the play ended is on its closing row: left before the start, failed before a first frame, or after one. */
  lemma OutcomesMean(cfg: Thresholds, step: Stepper, rows: seq<Row>, k: nat)
    requires IsLabeller(cfg, step) && k < |rows| && ClosesPlay(rows, k)
    ensures Label(Warning, Ebvs) in On(step, rows, k).All() <==> rows[k].status == AbandonedStart
    ensures Label(Error, Vsf) in On(step, rows, k).All() <==> rows[k].status == Failure && rows[k].videoFirstFrameTimeMs == 0
    ensures Label(Error, Msf) in On(step, rows, k).All() <==> rows[k].status == Failure && rows[k].videoFirstFrameTimeMs > 0
  {
    LabellerIsLawful(cfg, step);
    OutcomeIsCarried(step, rows, k, Label(Warning, Ebvs));
    OutcomeIsCarried(step, rows, k, Label(Error, Vsf));
    OutcomeIsCarried(step, rows, k, Label(Error, Msf));
  }

  lemma OutcomeIsCarried(step: Stepper, rows: seq<Row>, k: nat, l: Label)
    requires Opens(step) && Grades(step) && Levels(step) && k < |rows| && ClosesPlay(rows, k)
    requires IsClosing(l.event) && !l.event.Graded?
    ensures l in On(step, rows, k).All() <==> l in Outcome(rows[k])
  {
    ClosingLabels(step, rows, k, l);
    ExitIsNoWorseThanTier(step, rows, k);
    assert l in On(step, rows, k).All() <==> multiset(On(step, rows, k).All())[l] > 0;
    assert l in Outcome(rows[k]) <==> multiset(Outcome(rows[k]))[l] > 0;
  }
}
