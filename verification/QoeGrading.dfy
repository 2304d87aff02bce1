/** Whole-play grading: one outcome and two grades, on the play's first terminal row. */
module QoeGrading {
  import opened Labels
  import opened QoeConditions
  import opened QoeStep
  import opened QoeLaws
  import opened QoeHistory

  /** One of the first k rows was a terminal row of the opened play. */
  ghost predicate Closed(rows: seq<Row>, k: nat)
    requires k <= |rows|
  {
    exists i :: 0 <= i < k && rows[i].Terminal() && Open(rows, i)
  }

  /** Row k is the first terminal row after a row that is not. */
  ghost predicate ClosesPlay(rows: seq<Row>, k: nat)
    requires k < |rows|
  {
    rows[k].Terminal() && Open(rows, k) && !Closed(rows, k)
  }

  lemma ClosesOnce(rows: seq<Row>, j: nat, k: nat)
    requires j < |rows| && k < |rows| && ClosesPlay(rows, j) && ClosesPlay(rows, k)
    ensures j == k
  {
  }

  /** Everything that counts towards the grade: lifecycle labels and true conditions, emitted or not. */
  function Seen(step: Stepper, rows: seq<Row>, k: nat): seq<Label>
    requires k <= |rows|
  {
    if k == 0 then []
    else Seen(step, rows, k - 1) + On(step, rows, k - 1).lifecycle + On(step, rows, k - 1).current
  }

  lemma GradingNext(step: Stepper, rows: seq<Row>, k: nat)
    requires Opens(step) && Grades(step) && k < |rows|
    ensures var s, v := After(step, rows, k).grading, On(step, rows, k);
            var worst := WorseSeverity(WorseSeverity(s.worst, Worst(v.lifecycle)), Worst(v.current));
            if !Open(rows, k + 1) then After(step, rows, k + 1).grading == s && v.closing == []
            else if rows[k].Terminal() && !s.terminalEmitted
            then v.closing == Closing(worst, v.current, rows[k]) && After(step, rows, k + 1).grading.terminalEmitted
            else v.closing == [] && After(step, rows, k + 1).grading == Grading(worst, s.terminalEmitted)
    ensures !Open(rows, k + 1) ==> On(step, rows, k).lifecycle == [] && On(step, rows, k).current == []
  {
    EvaluatedWhenOpen(step, rows, k);
    assert OpenLaw(After(step, rows, k), rows[k], On(step, rows, k));
    assert GradingLaw(After(step, rows, k), rows[k], On(step, rows, k));
  }

  lemma WorstOfThree(a: seq<Label>, b: seq<Label>, c: seq<Label>)
    ensures Worst(a + b + c) == WorseSeverity(WorseSeverity(Worst(a), Worst(b)), Worst(c))
  {
    WorstAppend(a + b, c);
    WorstAppend(a, b);
  }

  lemma ClosedNext(rows: seq<Row>, k: nat)
    requires k < |rows|
    ensures Closed(rows, k + 1) <==> Closed(rows, k) || (rows[k].Terminal() && Open(rows, k))
    ensures Open(rows, k + 1) <==> Open(rows, k) || !rows[k].Terminal()
  {
  }

  lemma {:induction false} GradingFollowsHistory(step: Stepper, rows: seq<Row>, k: nat)
    requires Opens(step) && Grades(step) && k <= |rows|
    ensures After(step, rows, k).grading.terminalEmitted == Closed(rows, k)
    ensures !Closed(rows, k) ==> After(step, rows, k).grading.worst == Worst(Seen(step, rows, k))
  {
    if k > 0 {
      GradingFollowsHistory(step, rows, k - 1);
      GradingNext(step, rows, k - 1);
      WorstOfThree(Seen(step, rows, k - 1), On(step, rows, k - 1).lifecycle, On(step, rows, k - 1).current);
      ClosedNext(rows, k - 1);
      if !Open(rows, k) {
        assert Seen(step, rows, k) == Seen(step, rows, k - 1);
      }
    }
  }

  function ExitLabel(v: Verdict, r: Row): Label {
    TierFromSeverity(AtExit, Worst(v.current + Outcome(r)))
  }

  function TierLabel(step: Stepper, rows: seq<Row>, k: nat): Label
    requires k < |rows|
  {
    TierFromSeverity(WholePlay, Worst(Seen(step, rows, k + 1) + Outcome(rows[k])))
  }

  /** The closing labels of a row: none, or the outcome, the grade at exit and the grade of the whole play. */
  lemma ClosingFollowsHistory(step: Stepper, rows: seq<Row>, k: nat)
    requires Opens(step) && Grades(step) && k < |rows|
    ensures On(step, rows, k).closing
            == if ClosesPlay(rows, k)
               then Outcome(rows[k]) + [ExitLabel(On(step, rows, k), rows[k])] + [TierLabel(step, rows, k)]
               else []
  {
    var v := On(step, rows, k);
    GradingFollowsHistory(step, rows, k);
    GradingNext(step, rows, k);
    if ClosesPlay(rows, k) {
      WorstOfThree(Seen(step, rows, k), v.lifecycle, v.current);
      WorstAppend(v.current, Outcome(rows[k]));
      WorstAppend(Seen(step, rows, k + 1), Outcome(rows[k]));
    }
  }

  /** Outcome and grade labels appear on the first terminal row of the opened play and on no other row; it
      carries the outcome, exactly one exit grade and exactly one tier grade, which grade the worst severity
      active there and the worst seen anywhere in the play. */
  lemma GradedOnce(cfg: Thresholds, step: Stepper, rows: seq<Row>, k: nat, l: Label)
    requires IsLabeller(cfg, step)
    requires k < |rows| && IsClosing(l.event)
    ensures multiset(On(step, rows, k).All())[l]
            == if !ClosesPlay(rows, k) then 0
               else if l == ExitLabel(On(step, rows, k), rows[k]) || l == TierLabel(step, rows, k) then 1
               else multiset(Outcome(rows[k]))[l]
  {
    LabellerIsLawful(cfg, step);
    ClosingLabels(step, rows, k, l);
  }

  lemma ClosingLabels(step: Stepper, rows: seq<Row>, k: nat, l: Label)
    requires Opens(step) && Grades(step) && Levels(step) && k < |rows| && IsClosing(l.event)
    ensures multiset(On(step, rows, k).All())[l]
            == if !ClosesPlay(rows, k) then 0
               else if l == ExitLabel(On(step, rows, k), rows[k]) || l == TierLabel(step, rows, k) then 1
               else multiset(Outcome(rows[k]))[l]
  {
    var v, exit, tier := On(step, rows, k), ExitLabel(On(step, rows, k), rows[k]), TierLabel(step, rows, k);
    assert v.closing == if ClosesPlay(rows, k) then Outcome(rows[k]) + [exit] + [tier] else [] by {
      ClosingFollowsHistory(step, rows, k);
    }
    assert LevelLaw(v);
    CountAll(v, l, ClosesPlay(rows, k), Outcome(rows[k]), exit, tier);
  }

  lemma CountAll(v: Verdict, l: Label, closes: bool, outcome: seq<Label>, exit: Label, tier: Label)
    requires LevelLaw(v) && IsClosing(l.event)
    requires v.closing == if closes then outcome + [exit] + [tier] else []
    requires forall o :: o in outcome ==> !o.event.Graded?
    requires exit.event.Graded? && tier.event.Graded? && exit.event.scope != tier.event.scope
    ensures multiset(v.All())[l]
            == if !closes then 0 else if l == exit || l == tier then 1 else multiset(outcome)[l]
  {
    CountClosing(v, l);
    if closes {
      CountGrades(outcome, exit, tier, l);
    }
  }

  lemma CountClosing(v: Verdict, l: Label)
    requires LevelLaw(v) && IsClosing(l.event)
    ensures multiset(v.All())[l] == multiset(v.closing)[l]
  {
    assert l !in v.lifecycle;
    assert l !in v.emitted;
  }

  lemma CountGrades(outcome: seq<Label>, exit: Label, tier: Label, l: Label)
    requires forall o :: o in outcome ==> !o.event.Graded?
    requires exit.event.Graded? && tier.event.Graded? && exit != tier
    ensures multiset(outcome + [exit] + [tier])[l] == if l == exit || l == tier then 1 else multiset(outcome)[l]
  {
    assert exit !in outcome && tier !in outcome;
    assert multiset(outcome + [exit] + [tier]) == multiset(outcome) + multiset{exit} + multiset{tier};
  }

  /** What the play looked like at the end is never graded worse than the whole of it. */
  lemma ExitIsNoWorseThanTier(step: Stepper, rows: seq<Row>, k: nat)
    requires k < |rows|
    ensures var exit, tier := ExitLabel(On(step, rows, k), rows[k]), TierLabel(step, rows, k);
            exit.event == Graded(AtExit, exit.event.grade) && tier.event == Graded(WholePlay, tier.event.grade)
            && GradeRank(exit.event.grade) <= GradeRank(tier.event.grade)
  {
    var v := On(step, rows, k);
    PartIsNoWorse(Seen(step, rows, k) + v.lifecycle, v.current, Outcome(rows[k]));
    GradesFollowSeverity(Worst(v.current + Outcome(rows[k])), Worst(Seen(step, rows, k + 1) + Outcome(rows[k])));
  }

  lemma PartIsNoWorse(a: seq<Label>, b: seq<Label>, c: seq<Label>)
    ensures SevRank(Worst(b + c)) <= SevRank(Worst(a + b + c))
  {
    WorstAppend(b, c);
    WorstOfThree(a, b, c);
  }

  lemma GradesFollowSeverity(s: Severity, t: Severity)
    requires SevRank(s) <= SevRank(t)
    ensures var exit, tier := TierFromSeverity(AtExit, s), TierFromSeverity(WholePlay, t);
            exit.event == Graded(AtExit, exit.event.grade) && tier.event == Graded(WholePlay, tier.event.grade)
            && GradeRank(exit.event.grade) <= GradeRank(tier.event.grade)
  {
  }

  /** The grade of the whole play is that of its worst label: nothing seen on any row ranks above it. */
  lemma TierGradesTheWorst(step: Stepper, rows: seq<Row>, k: nat, i: nat, l: Label)
    requires i <= k < |rows|
    requires l in On(step, rows, i).lifecycle || l in On(step, rows, i).current || l in Outcome(rows[k])
    ensures SevRank(l.sev) <= SevRank(Worst(Seen(step, rows, k + 1) + Outcome(rows[k])))
  {
    var seen, outcome := Seen(step, rows, k + 1), Outcome(rows[k]);
    assert l in seen || l in outcome by {
      if l !in outcome {
        SeenOn(step, rows, k + 1, i, l);
      }
    }
    InEither(seen, outcome, l);
    NoneRanksAbove(seen + outcome, l);
  }

  lemma InEither(a: seq<Label>, b: seq<Label>, l: Label)
    requires l in a || l in b
    ensures l in a + b
  {
  }

  lemma NoneRanksAbove(labels: seq<Label>, l: Label)
    requires l in labels
    ensures SevRank(l.sev) <= SevRank(Worst(labels))
  {
    var j :| 0 <= j < |labels| && labels[j] == l;
    WorstBounds(labels);
  }

  lemma {:induction false} SeenOn(step: Stepper, rows: seq<Row>, k: nat, i: nat, l: Label)
    requires i < k <= |rows| && (l in On(step, rows, i).lifecycle || l in On(step, rows, i).current)
    ensures l in Seen(step, rows, k)
  {
    if i < k - 1 {
      SeenOn(step, rows, k - 1, i, l);
    }
  }
}
