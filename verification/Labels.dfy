/** The label vocabulary of the write-time labeller, and the severity order its grades are built on. */
module Labels {

  /** `Unranked` is the empty severity: nothing ranked yet. */
  datatype Severity = Unranked | Info | Warning | Critical | Error

  datatype Event =
    | VstBreach | VstConcerning | NoFirstFrame
    | CirrBreach | CirrConcerning | CirtBreach | CirtConcerning | StallBurst
    | AbrConservative | LadderGap | DownshiftStorm | MinVariantStuck | FpsDip | ThroughputDivergence
    | LiveOffsetBreach | LiveOffsetConcerning | LiveOffsetTight | HoldbackDeviation
    | RateCapBreach | DownshiftOvershoot | CmcdMtpDrift
    | Ebvs | Vsf | Msf
    | Graded(scope: Scope, grade: Grade)
    | Lifecycle(signal: Signal)
    | Restarted(reason: RestartReason)
    | Interrupted(kind: Interruption, length: Bucket, context: Context)

  datatype Scope = AtExit | WholePlay
  datatype Grade = Premium | Acceptable | Unacceptable
  datatype Signal =
    | ShiftUp | ShiftDown | FirstFrame | PlayStart | Timejump | StallSegment | LiveResync
    | StallFrozen | UserMarked | PlayerStuck | WedgeDetected | PlayerError
  datatype RestartReason =
    | UserRetry | Reload | AutoRecoveryFailure | AutoRecoveryStuck | AutoRecoveryLiveResync | AutoRecovery
  datatype Interruption = Stall | Buffering
  datatype Bucket = Short | Long | Severe
  datatype Context = Startup | Scrub | Midplay

  /** A label `<sev>=<event>`. */
  datatype Label = Label(sev: Severity, event: Event)

  function SevRank(s: Severity): nat {
    match s
    case Error => 4
    case Critical => 3
    case Warning => 2
    case Info => 1
    case Unranked => 0
  }

  function WorseSeverity(a: Severity, b: Severity): Severity {
    if SevRank(b) > SevRank(a) then b else a
  }

  /** The worst severity among the labels. */
  function Worst(labels: seq<Label>): Severity {
    if labels == [] then Unranked else WorseSeverity(labels[0].sev, Worst(labels[1..]))
  }

  method WorstSeverity(labels: seq<Label>) returns (worst: Severity)
    ensures worst == Worst(labels)
  {
    var hasError, hasCritical, hasWarning, hasInfo := false, false, false, false;
    for i := 0 to |labels|
      invariant hasError <==> Has(labels[..i], Error)
      invariant hasCritical <==> Has(labels[..i], Critical)
      invariant hasWarning <==> Has(labels[..i], Warning)
      invariant hasInfo <==> Has(labels[..i], Info)
    {
      match labels[i].sev {
        case Error => hasError := true;
        case Critical => hasCritical := true;
        case Warning => hasWarning := true;
        case Info => hasInfo := true;
        case Unranked =>
      }
    }
    assert labels[..|labels|] == labels;
    worst := if hasError then Error else if hasCritical then Critical else if hasWarning then Warning
      else if hasInfo then Info else Unranked;
    WorstIsTheMaximum(labels, worst);
  }

  ghost predicate Has(labels: seq<Label>, s: Severity) {
    exists k :: 0 <= k < |labels| && labels[k].sev == s
  }

  /** Worst is the only severity that some label has, if any, and that no label exceeds. */
  lemma {:induction false} WorstIsTheMaximum(labels: seq<Label>, s: Severity)
    ensures s == Worst(labels) <==>
            && (s == Unranked || Has(labels, s))
            && (forall k :: 0 <= k < |labels| ==> SevRank(labels[k].sev) <= SevRank(s))
  {
    WorstBounds(labels);
  }

  lemma {:induction false} WorstBounds(labels: seq<Label>)
    ensures Worst(labels) == Unranked || Has(labels, Worst(labels))
    ensures forall k :: 0 <= k < |labels| ==> SevRank(labels[k].sev) <= SevRank(Worst(labels))
  {
    if labels != [] {
      WorstBounds(labels[1..]);
      if Has(labels[1..], Worst(labels[1..])) {
        var k :| 0 <= k < |labels[1..]| && labels[1..][k].sev == Worst(labels[1..]);
        assert labels[k + 1].sev == Worst(labels[1..]);
      }
      forall k | 0 <= k < |labels| ensures SevRank(labels[k].sev) <= SevRank(Worst(labels)) {
        assert k > 0 ==> labels[k] == labels[1..][k - 1];
      }
    }
  }

  lemma {:induction false} WorstAppend(a: seq<Label>, b: seq<Label>)
    ensures Worst(a + b) == WorseSeverity(Worst(a), Worst(b))
  {
    if a == [] {
      assert a + b == b;
    } else {
      assert (a + b)[1..] == a[1..] + b;
      WorstAppend(a[1..], b);
    }
  }

  function TierFromSeverity(scope: Scope, s: Severity): Label {
    match s
    case Error => Label(Critical, Graded(scope, Unacceptable))
    case Critical => Label(Critical, Graded(scope, Unacceptable))
    case Warning => Label(Warning, Graded(scope, Acceptable))
    case _ => Label(Info, Graded(scope, Premium))
  }

  function GradeRank(g: Grade): nat {
    match g case Premium => 0 case Acceptable => 1 case Unacceptable => 2
  }
}
