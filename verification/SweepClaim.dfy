/** The sweep-claim protocol: lock-free mutual exclusion over an append-only claim table.

    A claimant selects a backlog experiment with no recent claim, appends a stamped claim,
    lets 250 ms settle, reads the argMin claim of the 30 s window and promotes the experiment
    if that claim is its own.  Claimants, an external publisher (seeding, reaping, deleting)
    and the clock interleave one step at a time.  Time is in nanoseconds; claim stamps are
    stored in milliseconds and the database compares them with a clock read in whole seconds. */
module SweepClaim {
  import opened Wrappers

  type Owner = nat  // owner strings: only equality and their order matter
  type ExpId = nat

  const MILLI: nat := 1_000_000
  const SECOND: nat := 1_000_000_000
  const SETTLE: nat := 250 * MILLI

  /** The longest select-to-promote time that is safe, to the nanosecond (see DeadlineIsTight):
      30 s, less the settle, less the part of a millisecond a stored stamp loses. */
  const DEADLINE: nat := 30 * SECOND - SETTLE - MILLI + 1

  datatype Claim = Claim(exp: ExpId, owner: Owner, stamp: nat, visible: bool)

  function StampMs(stamp: nat): nat {
    stamp / MILLI
  }

  /** claim_ts > now() - INTERVAL 30 SECOND */
  predicate InWindow(stamp: nat, t: nat) {
    StampMs(stamp) > t / SECOND * 1000 - 30_000
  }

  /** The order of (claim_ts, claim_token); a token is the nanosecond stamp followed by the owner. */
  predicate Before(c: Claim, d: Claim) {
    || StampMs(c.stamp) < StampMs(d.stamp)
    || (StampMs(c.stamp) == StampMs(d.stamp)
        && (c.stamp < d.stamp || (c.stamp == d.stamp && c.owner < d.owner)))
  }

  predicate Candidate(c: Claim, exp: ExpId, t: nat) {
    c.exp == exp && c.visible && InWindow(c.stamp, t)
  }

  /** argMin(owner, (claim_ts, claim_token)) over the visible claims of the window, as an index. */
  function Winner(claims: seq<Claim>, exp: ExpId, t: nat): (w: Option<nat>)
    ensures w.None? ==> forall j :: 0 <= j < |claims| ==> !Candidate(claims[j], exp, t)
    ensures w.Some? ==> w.value < |claims| && Candidate(claims[w.value], exp, t)
    ensures w.Some? ==>
              forall j :: 0 <= j < |claims| && Candidate(claims[j], exp, t) ==> !Before(claims[j], claims[w.value])
  {
    if |claims| == 0 then None
    else
      var k := |claims| - 1;
      var w := Winner(claims[..k], exp, t);
      if Candidate(claims[k], exp, t) && (w.None? || Before(claims[k], claims[w.value])) then Some(k) else w
  }

  datatype Status = Backlog | Running | Resolved | Deleted

  /** One inserted version of an experiment; `at` is the time of the insert itself. */
  datatype Row = Row(exp: ExpId, status: Status, version: nat, at: nat)

  /** The row FINAL keeps for an experiment: highest version, last inserted among equals. */
  function Final(rows: seq<Row>, exp: ExpId): (f: Option<nat>)
    ensures f.None? ==> forall j :: 0 <= j < |rows| ==> rows[j].exp != exp
    ensures f.Some? ==> f.value < |rows| && rows[f.value].exp == exp
    ensures f.Some? ==> forall j :: 0 <= j < |rows| && rows[j].exp == exp ==> !Newer(rows, j, f.value)
  {
    if |rows| == 0 then None
    else
      var k := |rows| - 1;
      var f := Final(rows[..k], exp);
      if rows[k].exp == exp && (f.None? || rows[f.value].version <= rows[k].version) then Some(k) else f
  }

  predicate Newer(rows: seq<Row>, j: nat, k: nat)
    requires j < |rows| && k < |rows|
  {
    rows[j].version > rows[k].version || (rows[j].version == rows[k].version && j > k)
  }

  /** How far one pass of the claim handler's retry loop has got. */
  datatype Phase = Selected | Stamped | Arbitrated | Promoted | Stopped

  /** One pass of the retry loop, with the history of what it saw and when. */
  datatype Attempt = Attempt(
    exp: ExpId, owner: Owner, phase: Phase,
    selectAt: nat, seen: nat, rowsAt: nat,   // FINAL row seen, and number of rows, at selection
    claim: nat,                              // its own claim, from Stamped on
    readAt: nat, winner: Option<nat>,        // what arbitration returned, from Arbitrated on
    promoteAt: nat, promoteRow: nat)         // from Promoted on

  datatype State = State(now: nat, claims: seq<Claim>, attempts: seq<Attempt>, rows: seq<Row>)

  datatype Step =
    | Tick(d: nat)
    | Select(exp: ExpId, owner: Owner)
    | Stamp(a: nat)                 // append a claim, not yet visible
    | Reveal(c: nat)                // the claim becomes visible to queries
    | Arbitrate(a: nat)             // read the winner, no earlier than the settle allows
    | Promote(a: nat)
    | Stop(a: nat)                  // lost, failed or crashed
    | Publish(exp: ExpId, status: Status, version: nat)

  const INIT := State(0, [], [], [])

  /** Backlog, and not claimed within the window as far as queries can see. */
  predicate Eligible(s: State, exp: ExpId) {
    var f := Final(s.rows, exp);
    && f.Some?
    && s.rows[f.value].status == Backlog
    && forall c :: 0 <= c < |s.claims| ==> !Candidate(s.claims[c], exp, s.now)
  }

  predicate At(s: State, a: nat, phase: Phase) {
    a < |s.attempts| && s.attempts[a].phase == phase
  }

  predicate Enabled(s: State, e: Step) {
    match e
    case Tick(_) => true
    case Select(exp, _) => Eligible(s, exp)
    case Stamp(a) => At(s, a, Selected)
    case Reveal(c) => c < |s.claims|
    case Arbitrate(a) =>
      At(s, a, Stamped) && s.attempts[a].claim < |s.claims| && s.now >= s.claims[s.attempts[a].claim].stamp + SETTLE
    case Promote(a) =>
      && At(s, a, Arbitrated)
      && s.attempts[a].winner.Some?
      && s.attempts[a].winner.value < |s.claims|
      && s.claims[s.attempts[a].winner.value].owner == s.attempts[a].owner
      && s.attempts[a].claim < |s.claims|
    case Stop(a) => a < |s.attempts| && s.attempts[a].phase != Promoted
    case Publish(_, _, version) => version <= StampMs(s.now)
  }

  /** A step that is not enabled leaves the state as it is, so every sequence of steps is a run. */
  function Apply(s: State, e: Step): State {
    if !Enabled(s, e) then s
    else match e
      case Tick(d) => s.(now := s.now + d)
      case Select(exp, owner) =>
        var f := Final(s.rows, exp).value;
        s.(attempts := s.attempts + [Attempt(exp, owner, Selected, s.now, f, |s.rows|, 0, 0, None, 0, 0)])
      case Stamp(a) =>
        var x := s.attempts[a];
        s.(claims := s.claims + [Claim(x.exp, x.owner, s.now, false)],
           attempts := s.attempts[a := x.(phase := Stamped, claim := |s.claims|)])
      case Reveal(c) => s.(claims := s.claims[c := s.claims[c].(visible := true)])
      case Arbitrate(a) =>
        var x := s.attempts[a];
        s.(attempts := s.attempts[a := x.(phase := Arbitrated, readAt := s.now, winner := Winner(s.claims, x.exp, s.now))])
      case Promote(a) =>
        var x := s.attempts[a];
        // the promoted row is versioned with the claim's stamp, not with the time of the insert
        s.(rows := s.rows + [Row(x.exp, Running, StampMs(s.claims[x.claim].stamp), s.now)],
           attempts := s.attempts[a := x.(phase := Promoted, promoteAt := s.now, promoteRow := |s.rows|)])
      case Stop(a) => s.(attempts := s.attempts[a := s.attempts[a].(phase := Stopped)])
      case Publish(exp, status, version) => s.(rows := s.rows + [Row(exp, status, version, s.now)])
  }

  function Exec(steps: seq<Step>): State {
    if steps == [] then INIT else Apply(Exec(steps[..|steps| - 1]), steps[|steps| - 1])
  }

  /** The assumptions on the environment: a claim is visible by the time its settle has passed, and
      a promotion comes at most `deadline` after its selection. */
  predicate Timely(s: State, deadline: nat) {
    && (forall c :: 0 <= c < |s.claims| && !s.claims[c].visible ==> s.now < s.claims[c].stamp + SETTLE)
    && (forall a :: 0 <= a < |s.attempts| && s.attempts[a].phase == Promoted ==>
          s.attempts[a].promoteAt <= s.attempts[a].selectAt + deadline)
  }

  predicate TimelyRun(steps: seq<Step>, deadline: nat) {
    && Timely(Exec(steps), deadline)
    && (steps != [] ==> TimelyRun(steps[..|steps| - 1], deadline))
  }

  // ---------- what every step keeps ----------

  predicate HasClaim(x: Attempt) {
    x.phase in {Stamped, Arbitrated, Promoted}
  }

  predicate ClaimsOk(s: State) {
    forall c :: 0 <= c < |s.claims| ==> s.claims[c].stamp <= s.now
  }

  predicate RowsOk(s: State) {
    && (forall j :: 0 <= j < |s.rows| ==> s.rows[j].version <= StampMs(s.rows[j].at) && s.rows[j].at <= s.now)
    && (forall i, j :: 0 <= i < j < |s.rows| ==> s.rows[i].at <= s.rows[j].at)
  }

  /** At selection every claim older than the settle was visible, hence outside the window, and the
      row seen was the newest one there was. */
  predicate SelectionOk(s: State, x: Attempt) {
    && x.selectAt <= s.now
    && x.seen < x.rowsAt <= |s.rows|
    && s.rows[x.seen].exp == x.exp
    && s.rows[x.seen].status == Backlog
    && (forall j :: 0 <= j < x.rowsAt ==> s.rows[j].at <= x.selectAt)
    && (forall j :: x.rowsAt <= j < |s.rows| ==> s.rows[j].at >= x.selectAt)
    && (forall j :: 0 <= j < x.rowsAt && s.rows[j].exp == x.exp ==> !Newer(s.rows, j, x.seen))
    && (forall c :: 0 <= c < |s.claims| && s.claims[c].exp == x.exp && s.claims[c].stamp + SETTLE <= x.selectAt ==>
          !InWindow(s.claims[c].stamp, x.selectAt))
  }

  predicate OwnClaimOk(s: State, x: Attempt) {
    HasClaim(x) ==>
      && x.claim < |s.claims|
      && s.claims[x.claim].exp == x.exp
      && s.claims[x.claim].owner == x.owner
      && s.claims[x.claim].stamp >= x.selectAt
  }

  /** Arbitration compared every claim of the window older than the settle. */
  predicate ArbitrationOk(s: State, x: Attempt) {
    x.phase in {Arbitrated, Promoted} && x.claim < |s.claims| ==>
      && s.claims[x.claim].stamp + SETTLE <= x.readAt <= s.now
      && (x.winner.Some? ==>
            && x.winner.value < |s.claims|
            && s.claims[x.winner.value].exp == x.exp
            && s.claims[x.winner.value].stamp <= x.readAt
            && InWindow(s.claims[x.winner.value].stamp, x.readAt))
      && (forall c | 0 <= c < |s.claims| && s.claims[c].exp == x.exp
                     && s.claims[c].stamp + SETTLE <= x.readAt && InWindow(s.claims[c].stamp, x.readAt) ::
            x.winner.Some? && !Before(s.claims[c], s.claims[x.winner.value]))
  }

  predicate PromotionOk(s: State, x: Attempt) {
    x.phase == Promoted && x.claim < |s.claims| ==>
      && x.winner.Some? && x.winner.value < |s.claims|
      && s.claims[x.winner.value].owner == x.owner
      && x.readAt <= x.promoteAt <= s.now
      && x.promoteRow < |s.rows|
      && s.rows[x.promoteRow].exp == x.exp
      && s.rows[x.promoteRow].status == Running
      && s.rows[x.promoteRow].at == x.promoteAt
      && s.rows[x.promoteRow].version == StampMs(s.claims[x.claim].stamp)
      && x.rowsAt <= x.promoteRow
  }

  predicate AttemptOk(s: State, x: Attempt) {
    SelectionOk(s, x) && OwnClaimOk(s, x) && ArbitrationOk(s, x) && PromotionOk(s, x)
  }

  ghost predicate Inv(s: State) {
    && ClaimsOk(s)
    && RowsOk(s)
    && forall a :: 0 <= a < |s.attempts| ==> AttemptOk(s, s.attempts[a])
  }

  /** What a step may do to the shared tables: time and tables only grow, and a claim may become visible. */
  predicate Grows(s: State, s': State) {
    && s.now <= s'.now
    && |s.claims| <= |s'.claims|
    && (forall c :: 0 <= c < |s.claims| ==>
          s'.claims[c] == s.claims[c] || s'.claims[c] == s.claims[c].(visible := true))
    && (forall c :: |s.claims| <= c < |s'.claims| ==> s'.claims[c].stamp >= s.now)
    && s.rows <= s'.rows
    && (forall j :: |s.rows| <= j < |s'.rows| ==> s'.rows[j].at >= s.now)
  }

  lemma UntouchedAttemptKept(s: State, s': State, x: Attempt)
    requires Inv(s) && AttemptOk(s, x) && Grows(s, s')
    ensures AttemptOk(s', x)
  {
    assert SelectionOk(s', x) by {
      forall c | 0 <= c < |s'.claims| && s'.claims[c].exp == x.exp && s'.claims[c].stamp + SETTLE <= x.selectAt
        ensures !InWindow(s'.claims[c].stamp, x.selectAt)
      {
        assert c < |s.claims|;
        assert s.claims[c].exp == x.exp;
      }
      forall j | 0 <= j < x.rowsAt && s'.rows[j].exp == x.exp
        ensures !Newer(s'.rows, j, x.seen)
      {
        assert !Newer(s.rows, j, x.seen);
      }
    }
    assert ArbitrationOk(s', x) by {
      if x.phase in {Arbitrated, Promoted} {
        forall c | 0 <= c < |s'.claims| && s'.claims[c].exp == x.exp
                   && s'.claims[c].stamp + SETTLE <= x.readAt && InWindow(s'.claims[c].stamp, x.readAt)
          ensures x.winner.Some? && !Before(s'.claims[c], s'.claims[x.winner.value])
        {
          assert c < |s.claims|;
          assert s.claims[c].exp == x.exp;
        }
      }
    }
  }

  lemma TablesOnlyGrow(s: State, e: Step)
    requires ClaimsOk(s) && RowsOk(s)
    ensures Grows(s, Apply(s, e)) && ClaimsOk(Apply(s, e)) && RowsOk(Apply(s, e))
  {
  }

  lemma StepKeepsInv(s: State, e: Step, deadline: nat)
    requires Inv(s) && Timely(s, deadline)
    ensures Inv(Apply(s, e))
  {
    var s' := Apply(s, e);
    TablesOnlyGrow(s, e);
    forall a | 0 <= a < |s'.attempts|
      ensures AttemptOk(s', s'.attempts[a])
    {
      if a < |s.attempts| && s'.attempts[a] == s.attempts[a] {
        UntouchedAttemptKept(s, s', s.attempts[a]);
      } else if a == |s.attempts| {
        SelectedAttemptOk(s, e, deadline);
      } else if e.Arbitrate? {
        ArbitratedAttemptOk(s, a, deadline);
      } else {
        AdvancedAttemptOk(s, e, a);
      }
    }
  }

  lemma AdvancedAttemptOk(s: State, e: Step, a: nat)
    requires Inv(s) && Enabled(s, e) && a < |s.attempts|
    requires e == Stamp(a) || e == Promote(a) || e == Stop(a)
    ensures AttemptOk(Apply(s, e), Apply(s, e).attempts[a])
  {
    TablesOnlyGrow(s, e);
    UntouchedAttemptKept(s, Apply(s, e), s.attempts[a]);
  }

  lemma SelectedAttemptOk(s: State, e: Step, deadline: nat)
    requires Inv(s) && Timely(s, deadline) && e.Select? && Enabled(s, e)
    ensures AttemptOk(Apply(s, e), Apply(s, e).attempts[|s.attempts|])
  {
  }

  lemma ArbitratedAttemptOk(s: State, a: nat, deadline: nat)
    requires Inv(s) && Timely(s, deadline) && Enabled(s, Arbitrate(a))
    ensures AttemptOk(Apply(s, Arbitrate(a)), Apply(s, Arbitrate(a)).attempts[a])
  {
    var x := s.attempts[a];
    assert AttemptOk(s, x);
    var w := Winner(s.claims, x.exp, s.now);
    forall c | 0 <= c < |s.claims| && s.claims[c].exp == x.exp
               && s.claims[c].stamp + SETTLE <= s.now && InWindow(s.claims[c].stamp, s.now)
      ensures w.Some? && !Before(s.claims[c], s.claims[w.value])
    {
      assert Candidate(s.claims[c], x.exp, s.now);
    }
  }

  lemma {:induction false} RunKeepsInv(steps: seq<Step>, deadline: nat)
    requires TimelyRun(steps, deadline)
    ensures Inv(Exec(steps))
  {
    if steps != [] {
      RunKeepsInv(steps[..|steps| - 1], deadline);
      StepKeepsInv(Exec(steps[..|steps| - 1]), steps[|steps| - 1], deadline);
    }
  }

  lemma RunAttemptOk(steps: seq<Step>, a: nat, deadline: nat)
    requires TimelyRun(steps, deadline) && a < |Exec(steps).attempts|
    ensures RowsOk(Exec(steps)) && AttemptOk(Exec(steps), Exec(steps).attempts[a])
  {
    RunKeepsInv(steps, deadline);
  }

  // ---------- mutual exclusion ----------

  /** Two owners that both promote an experiment do so one strictly after the other's whole pass:
      the spans from selection to promotion never overlap, in any interleaving. */
  lemma WinnersDoNotOverlap(steps: seq<Step>, a: nat, b: nat)
    requires TimelyRun(steps, DEADLINE)
    requires At(Exec(steps), a, Promoted) && At(Exec(steps), b, Promoted)
    requires Exec(steps).attempts[a].exp == Exec(steps).attempts[b].exp
    requires Exec(steps).attempts[a].owner != Exec(steps).attempts[b].owner
    ensures var s := Exec(steps);
            || s.attempts[a].promoteAt < s.attempts[b].selectAt
            || s.attempts[b].promoteAt < s.attempts[a].selectAt
  {
    var s := Exec(steps);
    var x, y := s.attempts[a], s.attempts[b];
    RunAttemptOk(steps, a, DEADLINE);
    RunAttemptOk(steps, b, DEADLINE);
    if Before(s.claims[x.winner.value], s.claims[y.winner.value]) {
      EarlierWinnerIsDone(s, x, y);
    } else {
      EarlierWinnerIsDone(s, y, x);
    }
  }

  lemma EarlierWinnerIsDone(s: State, x: Attempt, y: Attempt)
    requires AttemptOk(s, x) && AttemptOk(s, y)
    requires x.phase == Promoted && y.phase == Promoted && x.exp == y.exp
    requires x.promoteAt <= x.selectAt + DEADLINE && y.promoteAt <= y.selectAt + DEADLINE
    requires Before(s.claims[x.winner.value], s.claims[y.winner.value])
    ensures x.promoteAt < y.selectAt
  {
    var m := s.claims[x.winner.value];
    var own := s.claims[y.claim];
    // y's winner is no later than y's own claim, so m was stamped a full settle before y's read
    StampedBeforeRead(m, s.claims[y.winner.value], own, y.readAt);
    // m is smaller than y's winner, so it had left the window, long enough ago for y's selection to see it
    assert !InWindow(m.stamp, y.readAt);
    ExpiredAtRead(m.stamp, y.selectAt, y.readAt);
    assert !InWindow(m.stamp, y.selectAt);
    // x's selection did not see m, or m would have been outside x's window too
    assert x.selectAt < m.stamp + SETTLE by {
      if m.stamp + SETTLE <= x.selectAt {
        WindowSlides(m.stamp, x.selectAt, x.readAt);
      }
    }
    ExpiredAtSelection(m.stamp, x.selectAt, y.selectAt);
  }

  lemma StampedBeforeRead(m: Claim, winner: Claim, own: Claim, readAt: nat)
    requires Before(m, winner) && own.stamp + SETTLE <= readAt && !Before(own, winner)
    ensures m.stamp + SETTLE <= readAt
  {
  }

  lemma ExpiredAtRead(stamp: nat, selectAt: nat, readAt: nat)
    requires !InWindow(stamp, readAt) && readAt <= selectAt + DEADLINE
    ensures stamp + SETTLE <= selectAt
  {
  }

  lemma ExpiredAtSelection(stamp: nat, earlier: nat, later: nat)
    requires !InWindow(stamp, later) && earlier < stamp + SETTLE
    ensures earlier + DEADLINE < later
  {
  }

  /** Claimants that selected the same backlog row: at most one owner promotes the experiment. */
  lemma OneWinnerPerRow(steps: seq<Step>, a: nat, b: nat)
    requires TimelyRun(steps, DEADLINE)
    requires At(Exec(steps), a, Promoted) && At(Exec(steps), b, Promoted)
    requires Exec(steps).attempts[a].seen == Exec(steps).attempts[b].seen
    ensures Exec(steps).attempts[a].owner == Exec(steps).attempts[b].owner
  {
    var s := Exec(steps);
    var x, y := s.attempts[a], s.attempts[b];
    RunAttemptOk(steps, a, DEADLINE);
    RunAttemptOk(steps, b, DEADLINE);
    if x.owner != y.owner {
      WinnersDoNotOverlap(steps, a, b);
      if x.promoteAt < y.selectAt {
        RowIsNotSeenAgain(s, x, y);
      } else {
        RowIsNotSeenAgain(s, y, x);
      }
    }
  }

  /** Once an experiment is promoted, no later selection sees the backlog row it was promoted from. */
  lemma RowIsNotSeenAgain(s: State, x: Attempt, y: Attempt)
    requires RowsOk(s) && AttemptOk(s, x) && AttemptOk(s, y)
    requires x.phase == Promoted && x.exp == y.exp && x.promoteAt < y.selectAt
    ensures x.seen != y.seen
  {
    assert x.promoteRow < y.rowsAt;
    assert !Newer(s.rows, x.promoteRow, y.seen);
    assert s.rows[x.seen].at <= x.selectAt <= s.claims[x.claim].stamp;
    assert Newer(s.rows, x.promoteRow, x.seen);
  }

  // ---------- stays in the backlog ----------

  predicate Backlogged(rows: seq<Row>, exp: ExpId) {
    var f := Final(rows, exp);
    f.Some? && rows[f.value].status == Backlog
  }

  /** Passes a and b, in the order of their selections, fall into one stay: the experiment is in the backlog
      in every state from the selection of a to the selection of b. */
  ghost predicate OneStay(steps: seq<Step>, a: nat, b: nat) {
    && a < b < |Exec(steps).attempts|
    && forall k: nat :: k <= |steps| && a < |Exec(steps[..k]).attempts| <= b ==>
         Backlogged(Exec(steps[..k]).rows, Exec(steps).attempts[a].exp)
  }

  /** What a selection recorded does not change, and later selections see at least as many rows. */
  predicate Later(s: State, t: State) {
    && s.rows <= t.rows && s.now <= t.now && |s.attempts| <= |t.attempts|
    && (forall i :: 0 <= i < |s.attempts| ==>
          t.attempts[i].exp == s.attempts[i].exp && t.attempts[i].rowsAt == s.attempts[i].rowsAt
          && t.attempts[i].selectAt == s.attempts[i].selectAt)
    && (forall i :: |s.attempts| <= i < |t.attempts| ==> t.attempts[i].rowsAt >= |s.rows| && t.attempts[i].selectAt >= s.now)
  }

  predicate Selections(s: State) {
    forall i :: 0 <= i < |s.attempts| ==> s.attempts[i].rowsAt <= |s.rows| && s.attempts[i].selectAt <= s.now
  }

  lemma StepIsLater(s: State, e: Step)
    ensures Later(s, Apply(s, e)) && |Apply(s, e).rows| <= |s.rows| + 1
    ensures |Apply(s, e).attempts| == |s.attempts| + if e.Select? && Enabled(s, e) then 1 else 0
    ensures e.Select? ==> Apply(s, e).rows == s.rows
    ensures |Apply(s, e).attempts| > |s.attempts| ==> Apply(s, e).attempts[|s.attempts|].rowsAt == |s.rows|
    ensures Selections(s) ==> Selections(Apply(s, e))
  {
  }

  lemma LaterIsTransitive(s: State, t: State, u: State)
    requires Later(s, t) && Later(t, u)
    ensures Later(s, u)
  {
  }

  lemma {:induction false} PrefixIsEarlier(steps: seq<Step>, k: nat)
    requires k <= |steps|
    ensures Later(Exec(steps[..k]), Exec(steps)) && Selections(Exec(steps[..k]))
  {
    var n := |steps| - 1;
    if k <= n {
      PrefixIsEarlier(steps[..n], k);
      assert steps[..n][..k] == steps[..k];
      StepIsLater(Exec(steps[..n]), steps[n]);
      LaterIsTransitive(Exec(steps[..k]), Exec(steps[..n]), Exec(steps));
    } else {
      assert steps[..k] == steps;
      if k > 0 {
        PrefixIsEarlier(steps[..n], n);
        assert steps[..n][..n] == steps[..n];
        StepIsLater(Exec(steps[..n]), steps[n]);
      }
    }
  }

  /** Rows come one at a time: every number of rows since the selection of a is that of some state. */
  lemma {:induction false} StateWithRows(steps: seq<Step>, a: nat, n: nat) returns (k: nat)
    requires a < |Exec(steps).attempts| && Exec(steps).attempts[a].rowsAt <= n <= |Exec(steps).rows|
    ensures k <= |steps| && a < |Exec(steps[..k]).attempts| && |Exec(steps[..k]).rows| == n
  {
    if n == |Exec(steps).rows| {
      k := |steps|;
      assert steps[..k] == steps;
    } else {
      var m := |steps| - 1;
      var s := Exec(steps[..m]);
      StepIsLater(s, steps[m]);
      k := StateWithRows(steps[..m], a, n);
      assert steps[..m][..k] == steps[..k];
    }
  }

  /** The state in which b selected. */
  lemma {:induction false} SelectingState(steps: seq<Step>, b: nat) returns (m: nat)
    requires b < |Exec(steps).attempts|
    ensures m < |steps| && |Exec(steps[..m]).attempts| == b
    ensures |Exec(steps[..m]).rows| == Exec(steps).attempts[b].rowsAt
  {
    m := |steps| - 1;
    var s := Exec(steps[..m]);
    StepIsLater(s, steps[m]);
    if b < |s.attempts| {
      m := SelectingState(steps[..m], b);
      assert steps[..|steps| - 1][..m] == steps[..m];
    }
  }

  /** A stay in terms of the table: every prefix of it between the two selections. */
  lemma StayIsByRows(steps: seq<Step>, a: nat, b: nat)
    requires a < b < |Exec(steps).attempts|
    ensures var s := Exec(steps);
            s.attempts[a].rowsAt <= s.attempts[b].rowsAt <= |s.rows| && s.attempts[a].selectAt <= s.attempts[b].selectAt
    ensures var s := Exec(steps);
            OneStay(steps, a, b) <==>
            forall n: nat :: s.attempts[a].rowsAt <= n <= s.attempts[b].rowsAt && n <= |s.rows| ==>
              Backlogged(s.rows[..n], s.attempts[a].exp)
  {
    var s := Exec(steps);
    var m := SelectingState(steps, b);
    PrefixIsEarlier(steps, m);
    PrefixIsEarlier(steps, |steps|);
    assert steps[..|steps|] == steps;
    forall k: nat | k <= |steps| && a < |Exec(steps[..k]).attempts| <= b
      ensures var r := Exec(steps[..k]).rows;
              s.attempts[a].rowsAt <= |r| <= s.attempts[b].rowsAt && r == s.rows[..|r|]
    {
      PrefixIsEarlier(steps, k);
    }
    forall n: nat | s.attempts[a].rowsAt <= n <= s.attempts[b].rowsAt
      ensures exists k: nat :: k <= |steps| && a < |Exec(steps[..k]).attempts| <= b && Exec(steps[..k]).rows == s.rows[..n]
    {
      var k := StateWithRows(steps[..m], a, n);
      assert steps[..m][..k] == steps[..k];
      PrefixIsEarlier(steps, k);
      PrefixIsEarlier(steps[..m], k);
    }
  }

  /** A row of the experiment newer than pass x's claim, inserted before x promoted. */
  ghost predicate Republished(s: State, x: Attempt) {
    x.claim < |s.claims| &&
    exists j :: 0 <= j < x.promoteRow && j < |s.rows| && s.rows[j].exp == x.exp && s.rows[j].version > StampMs(s.claims[x.claim].stamp)
  }

  /** A promotion is versioned with its claim's stamp.  It takes the experiment out of the backlog unless the
      backlog row that is FINAL at that moment is newer than the claim. */
  lemma PromotionEndsStay(s: State, a: nat)
    requires Enabled(s, Promote(a))
    ensures var x := s.attempts[a];
            var f := Final(s.rows, x.exp);
            Backlogged(Apply(s, Promote(a)).rows, x.exp) <==>
            Backlogged(s.rows, x.exp) && s.rows[f.value].version > StampMs(s.claims[x.claim].stamp)
    ensures !Republished(s, s.attempts[a].(promoteRow := |s.rows|)) ==>
              !Backlogged(Apply(s, Promote(a)).rows, s.attempts[a].exp)
  {
    assert Apply(s, Promote(a)).rows[..|s.rows|] == s.rows;
  }

  /** Two owners promote an experiment in one stay only if a row of it newer than the first one's claim was
      inserted before the first one promoted. */
  lemma TwoWinnersNeedARepublish(steps: seq<Step>, a: nat, b: nat)
    requires TimelyRun(steps, DEADLINE) && OneStay(steps, a, b)
    requires At(Exec(steps), a, Promoted) && At(Exec(steps), b, Promoted)
    requires Exec(steps).attempts[a].exp == Exec(steps).attempts[b].exp
    requires Exec(steps).attempts[a].owner != Exec(steps).attempts[b].owner
    ensures Republished(Exec(steps), Exec(steps).attempts[a])
  {
    var s := Exec(steps);
    var x, y := s.attempts[a], s.attempts[b];
    StayIsByRows(steps, a, b);
    WinnersDoNotOverlap(steps, a, b);
    RunAttemptOk(steps, a, DEADLINE);
    RunAttemptOk(steps, b, DEADLINE);
    SelectedAfterPromotion(s, x, y);
    assert Backlogged(s.rows[..x.promoteRow + 1], x.exp);
    PromotedRowIsHidden(s, x);
  }

  lemma SelectedAfterPromotion(s: State, x: Attempt, y: Attempt)
    requires RowsOk(s) && AttemptOk(s, x) && AttemptOk(s, y) && x.phase == Promoted
    requires x.selectAt <= y.selectAt
    requires x.promoteAt < y.selectAt || (y.phase == Promoted && y.promoteAt < x.selectAt)
    ensures x.rowsAt <= x.promoteRow < y.rowsAt
  {
  }

  lemma PromotedRowIsHidden(s: State, x: Attempt)
    requires x.phase == Promoted && AttemptOk(s, x)
    requires Backlogged(s.rows[..x.promoteRow + 1], x.exp)
    ensures Republished(s, x)
  {
    var p := x.promoteRow;
    var prefix := s.rows[..p + 1];
    var f := Final(prefix, x.exp);
    assert f.value != p;
    assert !Newer(prefix, p, f.value);
  }

  /** Mutual exclusion: without such a row at most one owner promotes the experiment during one stay. */
  lemma OneWinnerPerStay(steps: seq<Step>, a: nat, b: nat)
    requires TimelyRun(steps, DEADLINE) && OneStay(steps, a, b)
    requires At(Exec(steps), a, Promoted) && At(Exec(steps), b, Promoted)
    requires Exec(steps).attempts[a].exp == Exec(steps).attempts[b].exp
    requires !Republished(Exec(steps), Exec(steps).attempts[a])
    ensures Exec(steps).attempts[a].owner == Exec(steps).attempts[b].owner
  {
    if Exec(steps).attempts[a].owner != Exec(steps).attempts[b].owner {
      TwoWinnersNeedARepublish(steps, a, b);
    }
  }

  // ---------- progress ----------

  /** The claims that can decide an arbitration are exactly those that were not yet outside the window
      when the pass selected: a stale claim never decides. */
  lemma StaleClaimNeverDecides(steps: seq<Step>, a: nat, deadline: nat)
    requires TimelyRun(steps, deadline)
    requires At(Exec(steps), a, Arbitrated) || At(Exec(steps), a, Promoted)
    ensures var x := Exec(steps).attempts[a];
            x.winner.Some? ==>
              x.winner.value < |Exec(steps).claims| && InWindow(Exec(steps).claims[x.winner.value].stamp, x.selectAt)
  {
    RunAttemptOk(steps, a, deadline);
    WinnerWasInWindow(Exec(steps), Exec(steps).attempts[a]);
  }

  lemma WinnerWasInWindow(s: State, x: Attempt)
    requires AttemptOk(s, x) && (x.phase == Arbitrated || x.phase == Promoted)
    ensures x.winner.Some? ==> x.winner.value < |s.claims| && InWindow(s.claims[x.winner.value].stamp, x.selectAt)
  {
    if x.winner.Some? {
      WindowSlides(s.claims[x.winner.value].stamp, x.selectAt, x.readAt);
    }
  }

  /** A claim inside the window later was inside it earlier. */
  lemma WindowSlides(stamp: nat, earlier: nat, later: nat)
    requires earlier <= later && InWindow(stamp, later)
    ensures InWindow(stamp, earlier)
  {
  }

  /** A rival of a pass: another owner's claim on the same experiment that arbitration could prefer. */
  predicate Rival(s: State, x: Attempt, c: nat)
    requires x.claim < |s.claims| && c < |s.claims|
  {
    && s.claims[c].exp == x.exp && s.claims[c].owner != x.owner
    && s.claims[c].visible && InWindow(s.claims[c].stamp, x.selectAt)
    && Before(s.claims[c], s.claims[x.claim])
  }

  /** A claimant that reads inside its own window and has no rival wins. */
  lemma LoneClaimantWins(steps: seq<Step>, a: nat, deadline: nat)
    requires TimelyRun(steps, deadline) && Enabled(Exec(steps), Arbitrate(a))
    requires InWindow(Exec(steps).claims[Exec(steps).attempts[a].claim].stamp, Exec(steps).now)
    requires forall c :: 0 <= c < |Exec(steps).claims| ==> !Rival(Exec(steps), Exec(steps).attempts[a], c)
    ensures Enabled(Apply(Exec(steps), Arbitrate(a)), Promote(a))
  {
    RunAttemptOk(steps, a, deadline);
    LoneAt(Exec(steps), a);
  }

  lemma LoneAt(s: State, a: nat)
    requires Enabled(s, Arbitrate(a)) && AttemptOk(s, s.attempts[a])
    requires InWindow(s.claims[s.attempts[a].claim].stamp, s.now) && s.claims[s.attempts[a].claim].visible
    requires forall c :: 0 <= c < |s.claims| ==> !Rival(s, s.attempts[a], c)
    ensures Enabled(Apply(s, Arbitrate(a)), Promote(a))
  {
    var x := s.attempts[a];
    assert Candidate(s.claims[x.claim], x.exp, s.now);
    var w := Winner(s.claims, x.exp, s.now);
    WindowSlides(s.claims[w.value].stamp, x.selectAt, s.now);
    if s.claims[w.value].owner != x.owner {
      assert !Before(s.claims[x.claim], s.claims[w.value]);
      assert Rival(s, x, w.value);
    }
  }

  /** Reading within 30 s of the stamp is early enough, and 31 s after it the claim is gone. */
  lemma WindowBounds(stamp: nat, t: nat)
    ensures t < stamp / MILLI * MILLI + 30 * SECOND ==> InWindow(stamp, t)
    ensures t >= stamp + 31 * SECOND ==> !InWindow(stamp, t)
  {
  }

  /** An experiment reaped into the backlog is claimable again: at once if its claims have left the
      window, and in any case 31 s later if nobody touches the tables meanwhile. */
  lemma ReapedIsClaimableAgain(steps: seq<Step>, exp: ExpId, owner: Owner, deadline: nat)
    requires TimelyRun(steps, deadline)
    ensures var s := Apply(Exec(steps), Publish(exp, Backlog, StampMs(Exec(steps).now)));
            && (Enabled(s, Select(exp, owner)) <==>
                  forall c :: 0 <= c < |s.claims| && s.claims[c].exp == exp && s.claims[c].visible ==>
                    !InWindow(s.claims[c].stamp, s.now))
            && Enabled(Apply(s, Tick(31 * SECOND)), Select(exp, owner))
  {
    RunKeepsInv(steps, deadline);
    BacklogIsClaimable(Exec(steps), exp, owner);
  }

  lemma BacklogIsClaimable(s0: State, exp: ExpId, owner: Owner)
    requires ClaimsOk(s0) && RowsOk(s0)
    ensures var s := Apply(s0, Publish(exp, Backlog, StampMs(s0.now)));
            && (Enabled(s, Select(exp, owner)) <==>
                  forall c :: 0 <= c < |s.claims| && s.claims[c].exp == exp && s.claims[c].visible ==>
                    !InWindow(s.claims[c].stamp, s.now))
            && Enabled(Apply(s, Tick(31 * SECOND)), Select(exp, owner))
  {
    var s := Apply(s0, Publish(exp, Backlog, StampMs(s0.now)));
    forall j | 0 <= j < |s0.rows| ensures s0.rows[j].version <= StampMs(s0.now) {
      StampsGrow(s0.rows[j].at, s0.now);
    }
    NewestIsFinal(s0.rows, Row(exp, Backlog, StampMs(s0.now), s0.now));
    forall c | 0 <= c < |s.claims| ensures !InWindow(s.claims[c].stamp, s.now + 31 * SECOND) {
      WindowBounds(s.claims[c].stamp, s.now + 31 * SECOND);
    }
  }

  lemma StampsGrow(a: nat, b: nat)
    requires a <= b
    ensures StampMs(a) <= StampMs(b)
  {
  }

  lemma NewestIsFinal(rows: seq<Row>, row: Row)
    requires forall j :: 0 <= j < |rows| ==> rows[j].version <= row.version
    ensures Final(rows + [row], row.exp) == Some(|rows|)
  {
    assert (rows + [row])[..|rows|] == rows;
  }

  /** Since a promotion is versioned with its claim's stamp, it takes effect exactly when no row of the
      experiment carries a later version: a publish between claim and promotion hides it. */
  lemma PromotionTakesEffect(steps: seq<Step>, a: nat, deadline: nat)
    requires TimelyRun(steps, deadline) && Enabled(Exec(steps), Promote(a))
    ensures var s := Exec(steps);
            var x := s.attempts[a];
            Final(Apply(s, Promote(a)).rows, x.exp) == Some(|s.rows|) <==>
            forall j :: 0 <= j < |s.rows| && s.rows[j].exp == x.exp ==>
              s.rows[j].version <= StampMs(s.claims[x.claim].stamp)
  {
    var s := Exec(steps);
    var x := s.attempts[a];
    var rows' := Apply(s, Promote(a)).rows;
    assert rows'[..|s.rows|] == s.rows;
    var f := Final(s.rows, x.exp);
    if f.Some? {
      assert forall j :: 0 <= j < |s.rows| && s.rows[j].exp == x.exp ==> !Newer(s.rows, j, f.value);
    }
  }

  // ---------- the handler itself ----------

  /** What the selection query asks, of the rows and claims themselves: the newest row is a backlog row, and no
      visible claim is less than 30 s old by the clock's whole seconds. */
  ghost predicate Available(s: State, exp: ExpId) {
    && (exists r :: 0 <= r < |s.rows| && s.rows[r].exp == exp && s.rows[r].status == Backlog
          && forall j :: 0 <= j < |s.rows| && s.rows[j].exp == exp && j != r ==>
               s.rows[j].version < s.rows[r].version || (s.rows[j].version == s.rows[r].version && j < r))
    && (forall c :: 0 <= c < |s.claims| && s.claims[c].exp == exp && s.claims[c].visible ==>
          s.claims[c].stamp / 1_000_000 + 30_000 <= s.now / 1_000_000_000 * 1000)
  }

  lemma EligibleIsAvailable(s: State, exp: ExpId)
    ensures Eligible(s, exp) <==> Available(s, exp)
  {
    var f := Final(s.rows, exp);
    if f.Some? {
      assert forall j :: 0 <= j < |s.rows| && s.rows[j].exp == exp ==> !Newer(s.rows, j, f.value);
    }
    forall c | 0 <= c < |s.claims|
      ensures var aged := s.claims[c].stamp / 1_000_000 + 30_000 <= s.now / 1_000_000_000 * 1000;
              Candidate(s.claims[c], exp, s.now) <==> s.claims[c].exp == exp && s.claims[c].visible && !aged
    {
    }
  }

  /** exp is the first available experiment of the ranking. */
  ghost predicate IsFirst(s: State, ranked: seq<ExpId>, exp: ExpId) {
    exists i :: 0 <= i < |ranked| && ranked[i] == exp && Available(s, exp) && forall j :: 0 <= j < i ==> !Available(s, ranked[j])
  }

  ghost predicate NoneAvailable(s: State, ranked: seq<ExpId>) {
    forall i :: 0 <= i < |ranked| ==> !Available(s, ranked[i])
  }

  /** Step n of the run starts pass m, on the experiment that is first in the state before it. */
  ghost predicate ChoseAt(steps: seq<Step>, n: nat, m: nat, exp: ExpId, owner: Owner, ranked: seq<ExpId>) {
    n < |steps| && steps[n] == Select(exp, owner)
    && |Exec(steps[..n]).attempts| == m && IsFirst(Exec(steps[..n]), ranked, exp)
  }

  ghost predicate Chose(steps: seq<Step>, m: nat, exp: ExpId, owner: Owner, ranked: seq<ExpId>) {
    exists n: nat :: ChoseAt(steps, n, m, exp, owner, ranked)
  }

  lemma ChoiceStays(steps: seq<Step>, more: seq<Step>, m: nat, exp: ExpId, owner: Owner, ranked: seq<ExpId>)
    requires steps <= more && Chose(steps, m, exp, owner, ranked)
    ensures Chose(more, m, exp, owner, ranked)
  {
    var n: nat :| ChoseAt(steps, n, m, exp, owner, ranked);
    assert more[..n] == steps[..n] && more[n] == steps[n];
    assert ChoseAt(more, n, m, exp, owner, ranked);
  }

  predicate Touches(e: Step, a: nat) {
    e == Stamp(a) || e == Arbitrate(a) || e == Promote(a) || e == Stop(a)
  }

  ghost predicate IsPassOf(s: State, steps: seq<Step>, m: nat, owner: Owner, ranked: seq<ExpId>) {
    m < |s.attempts| && s.attempts[m].owner == owner && Chose(steps, m, s.attempts[m].exp, owner, ranked)
  }

  ghost predicate AllLostIn(s: State, steps: seq<Step>, passes: seq<nat>, first: nat, owner: Owner, ranked: seq<ExpId>) {
    forall m :: m in passes ==>
      && first <= m && IsPassOf(s, steps, m, owner, ranked) && s.attempts[m].phase == Arbitrated
      && (s.attempts[m].winner.Some? ==>
            s.attempts[m].winner.value < |s.claims| && s.claims[s.attempts[m].winner.value].owner != owner)
  }

  lemma LostStays(s: State, steps: seq<Step>, t: State, more: seq<Step>, passes: seq<nat>, first: nat, owner: Owner, ranked: seq<ExpId>)
    requires AllLostIn(s, steps, passes, first, owner, ranked) && steps <= more && |s.attempts| <= |t.attempts|
    requires |s.claims| <= |t.claims| && forall c :: 0 <= c < |s.claims| ==> t.claims[c].owner == s.claims[c].owner
    requires forall m :: m in passes ==> m < |s.attempts| && t.attempts[m] == s.attempts[m]
    ensures AllLostIn(t, more, passes, first, owner, ranked)
  {
    forall m | m in passes ensures IsPassOf(t, more, m, owner, ranked) {
      ChoiceStays(steps, more, m, t.attempts[m].exp, owner, ranked);
    }
  }

  /** The shared tables with the clock; `log` is the run that led to them. */
  class ClaimTables {
    var now: nat
    var claims: seq<Claim>
    var attempts: seq<Attempt>
    var rows: seq<Row>
    ghost var log: seq<Step>

    function Contents(): State
      reads this
    {
      State(now, claims, attempts, rows)
    }

    ghost predicate Valid()
      reads this
    {
      Contents() == Exec(log)
    }

    /** The arbitration of pass x returned its owner. */
    predicate Won(x: Attempt)
      reads this
    {
      x.winner.Some? && x.winner.value < |claims| && claims[x.winner.value].owner == x.owner
    }

    predicate OwnersKept(before: seq<Claim>)
      reads this
    {
      |before| <= |claims| && forall c :: 0 <= c < |before| ==> claims[c].owner == before[c].owner
    }

    /** It returned another owner, or none. */
    predicate Lost(x: Attempt)
      reads this
    {
      x.winner.Some? ==> x.winner.value < |claims| && claims[x.winner.value].owner != x.owner
    }

    /** One step taken outside the handler: another claimant, the publisher, visibility or the clock. */
    method Take(e: Step)
      requires Valid()
      modifies this
      ensures Valid() && log == old(log) + [e] && Contents() == Apply(old(Contents()), e)
    {
      var s := Apply(Contents(), e);
      now, claims, attempts, rows := s.now, s.claims, s.attempts, s.rows;
      log := log + [e];
      assert log[..|log| - 1] == old(log);
    }

    /** Lets the others run; they cannot act for this handler's own passes. */
    method LetOthersRun(others: seq<Step>, mine: seq<nat>)
      requires Valid() && forall m :: m in mine ==> m < |attempts|
      modifies this
      ensures Valid() && old(log) <= log
      ensures old(now) <= now && |old(attempts)| <= |attempts| && |old(claims)| <= |claims|
      ensures forall c :: 0 <= c < |old(claims)| ==> claims[c].stamp == old(claims)[c].stamp && claims[c].owner == old(claims)[c].owner
      ensures forall m :: m in mine ==> attempts[m] == old(attempts)[m]
    {
      for i := 0 to |others|
        invariant Valid() && old(log) <= log
        invariant old(now) <= now && |old(attempts)| <= |attempts| && |old(claims)| <= |claims|
        invariant forall c :: 0 <= c < |old(claims)| ==> claims[c].stamp == old(claims)[c].stamp && claims[c].owner == old(claims)[c].owner
        invariant forall m :: m in mine ==> attempts[m] == old(attempts)[m]
      {
        if forall m :: m in mine ==> !Touches(others[i], m) {
          Take(others[i]);
        }
      }
    }

    /** The first eligible experiment in rank order (`ORDER BY score DESC, exp_id LIMIT 1`). */
    method SelectCandidate(ranked: seq<ExpId>) returns (exp: Option<ExpId>)
      ensures exp.None? ==> NoneAvailable(Contents(), ranked)
      ensures exp.Some? ==> IsFirst(Contents(), ranked, exp.value)
    {
      for i := 0 to |ranked|
        invariant forall j :: 0 <= j < i ==> !Available(Contents(), ranked[j])
      {
        EligibleIsAvailable(Contents(), ranked[i]);
        if Eligible(Contents(), ranked[i]) {
          return Some(ranked[i]);
        }
      }
      return None;
    }

    /** One pass over a candidate: claim, settle, arbitrate, and promote if this owner's claim came first. */
    method Pass(ranked: seq<ExpId>, exp: ExpId, owner: Owner, others: seq<seq<Step>>, mine: seq<nat>) returns (promoted: bool)
      requires Valid() && |others| == 4 && IsFirst(Contents(), ranked, exp)
      requires forall m :: m in mine ==> m < |attempts|
      modifies this
      ensures Valid() && old(log) <= log
      ensures |old(attempts)| < |attempts|
      ensures forall m :: m in mine ==> attempts[m] == old(attempts)[m]
      ensures attempts[|old(attempts)|].owner == owner && attempts[|old(attempts)|].exp == exp
      ensures Chose(log, |old(attempts)|, exp, owner, ranked)
      ensures attempts[|old(attempts)|].phase == if promoted then Promoted else Arbitrated
      ensures if promoted then Won(attempts[|old(attempts)|]) else Lost(attempts[|old(attempts)|])
      ensures OwnersKept(old(claims))
    {
      var a := |attempts|;
      Start(ranked, exp, owner);
      ghost var start := log;
      LetOthersRun(others[1], mine + [a]);
      promoted := Contend(a, others, mine);
      ChoiceStays(start, log, a, exp, owner, ranked);
    }

    /** The selection itself. */
    method Start(ranked: seq<ExpId>, exp: ExpId, owner: Owner)
      requires Valid() && IsFirst(Contents(), ranked, exp)
      modifies this
      ensures Valid() && log == old(log) + [Select(exp, owner)] && Contents() == Apply(old(Contents()), Select(exp, owner))
      ensures |attempts| == |old(attempts)| + 1 && attempts[..|old(attempts)|] == old(attempts)
      ensures claims == old(claims) && At(Contents(), |old(attempts)|, Selected)
      ensures attempts[|old(attempts)|].owner == owner && attempts[|old(attempts)|].exp == exp
      ensures Chose(log, |old(attempts)|, exp, owner, ranked)
    {
      ghost var n := |log|;
      EligibleIsAvailable(Contents(), exp);
      Take(Select(exp, owner));
      assert log[..n] == old(log);
      assert ChoseAt(log, n, |old(attempts)|, exp, owner, ranked);
    }

    method Contend(a: nat, others: seq<seq<Step>>, mine: seq<nat>) returns (promoted: bool)
      requires Valid() && |others| == 4 && At(Contents(), a, Selected)
      requires forall m :: m in mine ==> m < |attempts| && m != a
      modifies this
      ensures Valid() && old(log) <= log
      ensures |old(attempts)| <= |attempts|
      ensures forall m :: m in mine ==> attempts[m] == old(attempts)[m]
      ensures attempts[a].owner == old(attempts)[a].owner && attempts[a].exp == old(attempts)[a].exp
      ensures attempts[a].phase == if promoted then Promoted else Arbitrated
      ensures if promoted then Won(attempts[a]) else Lost(attempts[a])
      ensures OwnersKept(old(claims))
    {
      ClaimAndRead(a, others[2], mine);
      var w := attempts[a].winner;
      promoted := w.Some? && claims[w.value].owner == attempts[a].owner;
      if promoted {
        LetOthersRun(others[3], mine + [a]);
        Take(Promote(a));
      }
    }

    /** Claims, lets the claim settle, and reads the winner. */
    method ClaimAndRead(a: nat, others: seq<Step>, mine: seq<nat>)
      requires Valid() && At(Contents(), a, Selected)
      requires forall m :: m in mine ==> m < |attempts| && m != a
      modifies this
      ensures Valid() && old(log) <= log
      ensures |old(attempts)| <= |attempts| && At(Contents(), a, Arbitrated)
      ensures forall m :: m in mine ==> attempts[m] == old(attempts)[m]
      ensures attempts[a].owner == old(attempts)[a].owner && attempts[a].exp == old(attempts)[a].exp
      ensures attempts[a].winner == Winner(claims, attempts[a].exp, attempts[a].readAt)
      ensures attempts[a].claim < |claims| && now == attempts[a].readAt >= claims[attempts[a].claim].stamp + 250_000_000
      ensures OwnersKept(old(claims))
    {
      Take(Stamp(a));
      LetOthersRun(others, mine + [a]);
      Take(Tick(SETTLE));
      Take(Arbitrate(a));
    }

    /** Pass m, on the experiment that was first when it selected. */
    ghost predicate IsPass(m: nat, owner: Owner, ranked: seq<ExpId>)
      reads this
    {
      IsPassOf(Contents(), log, m, owner, ranked)
    }

    /** Passes that lost, numbered from `first` on. */
    ghost predicate AllLost(passes: seq<nat>, first: nat, owner: Owner, ranked: seq<ExpId>)
      reads this
    {
      AllLostIn(Contents(), log, passes, first, owner, ranked)
    }

    /** One turn of the loop: a pass over the first experiment, if there is one. */
    method Try(owner: Owner, ranked: seq<ExpId>, others: seq<seq<Step>>, passes: seq<nat>, ghost first: nat)
      returns (a: Option<nat>, promoted: bool)
      requires Valid() && |others| == 4 && first <= |attempts| && AllLost(passes, first, owner, ranked)
      modifies this
      ensures Valid() && old(log) <= log && |old(attempts)| <= |attempts| && AllLost(passes, first, owner, ranked)
      ensures a.None? ==> !promoted && NoneAvailable(Contents(), ranked)
      ensures a.Some? ==> first <= a.value && a.value !in passes && IsPass(a.value, owner, ranked)
      ensures a.Some? ==> attempts[a.value].phase == if promoted then Promoted else Arbitrated
      ensures a.Some? ==> if promoted then Won(attempts[a.value]) else Lost(attempts[a.value])
    {
      ghost var before, start := Contents(), log;
      LetOthersRun(others[0], passes);
      var exp := SelectCandidate(ranked);
      if exp.None? {
        LostStays(before, start, Contents(), log, passes, first, owner, ranked);
        return None, false;
      }
      a := Some(|attempts|);
      promoted := Pass(ranked, exp.value, owner, others, passes);
      LostStays(before, start, Contents(), log, passes, first, owner, ranked);
    }

    /** The retry loop, six passes at most.  `others[4 * k ..]` is what the rest of the world does
        between the four database operations of pass k.  Every operation is a step of the protocol,
        so the theorems on runs hold of the handler; a pass wins only by promoting its own attempt, and
        every pass is on the experiment that was first when it selected. */
    method HandleSweepClaim(owner: Owner, ranked: seq<ExpId>, others: seq<seq<Step>>) returns (won: Option<nat>, ghost mine: seq<nat>)
      requires Valid() && |others| == 24
      modifies this
      ensures Valid() && old(log) <= log
      ensures |mine| <= 6 && forall m :: m in mine ==> |old(attempts)| <= m && IsPass(m, owner, ranked)
      ensures won.Some? ==> won.value in mine && At(Contents(), won.value, Promoted)
      ensures forall m :: m in mine && At(Contents(), m, Promoted) ==> won == Some(m)
      ensures forall m :: m in mine && won != Some(m) ==> At(Contents(), m, Arbitrated) && Lost(attempts[m])
      ensures won.Some? ==> Won(attempts[won.value])
      ensures won.None? ==> |mine| == 6 || NoneAvailable(Contents(), ranked)
    {
      var passes: seq<nat> := [];
      won := None;
      for try := 0 to 6
        invariant Valid() && old(log) <= log && won == None
        invariant |old(attempts)| <= |attempts| && |passes| == try && AllLost(passes, |old(attempts)|, owner, ranked)
      {
        var a, promoted := Try(owner, ranked, others[4 * try..4 * try + 4], passes, |old(attempts)|);
        if a.None? {
          return None, passes;
        }
        passes := passes + [a.value];
        if promoted {
          return a, passes;
        }
      }
      return None, passes;
    }
  }
}
