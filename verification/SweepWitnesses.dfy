/** Runs of the sweep-claim protocol that show its assumptions are needed: the deadline, distinct owners, and
    no republish between a claim and its promotion. */
module SweepWitnesses {
  import opened Wrappers
  import opened SweepClaim

  ghost predicate Reachable(s: State, deadline: nat) {
    exists steps :: Exec(steps) == s && TimelyRun(steps, deadline)
  }

  lemma Reach(s: State, e: Step, deadline: nat)
    requires Reachable(s, deadline) && Timely(Apply(s, e), deadline)
    ensures Reachable(Apply(s, e), deadline)
  {
    var steps :| Exec(steps) == s && TimelyRun(steps, deadline);
    assert (steps + [e])[..|steps|] == steps;
    assert Exec(steps + [e]) == Apply(s, e);
  }

  /** Passes a and b both promote the experiment during one stay of it in the backlog. */
  ghost predicate TwoWinnersInOneStay(steps: seq<Step>, a: nat, b: nat) {
    && OneStay(steps, a, b)
    && At(Exec(steps), a, Promoted) && At(Exec(steps), b, Promoted)
    && Exec(steps).attempts[a].exp == Exec(steps).attempts[b].exp
  }

  /** A run to s shows two winners in one stay when every prefix of the rows between does. */
  lemma RunTo(s: State, deadline: nat) returns (steps: seq<Step>)
    requires Reachable(s, deadline) && |s.attempts| == 2 && At(s, 0, Promoted) && At(s, 1, Promoted)
    requires s.attempts[0].exp == s.attempts[1].exp
    requires forall n: nat :: s.attempts[0].rowsAt <= n <= s.attempts[1].rowsAt && n <= |s.rows| ==> Backlogged(s.rows[..n], s.attempts[0].exp)
    ensures Exec(steps) == s && TimelyRun(steps, deadline) && TwoWinnersInOneStay(steps, 0, 1)
  {
    steps :| Exec(steps) == s && TimelyRun(steps, deadline);
    StayIsByRows(steps, 0, 1);
  }

  const BACKLOG_ROW := Row(0, Backlog, 0, 0)

  lemma SeededState(deadline: nat)
    ensures Reachable(State(0, [], [], [BACKLOG_ROW]), deadline)
  {
    assert Exec([]) == INIT && TimelyRun([], deadline);
    Reach(INIT, Publish(0, Backlog, 0), deadline);
  }

  // A late pass: owner 1 claims just before the next millisecond, owner 2 selects just before that
  // claim is visible and reads the moment it has left the window.
  const EARLY := Attempt(0, 1, Selected, 999_999, 0, 1, 0, 0, None, 0, 0)
  const LATE := Attempt(0, 2, Selected, 250_999_998, 0, 1, 0, 0, None, 0, 0)
  const EARLY_DONE := EARLY.(phase := Promoted, readAt := 250_999_999, winner := Some(0),
                             promoteAt := 250_999_999, promoteRow := 1)
  const EARLY_CLAIM := Claim(0, 1, 999_999, true)
  const LATE_CLAIM := Claim(0, 2, 29_750 * MILLI, true)
  const RUNNING_ROW := Row(0, Running, 0, 250_999_999)

  lemma BothSelected(d: nat)
    requires d == DEADLINE + 1
    ensures Reachable(State(250_999_998, [EARLY_CLAIM.(visible := false)], [EARLY.(phase := Stamped), LATE], [BACKLOG_ROW]), d)
  {
    SeededState(d);
    var s := State(0, [], [], [BACKLOG_ROW]);
    Reach(s, Tick(999_999), d);
    s := s.(now := 999_999);
    Reach(s, Select(0, 1), d);
    s := s.(attempts := [EARLY]);
    Reach(s, Stamp(0), d);
    s := s.(claims := [EARLY_CLAIM.(visible := false)], attempts := [EARLY.(phase := Stamped)]);
    Reach(s, Tick(249_999_999), d);
    s := s.(now := 250_999_998);
    Reach(s, Select(0, 2), d);
    assert Apply(s, Select(0, 2)).attempts == [EARLY.(phase := Stamped), LATE];
  }

  lemma EarlyRevealed(d: nat)
    requires d == DEADLINE + 1
    ensures Reachable(State(250_999_999, [EARLY_CLAIM], [EARLY.(phase := Stamped), LATE], [BACKLOG_ROW]), d)
  {
    BothSelected(d);
    var s := State(250_999_998, [EARLY_CLAIM.(visible := false)], [EARLY.(phase := Stamped), LATE], [BACKLOG_ROW]);
    Reach(s, Reveal(0), d);
    s := s.(claims := [EARLY_CLAIM]);
    Reach(s, Tick(1), d);
  }

  lemma EarlyPromoted(d: nat)
    requires d == DEADLINE + 1
    ensures Reachable(State(250_999_999, [EARLY_CLAIM], [EARLY_DONE, LATE], [BACKLOG_ROW, RUNNING_ROW]), d)
  {
    EarlyRevealed(d);
    var s := State(250_999_999, [EARLY_CLAIM], [EARLY.(phase := Stamped), LATE], [BACKLOG_ROW]);
    Reach(s, Arbitrate(0), d);
    s := s.(attempts := [EARLY.(phase := Arbitrated, readAt := 250_999_999, winner := Some(0)), LATE]);
    Reach(s, Promote(0), d);
    assert Apply(s, Promote(0)) == State(250_999_999, [EARLY_CLAIM], [EARLY_DONE, LATE], [BACKLOG_ROW, RUNNING_ROW]);
  }

  lemma LateStamped(d: nat)
    requires d == DEADLINE + 1
    ensures Reachable(State(30 * SECOND, [EARLY_CLAIM, LATE_CLAIM], [EARLY_DONE, LATE.(phase := Stamped, claim := 1)],
                            [BACKLOG_ROW, RUNNING_ROW]), d)
  {
    EarlyPromoted(d);
    var s := State(250_999_999, [EARLY_CLAIM], [EARLY_DONE, LATE], [BACKLOG_ROW, RUNNING_ROW]);
    Reach(s, Tick(29_499_000_001), d);
    s := s.(now := 29_750 * MILLI);
    Reach(s, Stamp(1), d);
    s := s.(claims := [EARLY_CLAIM, LATE_CLAIM.(visible := false)],
            attempts := [EARLY_DONE, LATE.(phase := Stamped, claim := 1)]);
    Reach(s, Reveal(1), d);
    s := s.(claims := [EARLY_CLAIM, LATE_CLAIM]);
    Reach(s, Tick(SETTLE), d);
  }

  lemma OnlyBacklogRow(rows: seq<Row>)
    requires rows != [] && rows[0] == BACKLOG_ROW
    ensures Backlogged(rows[..1], 0)
  {
    assert rows[..1] == [BACKLOG_ROW] && [BACKLOG_ROW][..0] == [];
  }

  const LATE_READ := LATE.(phase := Arbitrated, claim := 1, readAt := 30 * SECOND, winner := Some(1))

  lemma LateArbitrated(d: nat)
    requires d == DEADLINE + 1
    ensures Reachable(State(30 * SECOND, [EARLY_CLAIM, LATE_CLAIM], [EARLY_DONE, LATE_READ], [BACKLOG_ROW, RUNNING_ROW]), d)
  {
    LateStamped(d);
    var s := State(30 * SECOND, [EARLY_CLAIM, LATE_CLAIM], [EARLY_DONE, LATE.(phase := Stamped, claim := 1)],
                   [BACKLOG_ROW, RUNNING_ROW]);
    assert s.claims[..1] == [EARLY_CLAIM] && Winner([EARLY_CLAIM], 0, s.now) == None;
    Reach(s, Arbitrate(1), d);
  }

  /** One nanosecond more between selection and promotion, and two owners win the same stay with no
      republish. */
  lemma DeadlineIsTight()
    ensures exists steps :: TimelyRun(steps, DEADLINE + 1) && TwoWinnersInOneStay(steps, 0, 1)
                            && Exec(steps).attempts[0].owner != Exec(steps).attempts[1].owner
                            && !Republished(Exec(steps), Exec(steps).attempts[0])
  {
    var d := DEADLINE + 1;
    LateArbitrated(d);
    var s := State(30 * SECOND, [EARLY_CLAIM, LATE_CLAIM], [EARLY_DONE, LATE_READ], [BACKLOG_ROW, RUNNING_ROW]);
    Reach(s, Promote(1), d);
    s := Apply(s, Promote(1));
    OnlyBacklogRow(s.rows);
    var steps := RunTo(s, d);
  }

  // Two requests of one owner in flight at once.
  const TWIN := Attempt(0, 7, Selected, 0, 0, 1, 0, 0, None, 0, 0)
  const TWIN_CLAIM := Claim(0, 7, 0, true)

  lemma TwinsSelected()
    ensures Reachable(State(0, [TWIN_CLAIM.(visible := false)], [TWIN.(phase := Stamped), TWIN], [BACKLOG_ROW]), DEADLINE)
  {
    var d := DEADLINE;
    SeededState(d);
    var s := State(0, [], [], [BACKLOG_ROW]);
    Reach(s, Select(0, 7), d);
    s := s.(attempts := [TWIN]);
    Reach(s, Select(0, 7), d);
    s := s.(attempts := [TWIN, TWIN]);
    Reach(s, Stamp(0), d);
    assert Apply(s, Stamp(0)).attempts == [TWIN.(phase := Stamped), TWIN];
  }

  lemma TwinsStamped()
    ensures Reachable(State(SETTLE, [TWIN_CLAIM, TWIN_CLAIM],
                            [TWIN.(phase := Stamped), TWIN.(phase := Stamped, claim := 1)], [BACKLOG_ROW]), DEADLINE)
  {
    var d := DEADLINE;
    TwinsSelected();
    var s := State(0, [TWIN_CLAIM.(visible := false)], [TWIN.(phase := Stamped), TWIN], [BACKLOG_ROW]);
    Reach(s, Stamp(1), d);
    s := s.(claims := [TWIN_CLAIM.(visible := false), TWIN_CLAIM.(visible := false)],
            attempts := [TWIN.(phase := Stamped), TWIN.(phase := Stamped, claim := 1)]);
    Reach(s, Reveal(0), d);
    s := s.(claims := [TWIN_CLAIM, TWIN_CLAIM.(visible := false)]);
    Reach(s, Reveal(1), d);
    s := s.(claims := [TWIN_CLAIM, TWIN_CLAIM]);
    Reach(s, Tick(SETTLE), d);
  }

  const TWIN_READ := TWIN.(phase := Arbitrated, readAt := SETTLE, winner := Some(0))

  lemma TwinsArbitrated()
    ensures Reachable(State(SETTLE, [TWIN_CLAIM, TWIN_CLAIM], [TWIN_READ, TWIN_READ.(claim := 1)], [BACKLOG_ROW]), DEADLINE)
  {
    var d := DEADLINE;
    TwinsStamped();
    var s := State(SETTLE, [TWIN_CLAIM, TWIN_CLAIM],
                   [TWIN.(phase := Stamped), TWIN.(phase := Stamped, claim := 1)], [BACKLOG_ROW]);
    assert s.claims[..1] == [TWIN_CLAIM] && Winner([TWIN_CLAIM], 0, SETTLE) == Some(0);
    assert Winner(s.claims, 0, SETTLE) == Some(0);
    Reach(s, Arbitrate(0), d);
    s := s.(attempts := [TWIN_READ, TWIN.(phase := Stamped, claim := 1)]);
    Reach(s, Arbitrate(1), d);
  }

  /** Arbitration compares owners, not claims: one owner with two requests in flight can win twice. */
  lemma SameOwnerCanWinTwice()
    ensures exists steps :: TimelyRun(steps, DEADLINE) && TwoWinnersInOneStay(steps, 0, 1)
                            && !Republished(Exec(steps), Exec(steps).attempts[0])
  {
    var d := DEADLINE;
    TwinsArbitrated();
    var s := State(SETTLE, [TWIN_CLAIM, TWIN_CLAIM], [TWIN_READ, TWIN_READ.(claim := 1)], [BACKLOG_ROW]);
    Reach(s, Promote(0), d);
    s := Apply(s, Promote(0));
    Reach(s, Promote(1), d);
    s := Apply(s, Promote(1));
    OnlyBacklogRow(s.rows);
    var steps := RunTo(s, d);
  }

  // A backlog row republished a millisecond after the first owner's claim, and 40 s later a second owner.
  const FIRST := Attempt(0, 1, Selected, SECOND, 0, 1, 0, 0, None, 0, 0)
  const FIRST_READ := FIRST.(phase := Arbitrated, readAt := 1_250_000_000, winner := Some(0))
  const FIRST_DONE := FIRST_READ.(phase := Promoted, promoteAt := 1_250_000_000, promoteRow := 2)
  const FIRST_CLAIM := Claim(0, 1, SECOND, true)
  const SECOND_TRY := Attempt(0, 2, Selected, 40 * SECOND, 1, 3, 0, 0, None, 0, 0)
  const SECOND_READ := SECOND_TRY.(phase := Arbitrated, claim := 1, readAt := 40_250 * MILLI, winner := Some(1))
  const SECOND_CLAIM := Claim(0, 2, 40 * SECOND, true)
  const AGAIN_ROW := Row(0, Backlog, 1001, 1_001 * MILLI)
  const HIDDEN_ROW := Row(0, Running, 1000, 1_250_000_000)

  lemma FirstSelected()
    ensures Reachable(State(SECOND, [], [FIRST], [BACKLOG_ROW]), DEADLINE)
  {
    var d := DEADLINE;
    SeededState(d);
    var s := State(0, [], [], [BACKLOG_ROW]);
    Reach(s, Tick(SECOND), d);
    s := s.(now := SECOND);
    Reach(s, Select(0, 1), d);
  }

  lemma FirstStamped()
    ensures Reachable(State(1_001 * MILLI, [FIRST_CLAIM.(visible := false)], [FIRST.(phase := Stamped)], [BACKLOG_ROW, AGAIN_ROW]), DEADLINE)
  {
    var d := DEADLINE;
    FirstSelected();
    var s := State(SECOND, [], [FIRST], [BACKLOG_ROW]);
    Reach(s, Stamp(0), d);
    s := s.(claims := [FIRST_CLAIM.(visible := false)], attempts := [FIRST.(phase := Stamped)]);
    Reach(s, Tick(MILLI), d);
    s := s.(now := 1_001 * MILLI);
    Reach(s, Publish(0, Backlog, 1001), d);
  }

  lemma FirstRevealed()
    ensures Reachable(State(1_250_000_000, [FIRST_CLAIM], [FIRST.(phase := Stamped)], [BACKLOG_ROW, AGAIN_ROW]), DEADLINE)
  {
    var d := DEADLINE;
    FirstStamped();
    var s := State(1_001 * MILLI, [FIRST_CLAIM.(visible := false)], [FIRST.(phase := Stamped)], [BACKLOG_ROW, AGAIN_ROW]);
    Reach(s, Reveal(0), d);
    s := s.(claims := [FIRST_CLAIM]);
    Reach(s, Tick(249 * MILLI), d);
  }

  lemma FirstPromoted()
    ensures Reachable(State(1_250_000_000, [FIRST_CLAIM], [FIRST_DONE], [BACKLOG_ROW, AGAIN_ROW, HIDDEN_ROW]), DEADLINE)
  {
    var d := DEADLINE;
    FirstRevealed();
    var s := State(1_250_000_000, [FIRST_CLAIM], [FIRST.(phase := Stamped)], [BACKLOG_ROW, AGAIN_ROW]);
    Reach(s, Arbitrate(0), d);
    s := s.(attempts := [FIRST_READ]);
    Reach(s, Promote(0), d);
  }

  lemma AgainIsFinal()
    ensures Final([BACKLOG_ROW, AGAIN_ROW], 0) == Some(1)
    ensures Final([BACKLOG_ROW, AGAIN_ROW, HIDDEN_ROW], 0) == Some(1)
  {
    assert [BACKLOG_ROW, AGAIN_ROW, HIDDEN_ROW][..2] == [BACKLOG_ROW, AGAIN_ROW];
    assert [BACKLOG_ROW, AGAIN_ROW][..1] == [BACKLOG_ROW];
  }

  lemma SecondSelected()
    ensures Reachable(State(40 * SECOND, [FIRST_CLAIM], [FIRST_DONE, SECOND_TRY], [BACKLOG_ROW, AGAIN_ROW, HIDDEN_ROW]), DEADLINE)
  {
    var d := DEADLINE;
    FirstPromoted();
    AgainIsFinal();
    var s := State(1_250_000_000, [FIRST_CLAIM], [FIRST_DONE], [BACKLOG_ROW, AGAIN_ROW, HIDDEN_ROW]);
    Reach(s, Tick(38_750 * MILLI), d);
    s := s.(now := 40 * SECOND);
    Reach(s, Select(0, 2), d);
  }

  lemma SecondStamped()
    ensures Reachable(State(40_250 * MILLI, [FIRST_CLAIM, SECOND_CLAIM], [FIRST_DONE, SECOND_TRY.(phase := Stamped, claim := 1)],
                            [BACKLOG_ROW, AGAIN_ROW, HIDDEN_ROW]), DEADLINE)
  {
    var d := DEADLINE;
    SecondSelected();
    var s := State(40 * SECOND, [FIRST_CLAIM], [FIRST_DONE, SECOND_TRY], [BACKLOG_ROW, AGAIN_ROW, HIDDEN_ROW]);
    Reach(s, Stamp(1), d);
    s := s.(claims := [FIRST_CLAIM, SECOND_CLAIM.(visible := false)],
            attempts := [FIRST_DONE, SECOND_TRY.(phase := Stamped, claim := 1)]);
    Reach(s, Reveal(1), d);
    s := s.(claims := [FIRST_CLAIM, SECOND_CLAIM]);
    Reach(s, Tick(SETTLE), d);
  }

  lemma SecondArbitrated()
    ensures Reachable(State(40_250 * MILLI, [FIRST_CLAIM, SECOND_CLAIM], [FIRST_DONE, SECOND_READ],
                            [BACKLOG_ROW, AGAIN_ROW, HIDDEN_ROW]), DEADLINE)
  {
    var d := DEADLINE;
    SecondStamped();
    var s := State(40_250 * MILLI, [FIRST_CLAIM, SECOND_CLAIM], [FIRST_DONE, SECOND_TRY.(phase := Stamped, claim := 1)],
                   [BACKLOG_ROW, AGAIN_ROW, HIDDEN_ROW]);
    assert s.claims[..1] == [FIRST_CLAIM] && Winner([FIRST_CLAIM], 0, s.now) == None;
    Reach(s, Arbitrate(1), d);
  }

  lemma NeverOutOfBacklog(rows: seq<Row>, n: nat)
    requires |rows| >= 3 && rows[..3] == [BACKLOG_ROW, AGAIN_ROW, HIDDEN_ROW] && 1 <= n <= 3
    ensures Backlogged(rows[..n], 0)
  {
    AgainIsFinal();
    if n == 1 {
      assert rows[0] == rows[..3][0];
      OnlyBacklogRow(rows);
    } else {
      assert rows[..n] == rows[..3][..n];
      assert rows[..3][..2] == [BACKLOG_ROW, AGAIN_ROW];
    }
  }

  /** A backlog row published between a claim and its promotion is newer than the promotion, which it hides:
      the experiment never leaves the backlog, and a second owner promotes it too. */
  lemma RepublishAdmitsTwoOwners()
    ensures exists steps :: TimelyRun(steps, DEADLINE) && TwoWinnersInOneStay(steps, 0, 1)
                            && Exec(steps).attempts[0].owner != Exec(steps).attempts[1].owner
  {
    SecondArbitrated();
    var s := State(40_250 * MILLI, [FIRST_CLAIM, SECOND_CLAIM], [FIRST_DONE, SECOND_READ],
                   [BACKLOG_ROW, AGAIN_ROW, HIDDEN_ROW]);
    Reach(s, Promote(1), DEADLINE);
    s := Apply(s, Promote(1));
    assert s.rows[..3] == [BACKLOG_ROW, AGAIN_ROW, HIDDEN_ROW];
    forall n: nat | 1 <= n <= 3 ensures Backlogged(s.rows[..n], 0) {
      NeverOutOfBacklog(s.rows, n);
    }
    var steps := RunTo(s, DEADLINE);
  }
}
