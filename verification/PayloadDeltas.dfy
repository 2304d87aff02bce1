/** What one payload writes and what the cache keeps of it, said of its sessions alone. */
module PayloadDeltas {
  import opened Residency

  predicate Counts(s: Session) {
    s.id != "" && s.changed
  }

  /** The counters last seen of a play: in the latest of the sessions that has them, else in the cache, else zero; a
      row without a play has no history. */
  function Seen(m: Cache, sessions: seq<Session>, play: PlayId): Counters {
    if play == "" then ZERO
    else if sessions == [] then (if play in m then m[play] else ZERO)
    else
      var n := |sessions| - 1;
      if Counts(sessions[n]) && sessions[n].play == play then sessions[n].counters else Seen(m, sessions[..n], play)
  }

  /** Each counter less what it was, but never below zero. */
  ghost predicate IsDelta(delta: Counters, now: Counters, was: Counters) {
    forall i :: 0 <= i < 15 ==> delta[i] == if now[i] >= was[i] then now[i] - was[i] else 0
  }

  /** A row for each changed session that has an id, in order. */
  ghost predicate AreRows(m: Cache, sessions: seq<Session>, rows: seq<Counters>)
    decreases |sessions|
  {
    if sessions == [] then rows == []
    else
      var n := |sessions| - 1;
      if !Counts(sessions[n]) then AreRows(m, sessions[..n], rows)
      else
        && rows != [] && AreRows(m, sessions[..n], rows[..|rows| - 1])
        && IsDelta(rows[|rows| - 1], sessions[n].counters, Seen(m, sessions[..n], sessions[n].play))
  }

  ghost predicate ListsItself(s: Session, play: PlayId) {
    s.id != "" && s.rawPlay == play && play != ""
  }

  lemma {:induction false} ListedMeans(sessions: seq<Session>, play: PlayId)
    ensures play in Listed(sessions) <==> exists i :: 0 <= i < |sessions| && ListsItself(sessions[i], play)
  {
    if sessions != [] {
      var n := |sessions| - 1;
      ListedMeans(sessions[..n], play);
      if i :| 0 <= i < n && ListsItself(sessions[..n][i], play) {
        assert ListsItself(sessions[i], play);
      }
      if i :| 0 <= i < n && ListsItself(sessions[i], play) {
        assert ListsItself(sessions[..n][i], play);
      }
    }
  }

  lemma NextEvents(sessions: seq<Session>)
    requires sessions != []
    ensures var s, before := sessions[|sessions| - 1], SessionEvents(sessions[..|sessions| - 1]);
            SessionEvents(sessions) == if Counts(s) then before + [Row(s.play, s.counters)] else before
  {
  }

  lemma {:induction false} SeenIsPrior(m: Cache, sessions: seq<Session>, play: PlayId)
    ensures Prior(After(m, SessionEvents(sessions)), play) == Seen(m, sessions, play)
  {
    if sessions != [] {
      var n := |sessions| - 1;
      SeenIsPrior(m, sessions[..n], play);
      NextEvents(sessions);
      if Counts(sessions[n]) {
        AfterAppend(m, SessionEvents(sessions[..n]), Row(sessions[n].play, sessions[n].counters));
      }
    }
  }

  lemma {:induction false} RowsAre(m: Cache, sessions: seq<Session>)
    ensures AreRows(m, sessions, RowsOf(m, SessionEvents(sessions)))
  {
    if sessions != [] {
      var n := |sessions| - 1;
      var s, before := sessions[n], SessionEvents(sessions[..n]);
      RowsAre(m, sessions[..n]);
      NextEvents(sessions);
      if Counts(s) {
        AfterAppend(m, before, Row(s.play, s.counters));
        SeenIsPrior(m, sessions[..n], s.play);
        var row := Deltas(s.counters, Seen(m, sessions[..n], s.play));
        assert RowsOf(m, SessionEvents(sessions)) == RowsOf(m, before) + [row];
        assert IsDelta(row, s.counters, Seen(m, sessions[..n], s.play));
      }
    }
  }

  ghost predicate KnownBy(m: Cache, sessions: seq<Session>, play: PlayId) {
    play in m || exists i :: 0 <= i < |sessions| && Names(sessions[i], play)
  }

  predicate Names(s: Session, play: PlayId) {
    Counts(s) && s.play == play && play != ""
  }

  lemma KnownNext(m: Cache, sessions: seq<Session>, play: PlayId)
    requires sessions != []
    ensures var n := |sessions| - 1;
            KnownBy(m, sessions, play) <==> KnownBy(m, sessions[..n], play) || Names(sessions[n], play)
  {
    var n := |sessions| - 1;
    if i :| 0 <= i < n && Names(sessions[..n][i], play) {
      assert Names(sessions[i], play);
    }
    if i :| 0 <= i < n && Names(sessions[i], play) {
      assert Names(sessions[..n][i], play);
    }
  }

  lemma {:induction false} KeptKeys(m: Cache, sessions: seq<Session>, play: PlayId)
    ensures play in After(m, SessionEvents(sessions)) <==> KnownBy(m, sessions, play)
  {
    if sessions != [] {
      var s, before := sessions[|sessions| - 1], sessions[..|sessions| - 1];
      KeptKeys(m, before, play);
      KnownNext(m, sessions, play);
      NextEvents(sessions);
      if Counts(s) {
        AfterAppend(m, SessionEvents(before), Row(s.play, s.counters));
      }
    }
  }

  /** One payload: a row for each changed session with an id, its counters less those last seen of its play; and the
      cache keeps exactly the known plays that some session with an id lists by its own id, with what was last seen. */
  lemma PayloadMeans(m: Cache, sessions: seq<Session>, play: PlayId)
    ensures AreRows(m, sessions, RowsOf(m, PayloadEvents(sessions)))
    ensures var kept := After(m, PayloadEvents(sessions));
            && (play in kept <==> KnownBy(m, sessions, play) && exists i :: 0 <= i < |sessions| && ListsItself(sessions[i], play))
            && (play in kept ==> kept[play] == Seen(m, sessions, play))
  {
    AfterAppend(m, SessionEvents(sessions), Prune(Listed(sessions)));
    RowsAre(m, sessions);
    assert RowsOf(m, PayloadEvents(sessions)) == RowsOf(m, SessionEvents(sessions));
    ListedMeans(sessions, play);
    KeptKeys(m, sessions, play);
    SeenIsPrior(m, sessions, play);
  }
}
