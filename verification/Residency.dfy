/** Per-play counter deltas: each row's accumulated counters, less what the play's previous row carried. */
module Residency {

  type Counter = c: int | 0 <= c < 0x1_0000_0000

  const FIELDS: nat := 15  // seven state times with their counts, and the error count

  type Counters = s: seq<Counter> | |s| == FIELDS witness [0, 0, 0, 0, 0, 0, 0, 0, 0, 0, 0, 0, 0, 0, 0]

  const ZERO: Counters := [0, 0, 0, 0, 0, 0, 0, 0, 0, 0, 0, 0, 0, 0, 0]

  type PlayId = string

  type Cache = map<PlayId, Counters>

  /** Saturating subtraction of unsigned 32-bit values. */
  function SubDelta(current: Counter, prior: Counter): (d: Counter)
    ensures d as int == if current < prior then 0 else current - prior
  {
    if current < prior then 0 else current - prior
  }

  function Prior(m: Cache, play: PlayId): Counters {
    if play != "" && play in m then m[play] else ZERO
  }

  function Deltas(current: Counters, prior: Counters): (d: Counters) {
    seq(FIELDS, i requires 0 <= i < FIELDS => SubDelta(current[i], prior[i]))
  }

  function Observed(m: Cache, play: PlayId, current: Counters): Cache {
    if play == "" then m else m[play := current]
  }

  function Pruned(m: Cache, active: set<PlayId>): Cache {
    map p | p in m && p in active :: m[p]
  }

  class ResidencyCache {
    var m: Cache

    constructor ()
      ensures m == map[]
    {
      m := map[];
    }

    method Observe(play: PlayId, current: Counters) returns (prior: Counters)
      modifies this
      ensures prior == Prior(old(m), play)
      ensures m == Observed(old(m), play, current)
    {
      if play == "" {
        return ZERO;
      }
      prior := if play in m then m[play] else ZERO;
      m := m[play := current];
    }

    method Prune(active: set<PlayId>)
      modifies this
      ensures m == Pruned(old(m), active)
    {
      var keys := m.Keys;
      while keys != {}
        invariant keys <= m.Keys <= old(m).Keys
        invariant forall p :: p in m ==> m[p] == old(m)[p]
        invariant forall p :: p in old(m) ==> (p in m <==> p in keys || p in active)
        decreases keys
      {
        var p :| p in keys;
        keys := keys - {p};
        if p !in active {
          m := m - {p};
        }
      }
    }

    /** The delta columns of a row. */
    method ApplyDeltas(play: PlayId, current: Counters) returns (deltas: Counters)
      modifies this
      ensures deltas == Deltas(current, Prior(old(m), play))
      ensures m == Observed(old(m), play, current)
    {
      var prior := Observe(play, current);
      deltas := ZERO;
      for i := 0 to FIELDS
        invariant forall j :: 0 <= j < i ==> deltas[j] == SubDelta(current[j], prior[j])
      {
        deltas := deltas[i := SubDelta(current[i], prior[i])];
      }
    }

    /** One payload: the rows of its changed sessions, then a prune down to the plays it listed. */
    method HandlePayload(sessions: seq<Session>) returns (rows: seq<Counters>)
      modifies this
      ensures m == After(old(m), PayloadEvents(sessions))
      ensures rows == RowsOf(old(m), PayloadEvents(sessions))
    {
      var active: set<PlayId> := {};
      rows := [];
      ghost var events := [];
      for i := 0 to |sessions|
        invariant events == SessionEvents(sessions[..i])
        invariant active == Listed(sessions[..i])
        invariant m == After(old(m), events)
        invariant rows == RowsOf(old(m), events)
      {
        var s := sessions[i];
        assert sessions[..i + 1][..i] == sessions[..i];
        if s.id == "" {
          continue;
        }
        if s.rawPlay != "" {
          active := active + {s.rawPlay};
        }
        if s.changed {
          AfterAppend(old(m), events, Row(s.play, s.counters));
          events := events + [Row(s.play, s.counters)];
          var deltas := ApplyDeltas(s.play, s.counters);
          rows := rows + [deltas];
        }
      }
      assert sessions[..|sessions|] == sessions;
      AfterAppend(old(m), events, Event.Prune(active));
      Prune(active);
    }
  }

  // ---------- runs ----------

  datatype Event = Row(play: PlayId, counters: Counters) | Prune(active: set<PlayId>)

  function Next(m: Cache, e: Event): Cache {
    match e
    case Row(play, counters) => Observed(m, play, counters)
    case Prune(active) => Pruned(m, active)
  }

  function After(m: Cache, events: seq<Event>): Cache
    decreases |events|
  {
    if events == [] then m else After(Next(m, events[0]), events[1..])
  }

  /** The deltas of the rows of a run, in order. */
  function RowsOf(m: Cache, events: seq<Event>): seq<Counters>
    decreases |events|
  {
    if events == [] then []
    else
      (if events[0].Row? then [Deltas(events[0].counters, Prior(m, events[0].play))] else [])
      + RowsOf(Next(m, events[0]), events[1..])
  }

  lemma {:induction false} AfterAppend(m: Cache, events: seq<Event>, e: Event)
    ensures After(m, events + [e]) == Next(After(m, events), e)
    ensures RowsOf(m, events + [e]) ==
            RowsOf(m, events) + if e.Row? then [Deltas(e.counters, Prior(After(m, events), e.play))] else []
    decreases |events|
  {
    if events == [] {
      assert events + [e] == [e];
    } else {
      assert (events + [e])[1..] == events[1..] + [e];
      AfterAppend(Next(m, events[0]), events[1..], e);
    }
  }

  /** A session of a payload.  `play` is the id its row is stored under; `rawPlay` is the id the session
      itself carries, possibly none, and is all the prune at the end of the payload goes by. */
  datatype Session = Session(id: string, rawPlay: PlayId, play: PlayId, changed: bool, counters: Counters)

  function Listed(sessions: seq<Session>): set<PlayId> {
    if sessions == [] then {}
    else
      var s := sessions[|sessions| - 1];
      Listed(sessions[..|sessions| - 1]) + if s.id != "" && s.rawPlay != "" then {s.rawPlay} else {}
  }

  function SessionEvents(sessions: seq<Session>): seq<Event> {
    if sessions == [] then []
    else
      var s := sessions[|sessions| - 1];
      SessionEvents(sessions[..|sessions| - 1]) + if s.id != "" && s.changed then [Row(s.play, s.counters)] else []
  }

  function PayloadEvents(sessions: seq<Session>): seq<Event> {
    SessionEvents(sessions) + [Prune(Listed(sessions))]
  }

  // ---------- conservation ----------

  /** The sum of one counter's deltas over the rows of a play. */
  function DeltaSum(m: Cache, events: seq<Event>, play: PlayId, k: nat): int
    requires k < FIELDS
    decreases |events|
  {
    if events == [] then 0
    else
      (if events[0].Row? && events[0].play == play then Deltas(events[0].counters, Prior(m, play))[k] else 0)
      + DeltaSum(Next(m, events[0]), events[1..], play, k)
  }

  /** The play's own accumulated values of the counter, whatever the other plays do in between. */
  function Values(events: seq<Event>, play: PlayId, k: nat): seq<int>
    requires k < FIELDS
  {
    if events == [] then []
    else
      (if events[0].Row? && events[0].play == play then [events[0].counters[k]] else [])
      + Values(events[1..], play, k)
  }

  predicate NeverPruned(events: seq<Event>, play: PlayId) {
    forall e :: e in events && e.Prune? ==> play in e.active
  }

  function Last(start: int, values: seq<int>): int {
    if values == [] then start else values[|values| - 1]
  }

  /** The total of all decreases along start, values[0], values[1], ... */
  function Drops(start: int, values: seq<int>): int
    decreases |values|
  {
    if values == [] then 0
    else (if values[0] < start then start - values[0] else 0) + Drops(values[0], values[1..])
  }

  /** Over any interleaving of plays, the deltas of a play that is not pruned sum to its last accumulated
      value, less what it started from, plus everything it ever fell by. */
  lemma {:induction false} DeltasAreConserved(m: Cache, events: seq<Event>, play: PlayId, k: nat)
    requires play != "" && k < FIELDS && NeverPruned(events, play)
    ensures var start := Prior(m, play)[k];
            var values := Values(events, play, k);
            DeltaSum(m, events, play, k) == Last(start, values) - start + Drops(start, values)
    decreases |events|
  {
    if events != [] {
      var e, rest := events[0], events[1..];
      assert e in events;
      assert NeverPruned(rest, play);
      DeltasAreConserved(Next(m, e), rest, play, k);
      if e.Row? && e.play == play {
        var v, values := e.counters[k], Values(rest, play, k);
        assert Values(events, play, k)[0] == v && Values(events, play, k)[1..] == values;
        assert Last(v, values) == Last(Prior(m, play)[k], [v] + values);
      } else {
        assert Prior(Next(m, e), play) == Prior(m, play);
        assert Values(events, play, k) == Values(rest, play, k);
      }
    }
  }

  predicate NeverFalls(start: int, values: seq<int>)
    decreases |values|
  {
    values == [] || (start <= values[0] && NeverFalls(values[0], values[1..]))
  }

  lemma {:induction false} DropsWhenFalling(start: int, values: seq<int>)
    ensures Drops(start, values) >= 0
    ensures Drops(start, values) == 0 <==> NeverFalls(start, values)
    decreases |values|
  {
    if values != [] {
      DropsWhenFalling(values[0], values[1..]);
    }
  }

  /** For a play first seen in this run, the deltas add up to its last value exactly when the counter
      never fell, and to more otherwise. */
  lemma DeltasSumToLastValue(m: Cache, events: seq<Event>, play: PlayId, k: nat)
    requires play != "" && play !in m && k < FIELDS && NeverPruned(events, play)
    ensures var values := Values(events, play, k);
            && DeltaSum(m, events, play, k) >= Last(0, values)
            && (DeltaSum(m, events, play, k) == Last(0, values) <==> NeverFalls(0, values))
  {
    DeltasAreConserved(m, events, play, k);
    DropsWhenFalling(0, Values(events, play, k));
  }

  // ---------- with prunes ----------

  /** What is lost for the sum: every decrease, and every value a prune forgets. */
  function Loss(m: Cache, events: seq<Event>, play: PlayId, k: nat): nat
    requires k < FIELDS
    decreases |events|
  {
    if events == [] then 0
    else
      var e, held := events[0], Prior(m, play)[k];
      (if e.Row? && e.play == play then (if e.counters[k] < held then held - e.counters[k] else 0)
       else if e.Prune? && play !in e.active then held
       else 0)
      + Loss(Next(m, e), events[1..], play, k)
  }

  /** The law without any assumption on the prunes. */
  lemma {:induction false} DeltasBalance(m: Cache, events: seq<Event>, play: PlayId, k: nat)
    requires play != "" && k < FIELDS
    ensures DeltaSum(m, events, play, k) == Prior(After(m, events), play)[k] - Prior(m, play)[k] + Loss(m, events, play, k)
    decreases |events|
  {
    if events != [] {
      DeltasBalance(Next(m, events[0]), events[1..], play, k);
    }
  }

  /** A run of rows without a prune. */
  predicate RowsOnly(events: seq<Event>) {
    forall e :: e in events ==> e.Row?
  }

  lemma {:induction false} AfterThen(m: Cache, a: seq<Event>, b: seq<Event>)
    ensures After(m, a + b) == After(After(m, a), b)
    decreases |a|
  {
    if a == [] {
      assert a + b == b;
    } else {
      assert (a + b)[1..] == a[1..] + b;
      AfterThen(Next(m, a[0]), a[1..], b);
    }
  }

  lemma {:induction false} LossThen(m: Cache, a: seq<Event>, b: seq<Event>, play: PlayId, k: nat)
    requires k < FIELDS
    ensures Loss(m, a + b, play, k) == Loss(m, a, play, k) + Loss(After(m, a), b, play, k)
    decreases |a|
  {
    if a == [] {
      assert a + b == b;
    } else {
      assert (a + b)[1..] == a[1..] + b;
      LossThen(Next(m, a[0]), a[1..], b, play, k);
    }
  }

  lemma {:induction false} ValuesThen(a: seq<Event>, b: seq<Event>, play: PlayId, k: nat)
    requires k < FIELDS
    ensures Values(a + b, play, k) == Values(a, play, k) + Values(b, play, k)
    decreases |a|
  {
    if a == [] {
      assert a + b == b;
    } else {
      assert (a + b)[1..] == a[1..] + b;
      ValuesThen(a[1..], b, play, k);
    }
  }

  lemma OneMoreValue(start: int, v: int, tail: seq<int>)
    ensures Last(start, [v] + tail) == Last(v, tail)
    ensures Drops(start, [v] + tail) == (if v < start then start - v else 0) + Drops(v, tail)
  {
    assert ([v] + tail)[1..] == tail;
  }

  /** Without a prune only decreases are lost, and the cache holds the last value. */
  lemma {:induction false} RowsLose(m: Cache, rows: seq<Event>, play: PlayId, k: nat)
    requires play != "" && k < FIELDS && RowsOnly(rows)
    ensures Prior(After(m, rows), play)[k] == Last(Prior(m, play)[k], Values(rows, play, k))
    ensures Loss(m, rows, play, k) == Drops(Prior(m, play)[k], Values(rows, play, k))
    decreases |rows|
  {
    if rows != [] {
      assert rows[0] in rows;
      RowsLose(Next(m, rows[0]), rows[1..], play, k);
      if rows[0].play == play {
        OneMoreValue(Prior(m, play)[k], rows[0].counters[k], Values(rows[1..], play, k));
      } else {
        assert Prior(Next(m, rows[0]), play) == Prior(m, play);
        assert [] + Values(rows[1..], play, k) == Values(rows[1..], play, k);
      }
    }
  }

  /** The events of complete payloads, prunes included. */
  function RunEvents(payloads: seq<seq<Session>>): seq<Event> {
    if payloads == [] then [] else PayloadEvents(payloads[0]) + RunEvents(payloads[1..])
  }

  /** Up to the play's last row: complete payloads, then the rows of one more. */
  function UpToLastRow(earlier: seq<seq<Session>>, last: seq<Session>): seq<Event> {
    RunEvents(earlier) + SessionEvents(last)
  }

  /** Every payload lists the play by its raw id, or ends when the play's counter is still 0.  The counter is
      `held` before the first payload. */
  predicate NothingForgotten(payloads: seq<seq<Session>>, play: PlayId, k: nat, held: int)
    requires k < FIELDS
  {
    payloads == [] ||
    (var v := Last(held, Values(SessionEvents(payloads[0]), play, k));
     && (play in Listed(payloads[0]) || v == 0)
     && NothingForgotten(payloads[1..], play, k, v))
  }

  lemma {:induction false} SessionEventsAreRows(sessions: seq<Session>)
    ensures RowsOnly(SessionEvents(sessions))
  {
    if sessions != [] {
      SessionEventsAreRows(sessions[..|sessions| - 1]);
    }
  }

  lemma {:induction false} FallsAppend(start: int, a: seq<int>, b: seq<int>)
    ensures NeverFalls(start, a + b) <==> NeverFalls(start, a) && NeverFalls(Last(start, a), b)
    decreases |a|
  {
    if a == [] {
      assert a + b == b;
    } else {
      assert (a + b)[1..] == a[1..] + b;
      FallsAppend(a[0], a[1..], b);
    }
  }

  lemma LastAppend(start: int, a: seq<int>, b: seq<int>)
    ensures Last(start, a + b) == Last(Last(start, a), b)
  {
  }

  /** One payload: its rows lose their decreases, its prune what it forgets. */
  lemma PayloadThen(m: Cache, sessions: seq<Session>, rest: seq<Event>, play: PlayId, k: nat)
    requires play != "" && k < FIELDS
    ensures var held, values := Prior(m, play)[k], Values(SessionEvents(sessions), play, k);
            var m', v := After(m, PayloadEvents(sessions)), Last(held, values);
            && After(m, PayloadEvents(sessions) + rest) == After(m', rest)
            && v >= 0 && Prior(m', play)[k] == (if play in Listed(sessions) then v else 0)
            && Loss(m, PayloadEvents(sessions) + rest, play, k)
               == Drops(held, values) + (if play in Listed(sessions) then 0 else v) + Loss(m', rest, play, k)
            && Values(PayloadEvents(sessions) + rest, play, k) == values + Values(rest, play, k)
  {
    PayloadAlone(m, sessions, play, k);
    AfterThen(m, PayloadEvents(sessions), rest);
    LossThen(m, PayloadEvents(sessions), rest, play, k);
    ValuesThen(PayloadEvents(sessions), rest, play, k);
  }

  lemma PayloadAlone(m: Cache, sessions: seq<Session>, play: PlayId, k: nat)
    requires play != "" && k < FIELDS
    ensures var held, values := Prior(m, play)[k], Values(SessionEvents(sessions), play, k);
            var m', v := After(m, PayloadEvents(sessions)), Last(held, values);
            && v >= 0 && Prior(m', play)[k] == (if play in Listed(sessions) then v else 0)
            && Loss(m, PayloadEvents(sessions), play, k) == Drops(held, values) + (if play in Listed(sessions) then 0 else v)
            && Values(PayloadEvents(sessions), play, k) == values
  {
    var rows, prune := SessionEvents(sessions), [Prune(Listed(sessions))];
    SessionEventsAreRows(sessions);
    RowsLose(m, rows, play, k);
    AfterThen(m, rows, prune);
    LossThen(m, rows, prune, play, k);
    ValuesThen(rows, prune, play, k);
    PruneAlone(After(m, rows), Listed(sessions), play, k);
  }

  lemma PruneAlone(m: Cache, active: set<PlayId>, play: PlayId, k: nat)
    requires play != "" && k < FIELDS
    ensures var held := Prior(m, play)[k];
            && Prior(After(m, [Prune(active)]), play)[k] == (if play in active then held else 0)
            && Loss(m, [Prune(active)], play, k) == (if play in active then 0 else held)
            && Values([Prune(active)], play, k) == []
  {
    assert [Prune(active)][1..] == [];
  }

  /** Nothing is lost exactly when the counter never fell and no payload forgot a value. */
  lemma {:induction false} LossOfRun(m: Cache, earlier: seq<seq<Session>>, last: seq<Session>, play: PlayId, k: nat)
    requires play != "" && k < FIELDS
    ensures var held, values := Prior(m, play)[k], Values(UpToLastRow(earlier, last), play, k);
            Loss(m, UpToLastRow(earlier, last), play, k) == 0 <==>
            NeverFalls(held, values) && NothingForgotten(earlier, play, k, held)
    decreases |earlier|
  {
    var held := Prior(m, play)[k];
    if earlier == [] {
      SessionEventsAreRows(last);
      assert UpToLastRow([], last) == SessionEvents(last) + [] == SessionEvents(last);
      RowsLose(m, SessionEvents(last), play, k);
      DropsWhenFalling(held, Values(SessionEvents(last), play, k));
    } else {
      var rest := UpToLastRow(earlier[1..], last);
      var values := Values(SessionEvents(earlier[0]), play, k);
      var v, m' := Last(held, values), After(m, PayloadEvents(earlier[0]));
      assert UpToLastRow(earlier, last) == PayloadEvents(earlier[0]) + rest;
      PayloadThen(m, earlier[0], rest, play, k);
      DropsWhenFalling(held, values);
      FallsAppend(held, values, Values(rest, play, k));
      if play in Listed(earlier[0]) || v == 0 {
        LossOfRun(m', earlier[1..], last, play, k);
        assert Prior(m', play)[k] == v;
      }
    }
  }

  /** What the cache holds after the play's last row is its last value. */
  lemma {:induction false} HeldIsLast(m: Cache, earlier: seq<seq<Session>>, last: seq<Session>, play: PlayId, k: nat)
    requires play != "" && k < FIELDS && Values(SessionEvents(last), play, k) != []
    ensures var events := UpToLastRow(earlier, last);
            Prior(After(m, events), play)[k] == Last(0, Values(events, play, k))
    decreases |earlier|
  {
    if earlier == [] {
      SessionEventsAreRows(last);
      assert UpToLastRow([], last) == SessionEvents(last) + [] == SessionEvents(last);
      RowsLose(m, SessionEvents(last), play, k);
    } else {
      var rest := UpToLastRow(earlier[1..], last);
      assert UpToLastRow(earlier, last) == PayloadEvents(earlier[0]) + rest;
      PayloadThen(m, earlier[0], rest, play, k);
      HeldIsLast(After(m, PayloadEvents(earlier[0])), earlier[1..], last, play, k);
      HasValues(earlier[1..], last, play, k);
      LastAppend(0, Values(SessionEvents(earlier[0]), play, k), Values(rest, play, k));
    }
  }

  lemma {:induction false} HasValues(earlier: seq<seq<Session>>, last: seq<Session>, play: PlayId, k: nat)
    requires play != "" && k < FIELDS && Values(SessionEvents(last), play, k) != []
    ensures Values(UpToLastRow(earlier, last), play, k) != []
  {
    if earlier == [] {
      assert UpToLastRow([], last) == SessionEvents(last);
    } else {
      var rest := UpToLastRow(earlier[1..], last);
      assert UpToLastRow(earlier, last) == PayloadEvents(earlier[0]) + rest;
      PayloadThen(map[], earlier[0], rest, play, k);
      HasValues(earlier[1..], last, play, k);
    }
  }

  /** Over any payloads: up to its last row the deltas of a play that the cache did not hold before sum to its
      last value exactly when its counter never fell and every payload in between listed it by its raw id, or
      ended with the counter still 0; otherwise they sum to more. */
  lemma DeltasSumExactly(m: Cache, earlier: seq<seq<Session>>, last: seq<Session>, play: PlayId, k: nat)
    requires play != "" && play !in m && k < FIELDS && Values(SessionEvents(last), play, k) != []
    ensures var events := UpToLastRow(earlier, last);
            var values := Values(events, play, k);
            && DeltaSum(m, events, play, k) >= Last(0, values)
            && (DeltaSum(m, events, play, k) == Last(0, values) <==>
                NeverFalls(0, values) && NothingForgotten(earlier, play, k, 0))
  {
    DeltasBalance(m, UpToLastRow(earlier, last), play, k);
    LossOfRun(m, earlier, last, play, k);
    HeldIsLast(m, earlier, last, play, k);
  }

  const FIVE: Counters := [5, 0, 0, 0, 0, 0, 0, 0, 0, 0, 0, 0, 0, 0, 0]

  /** Two payloads of a session without a raw play id: 5 is counted twice. */
  lemma UnlistedPlayIsCountedTwice()
    ensures var payload := [Session("s", "", "p", true, FIVE)];
            DeltaSum(map[], UpToLastRow([payload], payload), "p", 0) == 10
            && Last(0, Values(UpToLastRow([payload], payload), "p", 0)) == 5
  {
    var payload := [Session("s", "", "p", true, FIVE)];
    var row := Row("p", FIVE);
    assert payload[..0] == [];
    assert SessionEvents(payload) == [row];
    assert Listed(payload) == {};
    assert SubDelta(5, 0) == 5;
    assert RunEvents([payload]) == PayloadEvents(payload) + [] == [row, Prune({})];
    var events := UpToLastRow([payload], payload);
    assert events == [row, Prune({}), row];
    assert events[1..] == [Prune({}), row] && events[1..][1..] == [row] && [row][1..] == [];
    assert Values(events, "p", 0) == [5] + Values(events[1..], "p", 0) && Values(events[1..], "p", 0) == Values([row], "p", 0) == [5];
    var once := Next(map[], row);
    assert once == map["p" := FIVE] && Next(once, Prune({})) == map[];
    assert DeltaSum(map[], [row], "p", 0) == 5;
    assert DeltaSum(once, events[1..], "p", 0) == 5;
  }

  /** A play that no session lists by its own id is forgotten after every payload, so its next row's
      deltas are its whole accumulated values again. */
  lemma UnlistedPlayIsRecounted(m: Cache, sessions: seq<Session>, play: PlayId, current: Counters)
    ensures play !in Listed(sessions) ==>
              Deltas(current, Prior(After(m, PayloadEvents(sessions)), play)) == current
  {
    AfterAppend(m, SessionEvents(sessions), Prune(Listed(sessions)));
  }
}
