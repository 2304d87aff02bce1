/** The write path as interleaved atomic steps: rows arrive, batches are inserted and acknowledged or
    rejected, and the evictor runs, in any order. */
module WritePath {
  import opened RingStates

  /** The position of a row in the order of Adds; it stands for the pointer that Add returns. */
  type Id = nat

  datatype Row = Row(player: string, kind: Kind, tsMs: int, fp: string, play: string)

  /** One batch inserter: the rows to insert and their ring entries, and whether an INSERT is under way. */
  datatype Writer = Writer(buf: seq<Row>, entries: seq<Id>, sending: bool)

  datatype Store = Store(
    clock: int, rows: seq<Row>, status: seq<Status>, buckets: map<string, seq<Id>>,
    samples: Writer, network: Writer,
    acked: set<Id>, rejected: set<Id>, visible: set<Id>)

  /** A rejected INSERT may have landed all the same. */
  datatype Action = Arrive(row: Row) | Begin(kind: Kind) | Ack(kind: Kind) | Reject(kind: Kind, landed: bool) | Evict

  function EmptyStore(clock: int): Store {
    Store(clock, [], [], map[], Writer([], [], false), Writer([], [], false), {}, {}, {})
  }

  function BucketOf(st: Store, player: string): seq<Id> {
    if player in st.buckets then st.buckets[player] else []
  }

  function WriterOf(st: Store, kind: Kind): Writer {
    if kind == Sample then st.samples else st.network
  }

  function WithWriter(st: Store, kind: Kind, w: Writer): Store {
    if kind == Sample then st.(samples := w) else st.(network := w)
  }

  function SetOf(ids: seq<Id>): set<Id> {
    set id | id in ids
  }

  function Marked(status: seq<Status>, entries: seq<Id>, mark: Status -> Status): (marked: seq<Status>)
    ensures |marked| == |status|
  {
    seq(|status|, i requires 0 <= i < |status| => if i in entries then mark(status[i]) else status[i])
  }

  /** The entries of a bucket that an eviction leaves. */
  function Survivors(st: Store, ids: seq<Id>, cutoffMs: int): seq<Id> {
    if ids == [] then []
    else
      var n := |ids| - 1;
      var id := ids[n];
      Survivors(st, ids[..n], cutoffMs)
      + if id < |st.rows| && id < |st.status| && Evictable(st.status[id], st.rows[id].tsMs, cutoffMs) then [] else [id]
  }

  lemma {:induction false} SurvivorsAre(st: Store, ids: seq<Id>, cutoffMs: int)
    ensures forall id :: id in Survivors(st, ids, cutoffMs) <==>
                         id in ids && !(id < |st.rows| && id < |st.status| && st.status[id] == Confirmed && st.rows[id].tsMs < cutoffMs)
  {
    if ids != [] {
      var n := |ids| - 1;
      SurvivorsAre(st, ids[..n], cutoffMs);
      assert ids == ids[..n] + [ids[n]];
    }
  }

  predicate Enabled(st: Store, a: Action, now: int) {
    && st.clock <= now
    && match a
       case Arrive(row) => row.tsMs == now && !WriterOf(st, row.kind).sending
       case Begin(kind) => !WriterOf(st, kind).sending && WriterOf(st, kind).buf != []
       case Ack(kind) => WriterOf(st, kind).sending
       case Reject(kind, _) => WriterOf(st, kind).sending
       case Evict => true
  }

  function Next(st: Store, a: Action, now: int, windowMs: nat): Store {
    var t := st.(clock := now);
    match a
    case Arrive(row) =>
      var id, w := |st.rows|, WriterOf(st, row.kind);
      WithWriter(t.(rows := st.rows + [row], status := st.status + [Pending],
                    buckets := st.buckets[row.player := BucketOf(st, row.player) + [id]]),
                 row.kind, Writer(w.buf + [row], w.entries + [id], false))
    case Begin(kind) =>
      var w := WriterOf(st, kind);
      WithWriter(t.(status := Marked(st.status, w.entries, MarkedInserting)), kind, w.(sending := true))
    case Ack(kind) =>
      var w := WriterOf(st, kind);
      WithWriter(t.(status := Marked(st.status, w.entries, _ => Confirmed), acked := st.acked + SetOf(w.entries),
                    visible := st.visible + SetOf(w.entries)), kind, Writer([], [], false))
    case Reject(kind, landed) =>
      var w := WriterOf(st, kind);
      WithWriter(t.(status := Marked(st.status, w.entries, Reverted), rejected := st.rejected + SetOf(w.entries),
                    visible := st.visible + if landed then SetOf(w.entries) else {}), kind, Writer([], [], false))
    case Evict =>
      t.(buckets := map player | player in st.buckets :: Survivors(st, st.buckets[player], now - windowMs))
  }

  // ---------- what every step keeps ----------

  ghost predicate Increasing(ids: seq<Id>) {
    forall i, j :: 0 <= i < j < |ids| ==> ids[i] < ids[j]
  }

  /** buf and entries in lockstep, and every entry in the status the inserter left it in. */
  ghost predicate WriterInv(st: Store, kind: Kind) {
    var w := WriterOf(st, kind);
    && |w.buf| == |w.entries| && Increasing(w.entries)
    && (forall i :: 0 <= i < |w.entries| ==>
          w.entries[i] < |st.rows| && w.entries[i] < |st.status| && w.buf[i] == st.rows[w.entries[i]] && w.buf[i].kind == kind
          && st.status[w.entries[i]] == if w.sending then Inserting else Pending)
  }

  /** A row waits in its batch, or its INSERT was acknowledged, or it was rejected: exactly one of the three. */
  ghost predicate RowInv(st: Store, id: Id)
    requires id < |st.rows| && id < |st.status|
  {
    var waiting := id in WriterOf(st, st.rows[id].kind).entries;
    && (st.status[id] == Confirmed <==> id in st.acked)
    && (waiting <==> id !in st.acked && id !in st.rejected)
    && !(id in st.acked && id in st.rejected)
    && (id in st.rejected ==> st.status[id] == Pending)
    && (id in st.acked ==> id in st.visible)
    && (id in st.visible ==> id in st.acked || id in st.rejected)
  }

  /** A row is in its bucket unless it was acknowledged and has fallen out of the window. */
  ghost predicate HeldInv(st: Store, id: Id, windowMs: nat)
    requires id < |st.rows|
  {
    && st.rows[id].tsMs <= st.clock
    && (id in BucketOf(st, st.rows[id].player) || (id in st.acked && st.rows[id].tsMs < st.clock - windowMs))
  }

  ghost predicate BucketInv(st: Store, player: string) {
    && Increasing(BucketOf(st, player))
    && forall id :: id in BucketOf(st, player) ==> id < |st.rows| && st.rows[id].player == player
  }

  ghost predicate Inv(st: Store, windowMs: nat) {
    && |st.status| == |st.rows|
    && (forall id :: id in st.acked || id in st.rejected || id in st.visible ==> id < |st.rows|)
    && (forall kind :: WriterInv(st, kind))
    && (forall id: Id :: id < |st.rows| ==> RowInv(st, id))
    && (forall id: Id :: id < |st.rows| ==> HeldInv(st, id, windowMs))
    && (forall player :: BucketInv(st, player))
  }

  lemma StartHolds(clock: int, windowMs: nat)
    ensures Inv(EmptyStore(clock), windowMs)
  {
  }

  lemma StepKeepsInv(st: Store, a: Action, now: int, windowMs: nat)
    requires Inv(st, windowMs) && Enabled(st, a, now)
    ensures Inv(Next(st, a, now, windowMs), windowMs)
  {
    match a
    case Arrive(row) => ArriveKeepsInv(st, row, now, windowMs);
    case Begin(kind) => BeginKeepsInv(st, kind, now, windowMs);
    case Ack(kind) => AckKeepsInv(st, kind, now, windowMs);
    case Reject(kind, landed) => RejectKeepsInv(st, kind, landed, now, windowMs);
    case Evict => EvictKeepsInv(st, now, windowMs);
  }

  /** What lockstep says of one entry of a batch. */
  lemma BatchEntry(st: Store, kind: Kind, id: Id)
    requires WriterInv(st, kind) && id in WriterOf(st, kind).entries
    ensures id < |st.rows| && id < |st.status| && st.rows[id].kind == kind
    ensures st.status[id] == if WriterOf(st, kind).sending then Inserting else Pending
  {
    var w := WriterOf(st, kind);
    var i :| 0 <= i < |w.entries| && w.entries[i] == id;
  }

  /** Marking one batch leaves the other alone. */
  lemma OtherBatchStays(st: Store, kind: Kind, k: Kind, mark: Status -> Status)
    requires WriterInv(st, kind) && WriterInv(st, k) && k != kind
    ensures forall i :: 0 <= i < |WriterOf(st, k).entries| ==>
              var id := WriterOf(st, k).entries[i];
              id < |st.status| && Marked(st.status, WriterOf(st, kind).entries, mark)[id] == st.status[id]
  {
    var w := WriterOf(st, k);
    forall i | 0 <= i < |w.entries| ensures w.entries[i] !in WriterOf(st, kind).entries {
      if w.entries[i] in WriterOf(st, kind).entries {
        BatchEntry(st, kind, w.entries[i]);
      }
    }
  }

  lemma AppendIncreases(ids: seq<Id>, id: Id)
    requires Increasing(ids) && forall x :: x in ids ==> x < id
    ensures Increasing(ids + [id])
  {
    assert forall i :: 0 <= i < |ids| ==> ids[i] in ids;
  }

  lemma ArriveKeepsInv(st: Store, row: Row, now: int, windowMs: nat)
    requires Inv(st, windowMs) && Enabled(st, Arrive(row), now)
    ensures Inv(Next(st, Arrive(row), now, windowMs), windowMs)
  {
    var t := Next(st, Arrive(row), now, windowMs);
    forall kind ensures WriterInv(t, kind) {
      ArriveKeepsWriter(st, row, now, windowMs, kind);
    }
    forall id: Id | id < |t.rows| ensures RowInv(t, id) && HeldInv(t, id, windowMs) {
      ArriveKeepsRow(st, row, now, windowMs, id);
    }
    forall player ensures BucketInv(t, player) {
      assert BucketInv(st, player);
      AppendIncreases(BucketOf(st, player), |st.rows|);
    }
  }

  lemma ArriveKeepsWriter(st: Store, row: Row, now: int, windowMs: nat, kind: Kind)
    requires Inv(st, windowMs) && Enabled(st, Arrive(row), now)
    ensures WriterInv(Next(st, Arrive(row), now, windowMs), kind)
  {
    var w := WriterOf(st, kind);
    assert WriterInv(st, kind);
    forall id | id in w.entries ensures id < |st.rows| {
      BatchEntry(st, kind, id);
    }
    AppendIncreases(w.entries, |st.rows|);
  }

  lemma ArriveKeepsRow(st: Store, row: Row, now: int, windowMs: nat, id: Id)
    requires Inv(st, windowMs) && Enabled(st, Arrive(row), now) && id <= |st.rows|
    ensures RowInv(Next(st, Arrive(row), now, windowMs), id) && HeldInv(Next(st, Arrive(row), now, windowMs), id, windowMs)
  {
    if id < |st.rows| {
      assert RowInv(st, id) && HeldInv(st, id, windowMs);
    }
  }

  lemma BeginKeepsInv(st: Store, kind: Kind, now: int, windowMs: nat)
    requires Inv(st, windowMs) && Enabled(st, Begin(kind), now)
    ensures Inv(Next(st, Begin(kind), now, windowMs), windowMs)
  {
    var t := Next(st, Begin(kind), now, windowMs);
    forall k ensures WriterInv(t, k) {
      assert WriterInv(st, k) && WriterInv(st, kind);
      if k != kind {
        OtherBatchStays(st, kind, k, MarkedInserting);
      } else {
        BatchIsMarked(st, kind, MarkedInserting);
      }
    }
    forall id: Id | id < |t.rows| ensures RowInv(t, id) && HeldInv(t, id, windowMs) {
      MarkedRow(st, kind, id, windowMs);
      assert t.status[id] == if id in WriterOf(st, kind).entries then MarkedInserting(st.status[id]) else st.status[id];
    }
    forall player ensures BucketInv(t, player) {
      assert BucketInv(st, player);
    }
  }

  lemma BatchIsMarked(st: Store, kind: Kind, mark: Status -> Status)
    requires WriterInv(st, kind)
    ensures forall i :: 0 <= i < |WriterOf(st, kind).entries| ==>
              var id := WriterOf(st, kind).entries[i];
              id < |st.status| && Marked(st.status, WriterOf(st, kind).entries, mark)[id] == mark(st.status[id])
  {
    assert forall i :: 0 <= i < |WriterOf(st, kind).entries| ==> WriterOf(st, kind).entries[i] in WriterOf(st, kind).entries;
  }

  /** What the invariants say of one row before its batch is marked. */
  lemma MarkedRow(st: Store, kind: Kind, id: Id, windowMs: nat)
    requires Inv(st, windowMs) && id < |st.rows|
    ensures RowInv(st, id) && HeldInv(st, id, windowMs)
    ensures id in WriterOf(st, kind).entries ==>
              && st.rows[id].kind == kind && id !in st.acked && id !in st.rejected
              && st.status[id] == if WriterOf(st, kind).sending then Inserting else Pending
  {
    assert WriterInv(st, kind);
    if id in WriterOf(st, kind).entries {
      BatchEntry(st, kind, id);
    }
    assert RowInv(st, id);
  }

  lemma AckKeepsInv(st: Store, kind: Kind, now: int, windowMs: nat)
    requires Inv(st, windowMs) && Enabled(st, Ack(kind), now)
    ensures Inv(Next(st, Ack(kind), now, windowMs), windowMs)
  {
    var t := Next(st, Ack(kind), now, windowMs);
    assert WriterInv(st, kind);
    forall k ensures WriterInv(t, k) {
      assert WriterInv(st, k);
      if k != kind {
        OtherBatchStays(st, kind, k, _ => Confirmed);
      }
    }
    forall id: Id | id < |t.rows| ensures RowInv(t, id) && HeldInv(t, id, windowMs) {
      MarkedRow(st, kind, id, windowMs);
      assert t.status[id] == if id in WriterOf(st, kind).entries then Confirmed else st.status[id];
    }
    forall id | id in t.acked || id in t.rejected || id in t.visible ensures id < |t.rows| {
      if id in WriterOf(st, kind).entries {
        BatchEntry(st, kind, id);
      }
    }
    forall player ensures BucketInv(t, player) {
      assert BucketInv(st, player);
    }
  }

  lemma RejectKeepsInv(st: Store, kind: Kind, landed: bool, now: int, windowMs: nat)
    requires Inv(st, windowMs) && Enabled(st, Reject(kind, landed), now)
    ensures Inv(Next(st, Reject(kind, landed), now, windowMs), windowMs)
  {
    var t := Next(st, Reject(kind, landed), now, windowMs);
    assert WriterInv(st, kind);
    forall k ensures WriterInv(t, k) {
      assert WriterInv(st, k);
      if k != kind {
        OtherBatchStays(st, kind, k, Reverted);
      }
    }
    forall id: Id | id < |t.rows| ensures RowInv(t, id) && HeldInv(t, id, windowMs) {
      MarkedRow(st, kind, id, windowMs);
      assert t.status[id] == if id in WriterOf(st, kind).entries then Reverted(st.status[id]) else st.status[id];
    }
    forall id | id in t.acked || id in t.rejected || id in t.visible ensures id < |t.rows| {
      if id in WriterOf(st, kind).entries {
        BatchEntry(st, kind, id);
      }
    }
    forall player ensures BucketInv(t, player) {
      assert BucketInv(st, player);
    }
  }

  lemma {:induction false} SurvivorsIncrease(st: Store, ids: seq<Id>, cutoffMs: int)
    requires Increasing(ids)
    ensures Increasing(Survivors(st, ids, cutoffMs))
  {
    if ids != [] {
      var n := |ids| - 1;
      SurvivorsIncrease(st, ids[..n], cutoffMs);
      var kept := Survivors(st, ids[..n], cutoffMs);
      SurvivorsAre(st, ids[..n], cutoffMs);
      forall i | 0 <= i < |kept| ensures kept[i] < ids[n] {
        assert kept[i] in ids[..n];
      }
    }
  }

  lemma EvictKeepsRow(st: Store, now: int, windowMs: nat, id: Id)
    requires Inv(st, windowMs) && Enabled(st, Evict, now) && id < |st.rows|
    ensures RowInv(Next(st, Evict, now, windowMs), id) && HeldInv(Next(st, Evict, now, windowMs), id, windowMs)
  {
    assert RowInv(st, id) && HeldInv(st, id, windowMs);
    SurvivorsAre(st, BucketOf(st, st.rows[id].player), now - windowMs);
  }

  lemma EvictKeepsBucket(st: Store, now: int, windowMs: nat, player: string)
    requires BucketInv(st, player)
    ensures BucketInv(Next(st, Evict, now, windowMs), player)
  {
    SurvivorsAre(st, BucketOf(st, player), now - windowMs);
    SurvivorsIncrease(st, BucketOf(st, player), now - windowMs);
  }

  lemma EvictKeepsInv(st: Store, now: int, windowMs: nat)
    requires Inv(st, windowMs) && Enabled(st, Evict, now)
    ensures Inv(Next(st, Evict, now, windowMs), windowMs)
  {
    var t := Next(st, Evict, now, windowMs);
    forall k ensures WriterInv(t, k) {
      assert WriterInv(st, k);
    }
    forall id: Id | id < |t.rows| ensures RowInv(t, id) && HeldInv(t, id, windowMs) {
      EvictKeepsRow(st, now, windowMs, id);
    }
    forall player ensures BucketInv(t, player) {
      assert BucketInv(st, player);
      EvictKeepsBucket(st, now, windowMs, player);
    }
  }

  // ---------- over whole runs ----------

  datatype Event = Event(action: Action, now: int)

  /** The store after the first k events of a run that starts empty. */
  function Exec(clock: int, run: seq<Event>, k: nat, windowMs: nat): Store
    requires k <= |run|
  {
    if k == 0 then EmptyStore(clock)
    else Next(Exec(clock, run, k - 1, windowMs), run[k - 1].action, run[k - 1].now, windowMs)
  }

  predicate PossibleAt(clock: int, run: seq<Event>, k: nat, windowMs: nat) {
    k < |run| && Enabled(Exec(clock, run, k, windowMs), run[k].action, run[k].now)
  }

  ghost predicate Possible(clock: int, run: seq<Event>, windowMs: nat) {
    forall i: nat {:trigger PossibleAt(clock, run, i, windowMs)} :: i < |run| ==> PossibleAt(clock, run, i, windowMs)
  }

  lemma {:induction false} RunKeepsInv(clock: int, run: seq<Event>, k: nat, windowMs: nat)
    requires Possible(clock, run, windowMs) && k <= |run|
    ensures Inv(Exec(clock, run, k, windowMs), windowMs)
  {
    if k > 0 {
      RunKeepsInv(clock, run, k - 1, windowMs);
      assert PossibleAt(clock, run, k - 1, windowMs);
      StepKeepsInv(Exec(clock, run, k - 1, windowMs), run[k - 1].action, run[k - 1].now, windowMs);
    }
  }

  /** A row is in its bucket or its INSERT was acknowledged; it still waits in its batch exactly when it was
      neither acknowledged nor rejected. */
  ghost predicate NotLost(st: Store, id: Id) {
    id < |st.rows| ==>
      && (id in BucketOf(st, st.rows[id].player) || id in st.acked)
      && (id in WriterOf(st, st.rows[id].kind).entries <==> id !in st.acked && id !in st.rejected)
  }

  /** Nothing is lost to readers in any reachable state. */
  lemma NoReadSideLoss(clock: int, run: seq<Event>, k: nat, windowMs: nat, id: Id)
    requires Possible(clock, run, windowMs) && k <= |run|
    ensures NotLost(Exec(clock, run, k, windowMs), id)
  {
    RunKeepsInv(clock, run, k, windowMs);
    var st := Exec(clock, run, k, windowMs);
    assert id < |st.rows| ==> RowInv(st, id) && HeldInv(st, id, windowMs);
  }

  /** The batches stay in lockstep with the ring, whatever was acknowledged or rejected before. */
  lemma BatchesStayInStep(clock: int, run: seq<Event>, k: nat, windowMs: nat, kind: Kind, i: nat)
    requires Possible(clock, run, windowMs) && k <= |run|
    requires i < |WriterOf(Exec(clock, run, k, windowMs), kind).buf|
    ensures var st := Exec(clock, run, k, windowMs);
            var w := WriterOf(st, kind);
            |w.entries| == |w.buf| && w.entries[i] < |st.rows| && w.buf[i] == st.rows[w.entries[i]]
  {
    RunKeepsInv(clock, run, k, windowMs);
    assert WriterInv(Exec(clock, run, k, windowMs), kind);
  }

  /** A rejected INSERT leaves its rows pending for good: they are never inserted again, and however old they
      are they stay in the ring. */
  lemma RejectedStaysInRing(clock: int, run: seq<Event>, k: nat, windowMs: nat, id: Id)
    requires Possible(clock, run, windowMs) && k <= |run| && id in Exec(clock, run, k, windowMs).rejected
    ensures var st := Exec(clock, run, k, windowMs);
            && id < |st.rows| && id < |st.status| && id in BucketOf(st, st.rows[id].player)
            && st.status[id] == Pending && id !in st.acked
  {
    RunKeepsInv(clock, run, k, windowMs);
    var st := Exec(clock, run, k, windowMs);
    assert RowInv(st, id) && HeldInv(st, id, windowMs);
  }

  /** An eviction at `now` keeps of each bucket exactly the rows that are not confirmed or not older than the window. */
  ghost predicate Swept(before: Store, after: Store, now: int, windowMs: nat) {
    forall player: string, id: Id ::
      id in BucketOf(after, player) <==>
      && id in BucketOf(before, player) && id < |after.rows| && id < |after.status|
      && !(after.status[id] == Confirmed && after.rows[id].tsMs < now - windowMs)
  }

  lemma EvictionSweeps(clock: int, run: seq<Event>, k: nat, windowMs: nat)
    requires Possible(clock, run, windowMs) && k < |run| && run[k].action == Evict
    ensures Swept(Exec(clock, run, k, windowMs), Exec(clock, run, k + 1, windowMs), run[k].now, windowMs)
  {
    RunKeepsInv(clock, run, k, windowMs);
    StepSweeps(Exec(clock, run, k, windowMs), run[k].now, windowMs);
  }

  lemma StepSweeps(st: Store, now: int, windowMs: nat)
    requires Inv(st, windowMs)
    ensures Swept(st, Next(st, Evict, now, windowMs), now, windowMs)
  {
    var t := Next(st, Evict, now, windowMs);
    forall player: string, id: Id
      ensures id in BucketOf(t, player) <==>
              && id in BucketOf(st, player) && id < |t.rows| && id < |t.status|
              && !(t.status[id] == Confirmed && t.rows[id].tsMs < now - windowMs)
    {
      assert BucketInv(st, player);
      SurvivorsAre(st, BucketOf(st, player), now - windowMs);
    }
  }

  /** What was given, acknowledged or rejected stays so: a confirmed row never reverts. */
  lemma StepIsMonotone(st: Store, a: Action, now: int, windowMs: nat)
    requires Inv(st, windowMs) && Enabled(st, a, now)
    ensures var t := Next(st, a, now, windowMs);
            && st.rows <= t.rows && st.acked <= t.acked && st.rejected <= t.rejected && st.visible <= t.visible
            && |t.status| == |t.rows|
            && forall id: Id :: id < |st.rows| && st.status[id] == Confirmed ==> t.status[id] == Confirmed
  {
    StepKeepsInv(st, a, now, windowMs);
    var t := Next(st, a, now, windowMs);
    forall id: Id | id < |st.rows| && st.status[id] == Confirmed ensures t.status[id] == Confirmed {
      assert RowInv(st, id) && RowInv(t, id);
    }
  }

  predicate ConfirmedIn(st: Store, id: Id) {
    id < |st.status| && st.status[id] == Confirmed
  }

  lemma ConfirmedStays(st: Store, a: Action, now: int, windowMs: nat, id: Id)
    requires Inv(st, windowMs) && Enabled(st, a, now) && ConfirmedIn(st, id)
    ensures ConfirmedIn(Next(st, a, now, windowMs), id)
  {
    StepIsMonotone(st, a, now, windowMs);
  }

  lemma ConfirmedStaysInRun(clock: int, run: seq<Event>, k: nat, windowMs: nat, id: Id)
    requires Possible(clock, run, windowMs) && k < |run| && ConfirmedIn(Exec(clock, run, k, windowMs), id)
    ensures ConfirmedIn(Exec(clock, run, k + 1, windowMs), id)
  {
    RunKeepsInv(clock, run, k, windowMs);
    assert PossibleAt(clock, run, k, windowMs);
    ConfirmedStays(Exec(clock, run, k, windowMs), run[k].action, run[k].now, windowMs, id);
  }

  lemma {:induction false} ConfirmedNeverReverts(clock: int, run: seq<Event>, j: nat, k: nat, windowMs: nat, id: Id)
    requires Possible(clock, run, windowMs) && j <= k <= |run|
    requires ConfirmedIn(Exec(clock, run, j, windowMs), id)
    ensures ConfirmedIn(Exec(clock, run, k, windowMs), id)
    decreases k - j
  {
    if j < k {
      ConfirmedStaysInRun(clock, run, j, windowMs, id);
      ConfirmedNeverReverts(clock, run, j + 1, k, windowMs, id);
    }
  }
}
