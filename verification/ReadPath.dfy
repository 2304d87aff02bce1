/** A stream reader among the writers: it subscribes, scans ClickHouse and the ring for each stream, then
    tails the live rows, all through one set of emitted fingerprints. */
module ReadPath {
  import opened Wrappers
  import opened RingStates
  import opened EmittedSet
  import opened WritePath

  /** A ring scan: how many rows there had been, and its time. */
  datatype Mark = Mark(count: nat, now: int)

  /** `play` is the requested play, or empty for any; plays are compared regardless of case, so both sides
      hold the lower-case form. */
  datatype Reader = Reader(
    player: string, play: string, enabled: set<Stream>, capacity: nat,
    subscribedAt: Option<nat>, queue: seq<Id>, dropped: set<Id>,
    queried: map<Stream, set<Id>>, scanned: map<Stream, Mark>,
    seen: Seen, out: seq<Emission>)

  datatype System = System(store: Store, reader: Reader)

  datatype Move =
    | Write(action: Action)
    | Subscribe
    | ScanClickHouse(stream: Stream, rows: seq<Id>)
    | ScanRing(stream: Stream, rows: seq<Id>)
    | Receive

  /** The window of the ring, and the rows the reader's query selects. */
  datatype Setting = Setting(windowMs: nat, selects: Row -> bool)

  const LOOKAHEAD_MS: nat := 1000

  function KeyOf(row: Row): Key {
    Key(StreamOf(row.kind), row.fp)
  }

  function NewReader(player: string, play: string, enabled: set<Stream>, capacity: nat): Reader {
    Reader(player, play, enabled, capacity, None, [], {}, map[], map[], Seen({}, 0), [])
  }

  predicate ForReader(sys: System, stream: Stream, id: Id) {
    id < |sys.store.rows| && sys.store.rows[id].player == sys.reader.player && StreamOf(sys.store.rows[id].kind) == stream
  }

  predicate Tailed(r: Reader, row: Row) {
    StreamOf(row.kind) in r.enabled && (r.play == "" || row.play == r.play)
  }

  predicate InScan(sys: System, stream: Stream, id: Id, now: int, windowMs: nat) {
    && ForReader(sys, stream, id) && id in BucketOf(sys.store, sys.reader.player)
    && now - windowMs <= sys.store.rows[id].tsMs <= now + LOOKAHEAD_MS
  }

  /** The backfill takes the enabled streams that pass through the ring; each is queried, then overlaid. */
  predicate BackfillDone(r: Reader) {
    (Events in r.enabled ==> Events in r.scanned) && (NetworkLog in r.enabled ==> NetworkLog in r.scanned)
  }

  ghost predicate CanMove(sys: System, m: Move, now: int, env: Setting) {
    var r := sys.reader;
    && sys.store.clock <= now
    && match m
       case Write(a) => Enabled(sys.store, a, now)
       case Subscribe => r.subscribedAt.None?
       case ScanClickHouse(stream, rows) =>
         && r.subscribedAt.Some? && stream in r.enabled && stream !in r.queried
         && forall id :: id in rows <==> id in sys.store.visible && ForReader(sys, stream, id) && env.selects(sys.store.rows[id])
       case ScanRing(stream, rows) =>
         && stream in r.queried && stream !in r.scanned
         && forall id :: id in rows <==> InScan(sys, stream, id, now, env.windowMs)
       case Receive => r.subscribedAt.Some? && BackfillDone(r) && r.queue != []
  }

  function Keys(rows: seq<Row>, ids: seq<Id>): (ks: seq<Key>)
    ensures |ks| == |ids|
  {
    seq(|ids|, i requires 0 <= i < |ids| => if ids[i] < |rows| then KeyOf(rows[ids[i]]) else Key(Events, ""))
  }

  function Emit(r: Reader, ks: seq<Key>): Reader {
    r.(seen := GrownBy(r.seen, ks), out := Log(r.seen, r.out, ks))
  }

  /** An Add fans out to the reader's channel, if it is subscribed. */
  function Pushed(r: Reader, row: Row, id: Id): Reader {
    if r.subscribedAt.None? || row.player != r.player then r
    else r.(queue := Offered(r.queue, r.capacity, id), dropped := r.dropped + if |r.queue| < r.capacity then {} else {id})
  }

  function Moved(sys: System, m: Move, now: int, env: Setting): System {
    var r, ticked := sys.reader, sys.store.(clock := now);
    match m
    case Write(a) =>
      System(Next(sys.store, a, now, env.windowMs), if a.Arrive? then Pushed(r, a.row, |sys.store.rows|) else r)
    case Subscribe => System(ticked, r.(subscribedAt := Some(|sys.store.rows|)))
    case ScanClickHouse(stream, rows) =>
      System(ticked, Emit(r, Keys(sys.store.rows, rows)).(queried := r.queried[stream := SetOf(rows)]))
    case ScanRing(stream, rows) =>
      System(ticked, Emit(r, Keys(sys.store.rows, rows)).(scanned := r.scanned[stream := Mark(|sys.store.rows|, now)]))
    case Receive =>
      if r.queue == [] then sys
      else
        var id, rest := r.queue[0], r.(queue := r.queue[1..]);
        System(ticked, if id < |sys.store.rows| && Tailed(r, sys.store.rows[id]) then Emit(rest, [KeyOf(sys.store.rows[id])]) else rest)
  }

  // ---------- what the reader must deliver ----------

  /** In the window when its stream's ring scan ran. */
  predicate ByScan(sys: System, windowMs: nat, id: Id) {
    id < |sys.store.rows| &&
    var row := sys.store.rows[id];
    var stream := StreamOf(row.kind);
    && row.player == sys.reader.player && stream in sys.reader.scanned
    && id < sys.reader.scanned[stream].count && row.tsMs >= sys.reader.scanned[stream].now - windowMs
  }

  /** In ClickHouse and selected when its stream's query ran. */
  predicate ByQuery(sys: System, id: Id) {
    id < |sys.store.rows| &&
    var stream := StreamOf(sys.store.rows[id].kind);
    stream in sys.reader.queried && id in sys.reader.queried[stream]
  }

  /** Added after Subscribe, for the requested play, with room in the channel. */
  predicate ByTail(sys: System, id: Id) {
    id < |sys.store.rows| &&
    var r, row := sys.reader, sys.store.rows[id];
    && row.player == r.player && r.subscribedAt.Some? && r.subscribedAt.value <= id
    && id !in r.dropped && Tailed(r, row)
  }

  predicate Covered(sys: System, windowMs: nat, id: Id) {
    ByScan(sys, windowMs, id) || ByQuery(sys, id) || ByTail(sys, id)
  }

  ghost predicate DoneOrQueued(sys: System, windowMs: nat, id: Id) {
    && (ByScan(sys, windowMs, id) || ByQuery(sys, id) ==> Wrote(sys.reader.out, KeyOf(sys.store.rows[id])))
    && (ByTail(sys, id) ==> Wrote(sys.reader.out, KeyOf(sys.store.rows[id])) || id in sys.reader.queue)
  }

  ghost predicate FromCovered(sys: System, windowMs: nat, e: Emission) {
    exists id: Id :: Covered(sys, windowMs, id) && KeyOf(sys.store.rows[id]) == e.key
  }

  ghost predicate ChannelInv(sys: System) {
    var r := sys.reader;
    && (r.subscribedAt.None? ==> r.queue == [] && r.queried == map[] && r.scanned == map[])
    && (r.subscribedAt.Some? ==> r.subscribedAt.value <= |sys.store.rows|)
    && (forall id :: id in r.queue ==>
          id < |sys.store.rows| && sys.store.rows[id].player == r.player && r.subscribedAt.value <= id && id !in r.dropped)
    && (forall id :: id in r.dropped ==> id < |sys.store.rows|)
    && (forall s :: s in r.scanned ==> s in r.queried && r.subscribedAt.value <= r.scanned[s].count <= |sys.store.rows|)
    && (forall s, id :: s in r.queried && id in r.queried[s] ==> ForReader(sys, s, id))
  }

  ghost predicate ReaderInv(sys: System, env: Setting) {
    && Inv(sys.store, env.windowMs)
    && ChannelInv(sys)
    && Consistent(sys.reader.seen, sys.reader.out) && OncePerEpoch(sys.reader.out)
    && (forall id: Id :: id < |sys.store.rows| ==> DoneOrQueued(sys, env.windowMs, id))
    && (forall e :: e in sys.reader.out ==> FromCovered(sys, env.windowMs, e))
  }

  lemma ReaderStarts(clock: int, player: string, play: string, enabled: set<Stream>, capacity: nat, env: Setting)
    ensures ReaderInv(System(EmptyStore(clock), NewReader(player, play, enabled, capacity)), env)
  {
    StartHolds(clock, env.windowMs);
  }

  lemma TickKeepsInv(st: Store, now: int, windowMs: nat)
    requires Inv(st, windowMs) && st.clock <= now
    ensures Inv(st.(clock := now), windowMs)
  {
    var t := st.(clock := now);
    forall kind ensures WriterInv(t, kind) {
      assert WriterInv(st, kind);
    }
    forall id: Id | id < |t.rows| ensures RowInv(t, id) && HeldInv(t, id, windowMs) {
      assert RowInv(st, id) && HeldInv(st, id, windowMs);
    }
    forall player ensures BucketInv(t, player) {
      assert BucketInv(st, player);
    }
  }

  // ---------- every move keeps it ----------

  lemma WriteKeepsInv(sys: System, a: Action, now: int, env: Setting)
    requires ReaderInv(sys, env) && CanMove(sys, Write(a), now, env)
    ensures ReaderInv(Moved(sys, Write(a), now, env), env)
  {
    var sys' := Moved(sys, Write(a), now, env);
    StepKeepsInv(sys.store, a, now, env.windowMs);
    StepIsMonotone(sys.store, a, now, env.windowMs);
    WriteKeepsChannel(sys, sys', a);
    forall id: Id | id < |sys'.store.rows| ensures DoneOrQueued(sys', env.windowMs, id) {
      WriteKeepsRow(sys, sys', a, id, env);
    }
    SourcesStay(sys, sys', env.windowMs);
  }

  /** The reader after a write, whatever else the write did. */
  predicate Follows(sys: System, sys': System, a: Action) {
    && |sys'.store.rows| == |sys.store.rows| + (if a.Arrive? then 1 else 0)
    && sys'.store.rows[..|sys.store.rows|] == sys.store.rows
    && (a.Arrive? ==> sys'.store.rows[|sys.store.rows|] == a.row)
    && sys'.reader == if a.Arrive? then Pushed(sys.reader, a.row, |sys.store.rows|) else sys.reader
  }

  lemma WriteKeepsChannel(sys: System, sys': System, a: Action)
    requires ChannelInv(sys) && Follows(sys, sys', a)
    ensures ChannelInv(sys')
  {
    assert forall i :: 0 <= i < |sys.store.rows| ==> sys'.store.rows[i] == sys.store.rows[i];
  }

  lemma WriteKeepsRow(sys: System, sys': System, a: Action, id: Id, env: Setting)
    requires ReaderInv(sys, env) && Follows(sys, sys', a) && id < |sys'.store.rows|
    ensures DoneOrQueued(sys', env.windowMs, id)
  {
    if id < |sys.store.rows| {
      assert DoneOrQueued(sys, env.windowMs, id);
      assert sys'.store.rows[id] == sys.store.rows[id];
    }
  }

  /** Covered rows stay covered, so what was written keeps its source. */
  lemma SourcesStay(sys: System, sys': System, windowMs: nat)
    requires sys.store.rows <= sys'.store.rows
    requires forall id: Id :: Covered(sys, windowMs, id) ==> Covered(sys', windowMs, id)
    ensures forall e :: FromCovered(sys, windowMs, e) ==> FromCovered(sys', windowMs, e)
  {
    forall e | FromCovered(sys, windowMs, e) ensures FromCovered(sys', windowMs, e) {
      var id: Id :| Covered(sys, windowMs, id) && KeyOf(sys.store.rows[id]) == e.key;
      assert Covered(sys', windowMs, id) && KeyOf(sys'.store.rows[id]) == e.key;
    }
  }

  lemma SubscribeKeepsInv(sys: System, now: int, env: Setting)
    requires ReaderInv(sys, env) && CanMove(sys, Subscribe, now, env)
    ensures ReaderInv(Moved(sys, Subscribe, now, env), env)
  {
    var sys' := Moved(sys, Subscribe, now, env);
    TickKeepsInv(sys.store, now, env.windowMs);
    forall id: Id | id < |sys'.store.rows| ensures DoneOrQueued(sys', env.windowMs, id) {
      assert DoneOrQueued(sys, env.windowMs, id);
    }
    SourcesStay(sys, sys', env.windowMs);
  }

  /** What emitting a list of rows leaves of the reader's invariant. */
  lemma EmitWrites(r: Reader, rows: seq<Row>, ids: seq<Id>)
    requires Consistent(r.seen, r.out) && OncePerEpoch(r.out)
    requires forall id :: id in ids ==> id < |rows|
    ensures var r' := Emit(r, Keys(rows, ids));
            && Consistent(r'.seen, r'.out) && OncePerEpoch(r'.out)
            && (forall id :: id in ids ==> Wrote(r'.out, KeyOf(rows[id])))
            && (forall k :: Wrote(r.out, k) ==> Wrote(r'.out, k))
            && (forall e :: e in r'.out ==> e in r.out || exists id: Id :: id in ids && e.key == KeyOf(rows[id]))
  {
    var ks := Keys(rows, ids);
    OffersKeepOnce(r.seen, r.out, ks);
    forall id | id in ids ensures KeyOf(rows[id]) in ks {
      var i :| 0 <= i < |ids| && ids[i] == id;
      assert ks[i] == KeyOf(rows[id]);
    }
    forall k | k in ks ensures exists id: Id :: id in ids && k == KeyOf(rows[id]) {
      var i :| 0 <= i < |ks| && ks[i] == k;
      assert ids[i] in ids && k == KeyOf(rows[ids[i]]);
    }
  }

  /** A scan that emits exactly the rows it newly covers. */
  lemma EmissionKeepsInv(sys: System, sys': System, ids: seq<Id>, env: Setting)
    requires ReaderInv(sys, env) && Inv(sys'.store, env.windowMs) && ChannelInv(sys')
    requires sys'.store.rows == sys.store.rows && sys'.reader.queue == sys.reader.queue
    requires forall id :: id in ids ==> id < |sys.store.rows|
    requires var r := Emit(sys.reader, Keys(sys.store.rows, ids));
             sys'.reader.seen == r.seen && sys'.reader.out == r.out
    requires forall id: Id :: Covered(sys', env.windowMs, id) <==> Covered(sys, env.windowMs, id) || id in ids
    requires forall id: Id :: ByTail(sys', id) <==> ByTail(sys, id)
    requires forall id: Id :: ByScan(sys', env.windowMs, id) || ByQuery(sys', id) ==> ByScan(sys, env.windowMs, id) || ByQuery(sys, id) || id in ids
    ensures ReaderInv(sys', env)
  {
    EmitWrites(sys.reader, sys.store.rows, ids);
    forall id: Id | id < |sys'.store.rows| ensures DoneOrQueued(sys', env.windowMs, id) {
      assert DoneOrQueued(sys, env.windowMs, id);
    }
    SourcesStay(sys, sys', env.windowMs);
    forall e | e in sys'.reader.out ensures FromCovered(sys', env.windowMs, e) {
      if e !in sys.reader.out {
        var id: Id :| id in ids && e.key == KeyOf(sys.store.rows[id]);
        assert Covered(sys', env.windowMs, id);
      }
    }
  }

  lemma QueryKeepsInv(sys: System, stream: Stream, rows: seq<Id>, now: int, env: Setting)
    requires ReaderInv(sys, env) && CanMove(sys, ScanClickHouse(stream, rows), now, env)
    ensures ReaderInv(Moved(sys, ScanClickHouse(stream, rows), now, env), env)
  {
    var sys' := Moved(sys, ScanClickHouse(stream, rows), now, env);
    TickKeepsInv(sys.store, now, env.windowMs);
    forall id: Id ensures ByQuery(sys', id) <==> ByQuery(sys, id) || id in rows {
    }
    EmissionKeepsInv(sys, sys', rows, env);
  }

  lemma ScanKeepsInv(sys: System, stream: Stream, rows: seq<Id>, now: int, env: Setting)
    requires ReaderInv(sys, env) && CanMove(sys, ScanRing(stream, rows), now, env)
    ensures ReaderInv(Moved(sys, ScanRing(stream, rows), now, env), env)
  {
    var sys' := Moved(sys, ScanRing(stream, rows), now, env);
    TickKeepsInv(sys.store, now, env.windowMs);
    forall id: Id ensures ByScan(sys', env.windowMs, id) <==> ByScan(sys, env.windowMs, id) || id in rows {
      if ForReader(sys, stream, id) && sys.store.rows[id].tsMs >= now - env.windowMs {
        InWindowIsHeld(sys, stream, id, now, env.windowMs);
      }
    }
    EmissionKeepsInv(sys, sys', rows, env);
  }

  /** A row young enough for the scan has not been evicted, whatever its state. */
  lemma InWindowIsHeld(sys: System, stream: Stream, id: Id, now: int, windowMs: nat)
    requires Inv(sys.store, windowMs) && sys.store.clock <= now && ForReader(sys, stream, id)
    requires sys.store.rows[id].tsMs >= now - windowMs
    ensures InScan(sys, stream, id, now, windowMs)
  {
    assert HeldInv(sys.store, id, windowMs);
  }

  lemma HeadAndRest(queue: seq<Id>)
    requires queue != []
    ensures forall x :: x in queue <==> x == queue[0] || x in queue[1..]
  {
    assert queue == [queue[0]] + queue[1..];
  }

  lemma ReceiveKeepsInv(sys: System, now: int, env: Setting)
    requires ReaderInv(sys, env) && CanMove(sys, Receive, now, env)
    ensures ReaderInv(Moved(sys, Receive, now, env), env)
  {
    var r, id := sys.reader, sys.reader.queue[0];
    HeadAndRest(r.queue);
    assert id in r.queue;
    var row := sys.store.rows[id];
    var rest := r.(queue := r.queue[1..]);
    TickKeepsInv(sys.store, now, env.windowMs);
    if Tailed(r, row) {
      OffersKeepOnce(r.seen, r.out, [KeyOf(row)]);
      assert KeyOf(row) in [KeyOf(row)];
      assert ByTail(sys, id);
      ReceivedKeepsInv(sys, System(sys.store.(clock := now), Emit(rest, [KeyOf(row)])), id, env);
    } else {
      ReceivedKeepsInv(sys, System(sys.store.(clock := now), rest), id, env);
    }
  }

  /** The tail starts once the enabled streams that pass through the ring have been queried and overlaid. */
  lemma TailFollowsBackfill(sys: System, now: int, env: Setting)
    requires ReaderInv(sys, env) && CanMove(sys, Receive, now, env)
    ensures forall stream :: stream in {Events, NetworkLog} && stream in sys.reader.enabled ==>
              stream in sys.reader.queried && stream in sys.reader.scanned
  {
  }

  /** A row of another play or of a stream that is not enabled is dropped; of any other row the key is offered. */
  lemma ReceiveRespectsRequest(sys: System, now: int, env: Setting)
    requires ReaderInv(sys, env) && CanMove(sys, Receive, now, env)
    ensures var r, r', id := sys.reader, Moved(sys, Receive, now, env).reader, sys.reader.queue[0];
            && id < |sys.store.rows| && r'.queue == r.queue[1..]
            && var row := sys.store.rows[id];
               var k := Key(if row.kind == Sample then Events else NetworkLog, row.fp);
               if (r.play == "" || row.play == r.play) && k.stream in r.enabled
               then r'.out == r.out + Written(r.seen, k) && r'.seen == Grown(r.seen, k)
               else r'.out == r.out && r'.seen == r.seen
  {
    var r, id := sys.reader, sys.reader.queue[0];
    assert id in r.queue;
    var k := KeyOf(sys.store.rows[id]);
    assert [k][..0] == [];
    assert Log(r.seen, r.out, [k]) == r.out + Written(r.seen, k);
  }

  /** The head of the queue was written, or is not for this reader. */
  lemma ReceivedKeepsInv(sys: System, sys': System, id: Id, env: Setting)
    requires ReaderInv(sys, env) && Inv(sys'.store, env.windowMs) && sys.reader.queue != [] && id == sys.reader.queue[0]
    requires sys'.store.rows == sys.store.rows && id < |sys.store.rows|
    requires sys'.reader == sys.reader.(queue := sys.reader.queue[1..], seen := sys'.reader.seen, out := sys'.reader.out)
    requires Consistent(sys'.reader.seen, sys'.reader.out) && OncePerEpoch(sys'.reader.out)
    requires forall k :: Wrote(sys.reader.out, k) ==> Wrote(sys'.reader.out, k)
    requires forall e :: e in sys'.reader.out ==> e in sys.reader.out || (ByTail(sys, id) && e.key == KeyOf(sys.store.rows[id]))
    requires Wrote(sys'.reader.out, KeyOf(sys.store.rows[id])) || !Tailed(sys.reader, sys.store.rows[id])
    ensures ReaderInv(sys', env)
  {
    HeadAndRest(sys.reader.queue);
    forall x: Id | x < |sys'.store.rows| ensures DoneOrQueued(sys', env.windowMs, x) {
      assert DoneOrQueued(sys, env.windowMs, x);
    }
    SourcesStay(sys, sys', env.windowMs);
    forall e | e in sys'.reader.out ensures FromCovered(sys', env.windowMs, e) {
      if e !in sys.reader.out {
        assert Covered(sys', env.windowMs, id);
      }
    }
  }

  lemma MoveKeepsInv(sys: System, m: Move, now: int, env: Setting)
    requires ReaderInv(sys, env) && CanMove(sys, m, now, env)
    ensures ReaderInv(Moved(sys, m, now, env), env)
  {
    match m
    case Write(a) => WriteKeepsInv(sys, a, now, env);
    case Subscribe => SubscribeKeepsInv(sys, now, env);
    case ScanClickHouse(stream, rows) => QueryKeepsInv(sys, stream, rows, now, env);
    case ScanRing(stream, rows) => ScanKeepsInv(sys, stream, rows, now, env);
    case Receive => ReceiveKeepsInv(sys, now, env);
  }

  // ---------- over whole runs ----------

  datatype Occurrence = Occurrence(move: Move, now: int)

  /** The system after the first k moves of a run. */
  function Run(start: System, run: seq<Occurrence>, k: nat, env: Setting): System
    requires k <= |run|
  {
    if k == 0 then start else Moved(Run(start, run, k - 1, env), run[k - 1].move, run[k - 1].now, env)
  }

  ghost predicate FeasibleAt(start: System, run: seq<Occurrence>, k: nat, env: Setting) {
    k < |run| && CanMove(Run(start, run, k, env), run[k].move, run[k].now, env)
  }

  ghost predicate Feasible(start: System, run: seq<Occurrence>, env: Setting) {
    forall k: nat {:trigger FeasibleAt(start, run, k, env)} :: k < |run| ==> FeasibleAt(start, run, k, env)
  }

  lemma {:induction false} RunKeepsReaderInv(start: System, run: seq<Occurrence>, k: nat, env: Setting)
    requires ReaderInv(start, env) && Feasible(start, run, env) && k <= |run|
    ensures ReaderInv(Run(start, run, k, env), env)
  {
    if k > 0 {
      RunKeepsReaderInv(start, run, k - 1, env);
      assert FeasibleAt(start, run, k - 1, env);
      MoveKeepsInv(Run(start, run, k - 1, env), run[k - 1].move, run[k - 1].now, env);
    }
  }

  function Start(clock: int, r: Reader): System {
    System(EmptyStore(clock), r)
  }

  ghost predicate IsNew(r: Reader) {
    r == NewReader(r.player, r.play, r.enabled, r.capacity)
  }

  /** Under every interleaving of arrivals, flushes, evictions and one reader: once the channel is drained, a
      fingerprint has been written exactly when some covered row carries it, and none was written twice
      between resets of the emitted set. */
  lemma ReaderWritesTheCovered(clock: int, r: Reader, run: seq<Occurrence>, k: nat, env: Setting, key: Key)
    requires IsNew(r) && Feasible(Start(clock, r), run, env) && k <= |run|
    requires Run(Start(clock, r), run, k, env).reader.queue == []
    ensures var sys := Run(Start(clock, r), run, k, env);
            && OncePerEpoch(sys.reader.out)
            && (Wrote(sys.reader.out, key) <==> exists id: Id :: Covered(sys, env.windowMs, id) && KeyOf(sys.store.rows[id]) == key)
  {
    var sys := Run(Start(clock, r), run, k, env);
    ReaderStarts(clock, r.player, r.play, r.enabled, r.capacity, env);
    RunKeepsReaderInv(Start(clock, r), run, k, env);
    DrainedWritesTheCovered(sys, env, key);
  }

  lemma DrainedWritesTheCovered(sys: System, env: Setting, key: Key)
    requires ReaderInv(sys, env) && sys.reader.queue == []
    ensures Wrote(sys.reader.out, key) <==> exists id: Id :: Covered(sys, env.windowMs, id) && KeyOf(sys.store.rows[id]) == key
  {
    if Wrote(sys.reader.out, key) {
      var i :| 0 <= i < |sys.reader.out| && sys.reader.out[i].key == key;
      assert FromCovered(sys, env.windowMs, sys.reader.out[i]);
    }
    if id: Id :| Covered(sys, env.windowMs, id) && KeyOf(sys.store.rows[id]) == key {
      assert DoneOrQueued(sys, env.windowMs, id);
    }
  }

  /** No row of the player falls between the overlay and the tail: whenever it was added, and wherever it is in
      the write path, a row young enough at its stream's ring scan is written, provided that if it came after
      the scan it is for the requested play and found room. */
  lemma NothingFallsBetween(clock: int, r: Reader, run: seq<Occurrence>, k: nat, env: Setting, id: Id)
    requires IsNew(r) && Feasible(Start(clock, r), run, env) && k <= |run|
    requires var sys := Run(Start(clock, r), run, k, env);
             && sys.reader.queue == [] && id < |sys.store.rows|
             && var row := sys.store.rows[id];
                var stream := StreamOf(row.kind);
                && row.player == sys.reader.player && stream in sys.reader.scanned
                && row.tsMs >= sys.reader.scanned[stream].now - env.windowMs
                && (id >= sys.reader.scanned[stream].count ==> Tailed(sys.reader, row) && id !in sys.reader.dropped)
    ensures var sys := Run(Start(clock, r), run, k, env);
            Wrote(sys.reader.out, KeyOf(sys.store.rows[id]))
  {
    var sys := Run(Start(clock, r), run, k, env);
    ReaderStarts(clock, r.player, r.play, r.enabled, r.capacity, env);
    RunKeepsReaderInv(Start(clock, r), run, k, env);
    assert Covered(sys, env.windowMs, id);
    DrainedWritesTheCovered(sys, env, KeyOf(sys.store.rows[id]));
  }

  /** A row arrives; when it has just left the window a reader connects, queries and scans. */
  function LateReader(row: Row, late: int): seq<Occurrence> {
    [Occurrence(Write(Arrive(row)), 0), Occurrence(Subscribe, late),
     Occurrence(ScanClickHouse(Events, []), late), Occurrence(ScanRing(Events, []), late)]
  }

  /** A row whose INSERT has not been acknowledged by the time it is older than the window is not written to a
      reader that connects then, although the ring still holds it. */
  lemma StickyRowIsMissed(env: Setting, capacity: nat)
    ensures var start := Start(0, NewReader("p", "", {Events}, capacity));
            var run := LateReader(Row("p", Sample, 0, "f", ""), env.windowMs + 1);
            && Feasible(start, run, env)
            && var sys := Run(start, run, |run|, env);
               && BackfillDone(sys.reader) && sys.reader.queue == [] && sys.reader.out == []
               && BucketOf(sys.store, "p") == [0] && sys.store.status == [Pending] && |sys.store.rows| == 1
  {
    var start := Start(0, NewReader("p", "", {Events}, capacity));
    var row, late := Row("p", Sample, 0, "f", ""), env.windowMs + 1;
    var run := LateReader(row, late);
    assert Run(start, run, 0, env) == start;
    assert run[0] == Occurrence(Write(Arrive(row)), 0);
    var s1 := Run(start, run, 1, env);
    assert s1 == Moved(start, Write(Arrive(row)), 0, env);
    assert s1.store.rows == [] + [row] && s1.store.status == [] + [Pending] && BucketOf(s1.store, "p") == [] + [0];
    assert s1.reader == start.reader;
    var s2 := Run(start, run, 2, env);
    assert s2 == Moved(s1, Subscribe, late, env);
    assert Keys(s2.store.rows, []) == [];
    var s3 := Run(start, run, 3, env);
    assert s3 == Moved(s2, ScanClickHouse(Events, []), late, env);
    var s4 := Run(start, run, 4, env);
    assert s4 == Moved(s3, ScanRing(Events, []), late, env);
    assert FeasibleAt(start, run, 0, env) && FeasibleAt(start, run, 1, env) && FeasibleAt(start, run, 2, env);
    assert FeasibleAt(start, run, 3, env);
  }
}
