/** A stream reader's objects, move by move with the reader of ReadPath. */
module Streaming {
  import opened RingStates
  import opened EmittedSet
  import opened WritePath
  import opened ReadPath
  import opened Ring
  import opened StreamReader
  import FanOut
  import opened Forwarding

  lemma OneKey(s: Seen, log: seq<Emission>, k: Key)
    ensures GrownBy(s, [k]) == Grown(s, k) && Log(s, log, [k]) == log + Written(s, k)
  {
    assert [k][..0] == [];
  }

  /** The keys of entries are those of the rows they stand for. */
  lemma SameKeys(entries: seq<RingEntry>, ids: seq<Id>, log: seq<RingEntry>, rows: seq<Row>)
    requires Tracks(entries, ids, log) && |log| == |rows| && forall i :: 0 <= i < |log| ==> log[i].row == rows[i]
    ensures EntryKeys(entries) == Keys(rows, ids)
  {
  }

  /** The positions of entries in the log. */
  lemma {:induction false} Positions(entries: seq<RingEntry>, log: seq<RingEntry>) returns (ids: seq<Id>)
    requires forall e :: e in entries ==> e in log
    ensures Tracks(entries, ids, log)
  {
    ids := [];
    if entries != [] {
      var n := |entries| - 1;
      var before := Positions(entries[..n], log);
      assert entries[n] in log;
      var i: nat :| i < |log| && log[i] == entries[n];
      ids := before + [i];
    }
  }

  lemma InOverlay(entries: seq<RingEntry>, scanned: seq<RingEntry>, kind: Kind, fromMs: int, toMs: int, e: RingEntry)
    requires multiset(scanned) == multiset(InRange(entries, fromMs, toMs, {kind}))
    ensures e in scanned <==> e in entries && fromMs <= e.row.tsMs <= toMs && e.row.kind == kind
  {
    var selected: seq<RingEntry> := InRange(entries, fromMs, toMs, {kind});
    InRangeSelects(entries, fromMs, toMs, {kind});
    assert e in scanned <==> multiset(scanned)[e] > 0;
    assert e in selected <==> multiset(selected)[e] > 0;
  }

  lemma AllHeld(entries: seq<RingEntry>, scanned: seq<RingEntry>, kind: Kind, fromMs: int, toMs: int)
    requires multiset(scanned) == multiset(InRange(entries, fromMs, toMs, {kind}))
    ensures forall e :: e in scanned ==> e in entries
  {
    forall e | e in scanned ensures e in entries {
      InOverlay(entries, scanned, kind, fromMs, toMs, e);
    }
  }

  lemma Tracked<T>(items: seq<T>, ids: seq<Id>, log: seq<T>)
    requires Tracks(items, ids, log)
    ensures forall x :: x in items ==> x in log
    ensures forall id :: id in ids ==> id < |log|
  {
  }

  /** The reader with its channel, and the system in which ReadPath sees it. */
  class Session {
    const tail: Tail
    const ch: Channel
    ghost var log: seq<RingEntry>
    ghost var sys: System

    ghost predicate Valid()
      reads this, tail, tail.emitted, ch
    {
      && tail.Valid() && tail.play == sys.reader.play && tail.enabled == sys.reader.enabled
      && tail.out == sys.reader.out && tail.emitted.View() == sys.reader.seen
      && |log| == |sys.store.rows| && FanOut.Distinct(log)
      && (forall i :: 0 <= i < |log| ==> log[i].row == sys.store.rows[i])
      && Tracks(ch.queue, sys.reader.queue, log)
    }

    constructor (player: string, play: string, enabled: set<Stream>, capacity: nat, ghost clock: int)
      ensures Valid() && sys == System(EmptyStore(clock), NewReader(player, play, enabled, capacity))
    {
      tail := new Tail(play, enabled);
      ch := new Channel(capacity);
      log, sys := [], System(EmptyStore(clock), NewReader(player, play, enabled, capacity));
    }

    /** One turn of the live loop is the Receive move. */
    method Receive(ghost nowMs: int, ghost env: Setting)
      requires Valid() && CanMove(sys, ReadPath.Receive, nowMs, env)
      modifies this`sys, tail`written, tail`out, tail.emitted, ch`queue
      ensures Valid() && sys == Moved(old(sys), ReadPath.Receive, nowMs, env)
    {
      ghost var row := ch.queue[0].row;
      OneKey(sys.reader.seen, sys.reader.out, KeyOf(row));
      assert row == sys.store.rows[sys.reader.queue[0]];
      tail.StreamLiveDelta(ch);
      sys := Moved(sys, ReadPath.Receive, nowMs, env);
    }

    /** The rows of a query are those of the ScanClickHouse move. */
    method EmitQuery(rows: seq<Row>, stream: Stream, ghost ids: seq<Id>, ghost nowMs: int, ghost env: Setting)
      requires Valid() && CanMove(sys, ScanClickHouse(stream, ids), nowMs, env)
      requires |rows| == |ids| && forall i :: 0 <= i < |ids| ==> ids[i] < |sys.store.rows| && rows[i] == sys.store.rows[ids[i]]
      modifies this`sys, tail`written, tail`out, tail.emitted
      ensures Valid() && sys == Moved(old(sys), ScanClickHouse(stream, ids), nowMs, env)
    {
      var ks := seq(|rows|, i requires 0 <= i < |rows| => KeyOf(rows[i]));
      assert ks == Keys(sys.store.rows, ids);
      tail.EmitAll(ks);
      sys := Moved(sys, ScanClickHouse(stream, ids), nowMs, env);
    }

    /** The overlay of one kind is a ScanRing move of its stream. */
    method EmitOverlay(b: RingBucket, kind: Kind, nowMs: int, windowMs: nat, ghost env: Setting) returns (ghost ids: seq<Id>)
      requires Valid() && Inv(sys.store, windowMs) && windowMs == env.windowMs
      requires Tracks(b.entries, BucketOf(sys.store, sys.reader.player), log)
      requires sys.store.clock <= nowMs && StreamOf(kind) in sys.reader.queried && StreamOf(kind) !in sys.reader.scanned
      modifies this`sys, tail`written, tail`out, tail.emitted
      ensures Valid() && CanMove(old(sys), ScanRing(StreamOf(kind), ids), nowMs, env)
      ensures sys == Moved(old(sys), ScanRing(StreamOf(kind), ids), nowMs, env)
    {
      assert BucketInv(sys.store, sys.reader.player);
      ghost var scanned := tail.EmitBackfillFromRing(b, kind, nowMs, windowMs);
      ids := ScannedIds(sys, log, b.entries, scanned, kind, nowMs, windowMs);
      SameKeys(scanned, ids, log, sys.store.rows);
      sys := Moved(sys, ScanRing(StreamOf(kind), ids), nowMs, env);
    }
  }

  lemma ScannedPositions(entries: seq<RingEntry>, held: seq<Id>, scanned: seq<RingEntry>, log: seq<RingEntry>, kind: Kind, fromMs: int, toMs: int)
    returns (ids: seq<Id>)
    requires Tracks(entries, held, log)
    requires multiset(scanned) == multiset(InRange(entries, fromMs, toMs, {kind}))
    ensures Tracks(scanned, ids, log)
  {
    Tracked(entries, held, log);
    AllHeld(entries, scanned, kind, fromMs, toMs);
    ids := Positions(scanned, log);
  }

  lemma AllScanned(sys: System, log: seq<RingEntry>, entries: seq<RingEntry>, scanned: seq<RingEntry>, ids: seq<Id>,
                   kind: Kind, nowMs: int, windowMs: nat)
    requires |log| == |sys.store.rows| && FanOut.Distinct(log)
    requires forall i :: 0 <= i < |log| ==> log[i].row == sys.store.rows[i]
    requires BucketInv(sys.store, sys.reader.player) && Tracks(entries, BucketOf(sys.store, sys.reader.player), log)
    requires Tracks(scanned, ids, log)
    requires multiset(scanned) == multiset(InRange(entries, nowMs - windowMs, nowMs + LOOKAHEAD_MS, {kind}))
    ensures forall id :: id in ids <==> InScan(sys, StreamOf(kind), id, nowMs, windowMs)
  {
    Tracked(scanned, ids, log);
    forall id: Id | id < |log| ensures id in ids <==> InScan(sys, StreamOf(kind), id, nowMs, windowMs) {
      InOverlay(entries, scanned, kind, nowMs - windowMs, nowMs + LOOKAHEAD_MS, log[id]);
      TracksIn(scanned, ids, log, id);
      TracksIn(entries, BucketOf(sys.store, sys.reader.player), log, id);
      IsScanned(sys, log[id], log[id] in entries, log[id] in scanned, id, kind, nowMs, windowMs);
    }
  }

  lemma ScannedIds(sys: System, log: seq<RingEntry>, entries: seq<RingEntry>, scanned: seq<RingEntry>,
                   kind: Kind, nowMs: int, windowMs: nat)
    returns (ids: seq<Id>)
    requires |log| == |sys.store.rows| && FanOut.Distinct(log)
    requires forall i :: 0 <= i < |log| ==> log[i].row == sys.store.rows[i]
    requires BucketInv(sys.store, sys.reader.player) && Tracks(entries, BucketOf(sys.store, sys.reader.player), log)
    requires multiset(scanned) == multiset(InRange(entries, nowMs - windowMs, nowMs + LOOKAHEAD_MS, {kind}))
    ensures Tracks(scanned, ids, log)
    ensures forall id :: id in ids <==> InScan(sys, StreamOf(kind), id, nowMs, windowMs)
  {
    ids := ScannedPositions(entries, BucketOf(sys.store, sys.reader.player), scanned, log, kind,
                            nowMs - windowMs, nowMs + LOOKAHEAD_MS);
    AllScanned(sys, log, entries, scanned, ids, kind, nowMs, windowMs);
  }

  /** Membership of one row, from the memberships of its entry. */
  lemma IsScanned(sys: System, e: RingEntry, held: bool, scanned: bool, id: Id, kind: Kind, nowMs: int, windowMs: nat)
    requires id < |sys.store.rows| && e.row == sys.store.rows[id]
    requires held <==> id in BucketOf(sys.store, sys.reader.player)
    requires held ==> e.row.player == sys.reader.player
    requires scanned <==> held && nowMs - windowMs <= e.row.tsMs <= nowMs + LOOKAHEAD_MS && e.row.kind == kind
    ensures scanned <==> InScan(sys, StreamOf(kind), id, nowMs, windowMs)
  {
  }
}
