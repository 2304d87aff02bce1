/** The write path as the forwarder's objects carry it out: the ring and its two batch inserters, step by step
    with the store of WritePath. */
module Forwarding {
  import opened RingStates
  import opened WritePath
  import opened Ring
  import opened BatchInserter
  import FanOut

  // ---------- objects and positions ----------

  /** `ids` are the positions in the log of the given items, in order. */
  ghost predicate Tracks<T>(items: seq<T>, ids: seq<nat>, log: seq<T>) {
    |items| == |ids| && forall i :: 0 <= i < |ids| ==> ids[i] < |log| && items[i] == log[ids[i]]
  }

  lemma TracksNext<T>(items: seq<T>, ids: seq<nat>, log: seq<T>, x: T)
    requires Tracks(items, ids, log)
    ensures Tracks(items, ids, log + [x]) && Tracks(items + [x], ids + [|log|], log + [x])
  {
  }

  lemma TracksIn<T>(items: seq<T>, ids: seq<nat>, log: seq<T>, i: nat)
    requires Tracks(items, ids, log) && FanOut.Distinct(log) && i < |log|
    ensures log[i] in items <==> i in ids
  {
    if log[i] in items {
      var k :| 0 <= k < |items| && items[k] == log[i];
      assert ids[k] == i;
    }
    if i in ids {
      var k :| 0 <= k < |ids| && ids[k] == i;
      assert items[k] == log[i];
    }
  }

  /** The log holds an entry for each row of the store, in the row's status. */
  ghost predicate Mirrors(log: seq<RingEntry>, st: Store)
    reads set e | e in log
  {
    && |log| == |st.rows| && |log| == |st.status| && FanOut.Distinct(log)
    && forall i :: 0 <= i < |log| ==> log[i].row == st.rows[i] && log[i].status == st.status[i]
  }

  /** The entries an eviction leaves are those of the positions it leaves. */
  lemma {:induction false} LeftIsSurvivors(entries: seq<RingEntry>, ids: seq<Id>, log: seq<RingEntry>, st: Store, cutoffMs: int)
    requires Tracks(entries, ids, log) && Mirrors(log, st)
    ensures Tracks(Left(entries, cutoffMs), Survivors(st, ids, cutoffMs), log)
  {
    if ids != [] {
      var n := |ids| - 1;
      LeftIsSurvivors(entries[..n], ids[..n], log, st, cutoffMs);
    }
  }

  lemma ArrivalIsHeld(st: Store, row: Row, now: int, windowMs: nat, player: string, items: seq<RingEntry>, log: seq<RingEntry>, e: RingEntry)
    requires Tracks(items, BucketOf(st, player), log) && |log| == |st.rows|
    ensures Tracks(items + if player == row.player then [e] else [],
                   BucketOf(Next(st, Arrive(row), now, windowMs), player), log + [e])
  {
    TracksNext(items, BucketOf(st, player), log, e);
    if player != row.player {
      assert items + [] == items;
    }
  }

  lemma SurvivorsAreHeld(st: Store, now: int, windowMs: nat, player: string, items: seq<RingEntry>, log: seq<RingEntry>)
    requires Tracks(items, BucketOf(st, player), log) && Mirrors(log, st)
    ensures Tracks(Left(items, now - windowMs), BucketOf(Next(st, Evict, now, windowMs), player), log)
  {
    LeftIsSurvivors(items, BucketOf(st, player), log, st, now - windowMs);
  }

  // ---------- the forwarder ----------

  class Forwarder {
    const cache: Cache
    const samples: Inserter
    const network: Inserter
    const windowMs: nat
    /** Every entry ever added, and the store the objects stand for. */
    ghost var log: seq<RingEntry>
    ghost var model: Store

    ghost predicate Holds(st: Store, log: seq<RingEntry>)
      reads this, cache, cache.buckets.Values
    {
      forall player :: Tracks(cache.EntriesOf(player), BucketOf(st, player), log)
    }

    ghost predicate Queues(w: Inserter, kind: Kind, st: Store, log: seq<RingEntry>)
      reads this, w
    {
      && w.kind == kind && w.cache == cache
      && w.buf == WriterOf(st, kind).buf && Tracks(w.entries, WriterOf(st, kind).entries, log)
    }

    /** The objects stand for the store st. */
    ghost predicate Represents(st: Store, log: seq<RingEntry>)
      reads this, cache, cache.buckets.Values, samples, network, set e | e in log
    {
      Mirrors(log, st) && Holds(st, log) && Queues(samples, Sample, st, log) && Queues(network, Network, st, log)
    }

    ghost predicate Valid()
      reads this, cache, cache.buckets.Values, set b, ch | b in cache.buckets.Values && ch in b.subscribers :: ch
      reads samples, network, set e | e in log
    {
      cache.Valid() && Represents(model, log) && Inv(model, windowMs)
    }

    constructor (windowMs: nat, ghost clock: int)
      ensures Valid() && this.windowMs == windowMs && model == EmptyStore(clock)
    {
      var ring := new Cache();
      cache := ring;
      samples := new Inserter(Sample, ring);
      network := new Inserter(Network, ring);
      this.windowMs := windowMs;
      log, model := [], EmptyStore(clock);
      new;
      StartHolds(clock, windowMs);
    }

    function InserterOf(kind: Kind): Inserter {
      if kind == Sample then samples else network
    }

    /** An inserter with nothing under way has its batch in step. */
    lemma Ready(kind: Kind)
      requires Valid() && !WriterOf(model, kind).sending
      ensures InserterOf(kind).InStep()
    {
      var w := InserterOf(kind);
      assert WriterInv(model, kind);
      forall e | e in w.entries ensures e.status == Pending {
        var i :| 0 <= i < |w.entries| && w.entries[i] == e;
      }
    }

    method Pin(row: Row, nowMs: int) returns (ghost e: RingEntry)
      requires cache.Valid() && Represents(model, log) && InserterOf(row.kind).InStep()
      modifies InserterOf(row.kind)`buf, InserterOf(row.kind)`entries
      modifies cache`buckets, cache.buckets.Values, set b, ch | b in cache.buckets.Values && ch in b.subscribers :: ch
      ensures cache.Valid() && Represents(Next(model, Arrive(row), nowMs, windowMs), log + [e])
    {
      e := InserterOf(row.kind).Receive(row, nowMs);
      forall player ensures Tracks(cache.EntriesOf(player), BucketOf(Next(model, Arrive(row), nowMs, windowMs), player), log + [e]) {
        ArrivalIsHeld(model, row, nowMs, windowMs, player, old(cache.EntriesOf(player)), log, e);
      }
      TracksNext(old(samples.entries), model.samples.entries, log, e);
      TracksNext(old(network.entries), model.network.entries, log, e);
    }

    method Receive(row: Row, nowMs: int)
      requires Valid() && Enabled(model, Arrive(row), nowMs)
      modifies this`log, this`model, InserterOf(row.kind)`buf, InserterOf(row.kind)`entries
      modifies cache`buckets, cache.buckets.Values, set b, ch | b in cache.buckets.Values && ch in b.subscribers :: ch
      ensures Valid() && model == Next(old(model), Arrive(row), nowMs, windowMs)
    {
      Ready(row.kind);
      ghost var e := Pin(row, nowMs);
      StepKeepsInv(model, Arrive(row), nowMs, windowMs);
      log, model := log + [e], Next(model, Arrive(row), nowMs, windowMs);
    }

    method Announce(kind: Kind, nowMs: int)
      requires cache.Valid() && Represents(model, log)
      modifies set e | e in InserterOf(kind).entries
      ensures cache.Valid() && Represents(Next(model, WritePath.Begin(kind), nowMs, windowMs), log)
    {
      ghost var ids := WriterOf(model, kind).entries;
      InserterOf(kind).Begin();
      forall i | 0 <= i < |log| ensures log[i].status == Marked(model.status, ids, MarkedInserting)[i] {
        TracksIn(InserterOf(kind).entries, ids, log, i);
      }
    }

    method Begin(kind: Kind, nowMs: int)
      requires Valid() && Enabled(model, WritePath.Begin(kind), nowMs)
      modifies this`model, set e | e in InserterOf(kind).entries
      ensures Valid() && model == Next(old(model), WritePath.Begin(kind), nowMs, windowMs)
    {
      Announce(kind, nowMs);
      StepKeepsInv(model, WritePath.Begin(kind), nowMs, windowMs);
      model := Next(model, WritePath.Begin(kind), nowMs, windowMs);
    }

    /** What the end of an INSERT makes of a status. */
    ghost function Mark(acknowledged: bool): Status -> Status {
      if acknowledged then _ => Confirmed else Reverted
    }

    ghost function Answer(kind: Kind, acknowledged: bool, landed: bool): Action {
      if acknowledged then Ack(kind) else Reject(kind, landed)
    }

    method Conclude(kind: Kind, acknowledged: bool, nowMs: int, ghost landed: bool)
      requires cache.Valid() && Represents(model, log)
      modifies InserterOf(kind)`buf, InserterOf(kind)`entries, set e | e in InserterOf(kind).entries
      ensures cache.Valid() && Represents(Next(model, Answer(kind, acknowledged, landed), nowMs, windowMs), log)
    {
      ghost var entries, ids := InserterOf(kind).entries, WriterOf(model, kind).entries;
      InserterOf(kind).Settle(acknowledged);
      forall i | 0 <= i < |log| ensures log[i].status == Marked(model.status, ids, Mark(acknowledged))[i] {
        TracksIn(entries, ids, log, i);
      }
    }

    method Settle(kind: Kind, acknowledged: bool, nowMs: int, ghost landed: bool)
      requires Valid() && Enabled(model, Answer(kind, acknowledged, landed), nowMs)
      modifies this`model, InserterOf(kind)`buf, InserterOf(kind)`entries, set e | e in InserterOf(kind).entries
      ensures Valid() && model == Next(old(model), Answer(kind, acknowledged, landed), nowMs, windowMs)
    {
      Conclude(kind, acknowledged, nowMs, landed);
      StepKeepsInv(model, Answer(kind, acknowledged, landed), nowMs, windowMs);
      model := Next(model, Answer(kind, acknowledged, landed), nowMs, windowMs);
    }

    method Sweep(nowMs: int)
      requires cache.Valid() && Represents(model, log)
      modifies cache`buckets, cache.buckets.Values
      ensures cache.Valid() && Represents(Next(model, WritePath.Evict, nowMs, windowMs), log)
    {
      cache.EvictOlderThan(nowMs - windowMs);
      forall player ensures Tracks(cache.EntriesOf(player), BucketOf(Next(model, WritePath.Evict, nowMs, windowMs), player), log) {
        SurvivorsAreHeld(model, nowMs, windowMs, player, old(cache.EntriesOf(player)), log);
      }
    }

    method Evict(nowMs: int)
      requires Valid() && Enabled(model, WritePath.Evict, nowMs)
      modifies this`model, cache`buckets, cache.buckets.Values
      ensures Valid() && model == Next(old(model), WritePath.Evict, nowMs, windowMs)
    {
      Sweep(nowMs);
      StepKeepsInv(model, WritePath.Evict, nowMs, windowMs);
      model := Next(model, WritePath.Evict, nowMs, windowMs);
    }

    /** Right after an eviction the ring holds no confirmed entry older than the window. */
    lemma NothingOldIsLeft(st: Store, nowMs: int)
      requires Valid() && Inv(st, windowMs) && model == Next(st, WritePath.Evict, nowMs, windowMs)
      ensures forall player, e :: e in cache.EntriesOf(player) ==> !(e.status == Confirmed && e.row.tsMs < nowMs - windowMs)
    {
      StepSweeps(st, nowMs, windowMs);
      forall player, e | e in cache.EntriesOf(player) ensures !(e.status == Confirmed && e.row.tsMs < nowMs - windowMs) {
        var i :| 0 <= i < |cache.EntriesOf(player)| && cache.EntriesOf(player)[i] == e;
        var id := BucketOf(model, player)[i];
        assert id in BucketOf(model, player);
        assert e == log[id];
      }
    }

    /** Read off the objects: an entry that is not in its player's bucket was confirmed and is out of the window. */
    lemma NothingIsLost()
      requires Valid()
      ensures forall e :: e in log ==>
                e in cache.EntriesOf(e.row.player) || (e.status == Confirmed && e.row.tsMs < model.clock - windowMs)
    {
      forall e | e in log ensures e in cache.EntriesOf(e.row.player) || (e.status == Confirmed && e.row.tsMs < model.clock - windowMs) {
        var i :| 0 <= i < |log| && log[i] == e;
        assert RowInv(model, i) && HeldInv(model, i, windowMs);
        TracksIn(cache.EntriesOf(e.row.player), BucketOf(model, e.row.player), log, i);
      }
    }
  }
}
