/** The batch inserter's buffers: rows to insert and the ring entries whose state follows the INSERT. */
module BatchInserter {
  import opened RingStates
  import opened WritePath
  import opened Ring

  class Inserter {
    const kind: Kind
    const cache: Cache
    var buf: seq<Row>
    var entries: seq<RingEntry>

    /** entries[i] is the ring entry of buf[i], and nothing is under way. */
    ghost predicate InStep()
      reads this, set e | e in entries
    {
      && |buf| == |entries|
      && (forall i :: 0 <= i < |entries| ==> entries[i].row == buf[i] && entries[i].row.kind == kind)
      && (forall e :: e in entries ==> e.status == Pending)
    }

    constructor (kind: Kind, cache: Cache)
      ensures this.kind == kind && this.cache == cache && InStep() && buf == []
    {
      this.kind, this.cache := kind, cache;
      buf, entries := [], [];
    }

    /** Pins the row in the ring, then queues it with its entry. */
    method Receive(row: Row, nowMs: int) returns (ghost e: RingEntry)
      requires InStep() && cache.Valid() && row.kind == kind
      modifies this`buf, this`entries
      modifies cache`buckets, cache.buckets.Values, set b, ch | b in cache.buckets.Values && ch in b.subscribers :: ch
      ensures InStep() && cache.Valid() && fresh(e) && e.row == row
      ensures buf == old(buf) + [row] && entries == old(entries) + [e]
      ensures row.player in cache.buckets && cache.buckets == old(cache.buckets)[row.player := cache.buckets[row.player]]
      ensures row.player in old(cache.buckets) ==> cache.buckets[row.player] == old(cache.buckets)[row.player]
      ensures forall k :: cache.EntriesOf(k) == old(cache.EntriesOf(k)) + if k == row.player then [e] else []
    {
      var added := cache.Add(row, nowMs);
      buf := buf + [row];
      entries := entries + [added];
      e := added;
    }

    /** An INSERT of the batch starts. */
    method Begin()
      modifies set e | e in entries
      ensures forall e :: e in entries ==> e.status == MarkedInserting(old(e.status))
    {
      MarkInserting(entries);
    }

    /** The INSERT ends; either way the buffers start afresh: a rejected batch is not sent again, but its rows
        are pending in the ring. */
    method Settle(acknowledged: bool)
      modifies this`buf, this`entries, set e | e in entries
      ensures buf == [] && entries == []
      ensures forall e :: e in old(entries) ==> e.status == if acknowledged then Confirmed else Reverted(old(e.status))
    {
      if acknowledged {
        MarkConfirmed(entries);
      } else {
        RevertInserting(entries);
      }
      buf, entries := [], [];
    }

    /** Sends the batch; `acknowledged` is what ClickHouse answers. */
    method Flush(acknowledged: bool) returns (sent: seq<Row>)
      requires InStep()
      modifies this`buf, this`entries, set e | e in entries
      ensures InStep() && buf == [] && entries == []
      ensures sent == old(buf)
      ensures forall e :: e in old(entries) ==> e.status == if acknowledged then Confirmed else Pending
    {
      sent := buf;
      if |buf| == 0 {
        return;
      }
      Begin();
      Settle(acknowledged);
    }
  }
}
