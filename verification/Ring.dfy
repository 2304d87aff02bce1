/** The in-memory ring that mirrors every row until ClickHouse has confirmed it: entries, the channels of the
    subscribers, and one bucket a player. Every method is one critical section. */
module Ring {
  import opened RingStates
  import opened WritePath
  import FanOut

  class RingEntry {
    const row: Row
    var status: Status

    constructor (row: Row)
      ensures this.row == row && status == Pending
    {
      this.row, status := row, Pending;
    }
  }

  /** A buffered channel; sending on a closed one, or closing it again, is a fault. */
  class Channel {
    const capacity: nat
    var queue: seq<RingEntry>
    var closed: bool

    constructor (capacity: nat)
      ensures this.capacity == capacity && queue == [] && !closed
    {
      this.capacity, queue, closed := capacity, [], false;
    }

    /** A send that never blocks. */
    method Offer(e: RingEntry)
      requires !closed
      modifies this`queue
      ensures queue == Offered(old(queue), capacity, e)
    {
      if |queue| < capacity {
        queue := queue + [e];
      }
    }

    method Take() returns (e: RingEntry)
      requires queue != []
      modifies this`queue
      ensures [e] + queue == old(queue)
    {
      e, queue := queue[0], queue[1..];
    }

    method Close()
      requires !closed
      modifies this`closed
      ensures closed
    {
      closed := true;
    }
  }

  // ---------- marks ----------

  method MarkInserting(entries: seq<RingEntry>)
    modifies set e | e in entries
    ensures forall e :: e in entries ==> e.status == MarkedInserting(old(e.status))
    ensures forall e :: e in entries ==> e.status == if old(e.status) == Pending then Inserting else old(e.status)
  {
    for i := 0 to |entries|
      invariant forall e :: e in entries ==>
                  e.status == if e in entries[..i] then MarkedInserting(old(e.status)) else old(e.status)
    {
      var e := entries[i];
      if e.status == Pending {
        e.status := Inserting;
      }
    }
  }

  method MarkConfirmed(entries: seq<RingEntry>)
    modifies set e | e in entries
    ensures forall e :: e in entries ==> e.status == Confirmed
  {
    for i := 0 to |entries|
      invariant forall e :: e in entries[..i] ==> e.status == Confirmed
    {
      entries[i].status := Confirmed;
    }
  }

  method RevertInserting(entries: seq<RingEntry>)
    modifies set e | e in entries
    ensures forall e :: e in entries ==> e.status == Reverted(old(e.status))
    ensures forall e :: e in entries ==> e.status == if old(e.status) == Inserting then Pending else old(e.status)
  {
    for i := 0 to |entries|
      invariant forall e :: e in entries ==>
                  e.status == if e in entries[..i] then Reverted(old(e.status)) else old(e.status)
    {
      var e := entries[i];
      if e.status == Inserting {
        e.status := Pending;
      }
    }
  }

  // ---------- one bucket ----------

  /** The entries an eviction leaves. */
  ghost function Left(entries: seq<RingEntry>, cutoffMs: int): seq<RingEntry>
    reads set e | e in entries
  {
    if entries == [] then []
    else
      var n := |entries| - 1;
      Left(entries[..n], cutoffMs) + if Evictable(entries[n].status, entries[n].row.tsMs, cutoffMs) then [] else [entries[n]]
  }

  /** The entries a range query selects, in order of arrival. */
  function InRange(entries: seq<RingEntry>, fromMs: int, toMs: int, kinds: set<Kind>): seq<RingEntry> {
    if entries == [] then []
    else
      var n := |entries| - 1;
      var e := entries[n];
      InRange(entries[..n], fromMs, toMs, kinds) + if fromMs <= e.row.tsMs <= toMs && e.row.kind in kinds then [e] else []
  }

  /** An eviction takes the confirmed entries older than the cutoff and no others, and what it leaves it leaves
      as often as it was there. */
  lemma {:induction false} LeftKeeps(entries: seq<RingEntry>, cutoffMs: int)
    ensures forall e: RingEntry :: multiset(Left(entries, cutoffMs))[e]
                        == if e.status == Confirmed && e.row.tsMs < cutoffMs then 0 else multiset(entries)[e]
  {
    if entries != [] {
      var n := |entries| - 1;
      LeftKeeps(entries[..n], cutoffMs);
      assert entries == entries[..n] + [entries[n]];
    }
  }

  lemma StillThere(entries: seq<RingEntry>, cutoffMs: int)
    ensures forall e :: e in Left(entries, cutoffMs) <==> e in entries && !(e.status == Confirmed && e.row.tsMs < cutoffMs)
  {
    LeftKeeps(entries, cutoffMs);
    var left: seq<RingEntry> := Left(entries, cutoffMs);
    forall e ensures e in left <==> e in entries && !(e.status == Confirmed && e.row.tsMs < cutoffMs) {
      assert e in left <==> multiset(left)[e] > 0;
      assert e in entries <==> multiset(entries)[e] > 0;
    }
  }

  /** `at` are ascending positions of s at which it holds the elements of sub. */
  ghost predicate Embeds<T>(sub: seq<T>, s: seq<T>, at: seq<nat>) {
    && |at| == |sub|
    && (forall i :: 0 <= i < |at| ==> at[i] < |s| && s[at[i]] == sub[i])
    && (forall i, j :: 0 <= i < j < |at| ==> at[i] < at[j])
  }

  lemma EmbedsNext<T>(sub: seq<T>, s: seq<T>, at: seq<nat>, x: T)
    requires Embeds(sub, s, at)
    ensures Embeds(sub, s + [x], at) && Embeds(sub + [x], s + [x], at + [|s|])
  {
  }

  /** What is left stands in the order it stood in. */
  lemma {:induction false} LeftInOrder(entries: seq<RingEntry>, cutoffMs: int) returns (at: seq<nat>)
    ensures Embeds(Left(entries, cutoffMs), entries, at)
  {
    if entries == [] {
      return [];
    }
    var n := |entries| - 1;
    at := LeftInOrder(entries[..n], cutoffMs);
    EmbedsNext(Left(entries[..n], cutoffMs), entries[..n], at, entries[n]);
    assert entries == entries[..n] + [entries[n]];
    if !Evictable(entries[n].status, entries[n].row.tsMs, cutoffMs) {
      at := at + [n];
    }
  }

  /** A range query selects exactly the entries of the wanted kinds in the closed range, as often as they are there. */
  lemma {:induction false} InRangeSelects(entries: seq<RingEntry>, fromMs: int, toMs: int, kinds: set<Kind>)
    ensures forall e: RingEntry :: multiset(InRange(entries, fromMs, toMs, kinds))[e]
                        == if fromMs <= e.row.tsMs <= toMs && e.row.kind in kinds then multiset(entries)[e] else 0
  {
    if entries != [] {
      var n := |entries| - 1;
      InRangeSelects(entries[..n], fromMs, toMs, kinds);
      assert entries == entries[..n] + [entries[n]];
    }
  }

  ghost predicate ByTime(entries: seq<RingEntry>) {
    forall i, j :: 0 <= i <= j < |entries| ==> entries[i].row.tsMs <= entries[j].row.tsMs
  }

  datatype BucketState = BucketState(entries: seq<RingEntry>, subscribers: seq<Channel>, lastActivityMs: int)

  /** An empty bucket that nobody watches and that has been idle since the cutoff. */
  ghost predicate Idle(s: BucketState, cutoffMs: int) {
    s.entries == [] && s.subscribers == [] && s.lastActivityMs < cutoffMs
  }

  /** Eviction changes nothing of a bucket but its entries. */
  ghost function Trimmed(s: BucketState, cutoffMs: int): BucketState
    reads set e | e in s.entries
  {
    s.(entries := Left(s.entries, cutoffMs))
  }

  class RingBucket {
    var entries: seq<RingEntry>
    var subscribers: seq<Channel>
    var lastActivityMs: int

    ghost function State(): BucketState
      reads this
    {
      BucketState(entries, subscribers, lastActivityMs)
    }

    /** The subscriber list names open channels, each once. */
    ghost predicate Valid()
      reads this, set ch | ch in subscribers
    {
      FanOut.Distinct(subscribers) && forall ch :: ch in subscribers ==> !ch.closed
    }

    constructor ()
      ensures Valid() && entries == [] && subscribers == [] && lastActivityMs == 0
    {
      entries, subscribers, lastActivityMs := [], [], 0;
    }

    /** Appends the entry and offers it to every subscriber. */
    method Add(e: RingEntry, nowMs: int)
      requires Valid()
      modifies this`entries, this`lastActivityMs, (set ch | ch in subscribers)`queue
      ensures Valid()
      ensures entries == old(entries) + [e] && lastActivityMs == nowMs
      ensures forall ch :: ch in subscribers ==> ch.queue == Offered(old(ch.queue), ch.capacity, e)
    {
      entries := entries + [e];
      lastActivityMs := nowMs;
      for i := 0 to |subscribers|
        invariant entries == old(entries) + [e] && lastActivityMs == nowMs
        invariant forall k :: 0 <= k < |subscribers| ==>
                    subscribers[k].queue
                    == if k < i then Offered(old(subscribers[k].queue), subscribers[k].capacity, e) else old(subscribers[k].queue)
      {
        subscribers[i].Offer(e);
      }
    }

    method Subscribe(capacity: nat, nowMs: int) returns (ch: Channel)
      requires Valid()
      modifies this`subscribers, this`lastActivityMs
      ensures Valid() && fresh(ch) && ch.capacity == capacity && ch.queue == []
      ensures subscribers == old(subscribers) + [ch] && lastActivityMs == nowMs
    {
      ch := new Channel(capacity);
      subscribers := subscribers + [ch];
      lastActivityMs := nowMs;
    }

    /** Detaches ch, then closes it: from here on no Add names it. */
    method Cancel(ch: Channel)
      requires Valid() && !ch.closed
      modifies this`subscribers, ch`closed
      ensures Valid() && ch.closed && ch !in subscribers
      ensures subscribers == FanOut.SwapOut(old(subscribers), ch)
    {
      FanOut.SwapOutRemoves(subscribers, ch);
      for i := 0 to |subscribers|
        invariant unchanged(this) && ch !in subscribers[..i]
      {
        if subscribers[i] == ch {
          var last := subscribers[|subscribers| - 1];
          assert FanOut.IndexOf(subscribers, ch) == i;
          subscribers := subscribers[i := last][..|subscribers| - 1];
          break;
        }
      }
      ch.Close();
    }

    /** Selects by time and kind, then sorts by time; equal times may come in any order. */
    method Range(fromMs: int, toMs: int, kinds: set<Kind>) returns (out: seq<RingEntry>)
      ensures ByTime(out) && multiset(out) == multiset(InRange(entries, fromMs, toMs, kinds))
    {
      out := Selected(fromMs, toMs, kinds);
      out := SortByTime(out);
    }

    method Selected(fromMs: int, toMs: int, kinds: set<Kind>) returns (out: seq<RingEntry>)
      ensures out == InRange(entries, fromMs, toMs, kinds)
    {
      out := [];
      for i := 0 to |entries|
        invariant out == InRange(entries[..i], fromMs, toMs, kinds)
      {
        assert entries[..i + 1][..i] == entries[..i];
        var e := entries[i];
        if e.row.tsMs < fromMs || e.row.tsMs > toMs {
          continue;
        }
        if e.row.kind !in kinds {
          continue;
        }
        out := out + [e];
      }
      assert entries[..|entries|] == entries;
    }

    /** Drops the confirmed entries older than the cutoff, sliding the others down. */
    method Evict(cutoffMs: int) returns (evicted: nat)
      modifies this`entries
      ensures entries == Left(old(entries), cutoffMs) && evicted == |old(entries)| - |entries|
      ensures forall e :: e in entries <==> e in old(entries) && !(e.status == Confirmed && e.row.tsMs < cutoffMs)
    {
      var kept: seq<RingEntry> := [];
      evicted := 0;
      for i := 0 to |entries|
        invariant kept == Left(entries[..i], cutoffMs) && evicted == i - |kept|
      {
        assert entries[..i + 1][..i] == entries[..i];
        var e := entries[i];
        if e.status == Confirmed && e.row.tsMs < cutoffMs {
          evicted := evicted + 1;
          continue;
        }
        kept := kept + [e];
      }
      assert entries[..|entries|] == entries;
      StillThere(entries, cutoffMs);
      entries := kept;
    }
  }

  method InsertByTime(sorted: seq<RingEntry>, e: RingEntry) returns (out: seq<RingEntry>)
    requires ByTime(sorted)
    ensures ByTime(out) && multiset(out) == multiset(sorted) + multiset{e}
  {
    var k := |sorted|;
    while k > 0 && sorted[k - 1].row.tsMs > e.row.tsMs
      invariant 0 <= k <= |sorted|
      invariant forall j :: k <= j < |sorted| ==> sorted[j].row.tsMs > e.row.tsMs
    {
      k := k - 1;
    }
    out := sorted[..k] + [e] + sorted[k..];
    assert sorted == sorted[..k] + sorted[k..];
    InsertionIsSorted(sorted, k, e);
  }

  lemma InsertionIsSorted(sorted: seq<RingEntry>, k: nat, e: RingEntry)
    requires ByTime(sorted) && k <= |sorted|
    requires k > 0 ==> sorted[k - 1].row.tsMs <= e.row.tsMs
    requires forall j :: k <= j < |sorted| ==> e.row.tsMs <= sorted[j].row.tsMs
    ensures ByTime(sorted[..k] + [e] + sorted[k..])
  {
    var out := sorted[..k] + [e] + sorted[k..];
    assert forall i :: 0 <= i < |out| ==> out[i] == if i < k then sorted[i] else if i == k then e else sorted[i - 1];
    forall i, j | 0 <= i <= j < |out| ensures out[i].row.tsMs <= out[j].row.tsMs {
      if i < k && j == k {
        assert sorted[i].row.tsMs <= sorted[k - 1].row.tsMs;
      }
    }
  }

  method SortByTime(entries: seq<RingEntry>) returns (out: seq<RingEntry>)
    ensures ByTime(out) && multiset(out) == multiset(entries)
  {
    out := [];
    for i := 0 to |entries|
      invariant ByTime(out) && multiset(out) == multiset(entries[..i])
    {
      assert entries[..i + 1] == entries[..i] + [entries[i]];
      out := InsertByTime(out, entries[i]);
    }
    assert entries[..|entries|] == entries;
  }

  // ---------- all buckets ----------

  class Cache {
    var buckets: map<string, RingBucket>

    /** Players have their own buckets, and buckets their own channels. */
    ghost predicate Valid()
      reads this, buckets.Values, set b, ch | b in buckets.Values && ch in b.subscribers :: ch
    {
      && (forall k :: k in buckets ==> buckets[k].Valid())
      && (forall k, l :: k in buckets && l in buckets && k != l ==> buckets[k] != buckets[l])
      && (forall k, l, ch :: k in buckets && l in buckets && k != l && ch in buckets[k].subscribers ==> ch !in buckets[l].subscribers)
    }

    constructor ()
      ensures Valid() && buckets == map[]
    {
      buckets := map[];
    }

    method BucketFor(player: string) returns (b: RingBucket)
      requires Valid()
      modifies this`buckets
      ensures Valid() && player in buckets && b == buckets[player] && buckets == old(buckets)[player := b]
      ensures player in old(buckets) ==> b == old(buckets)[player]
      ensures player !in old(buckets) ==> fresh(b) && b.entries == [] && b.subscribers == []
    {
      if player in buckets {
        return buckets[player];
      }
      b := new RingBucket();
      buckets := buckets[player := b];
    }

    /** What the ring holds for a player; a missing bucket holds nothing. */
    ghost function EntriesOf(player: string): seq<RingEntry>
      reads this, buckets.Values
    {
      if player in buckets then buckets[player].entries else []
    }

    /** Adds an entry to the bucket of its player. */
    method AddTo(b: RingBucket, player: string, e: RingEntry, nowMs: int)
      requires Valid() && player in buckets && buckets[player] == b
      modifies b`entries, b`lastActivityMs, (set ch | ch in b.subscribers)`queue
      ensures Valid()
      ensures forall k :: k in buckets ==> buckets[k].entries == old(buckets[k].entries) + if k == player then [e] else []
      ensures forall ch :: ch in b.subscribers ==> ch.queue == Offered(old(ch.queue), ch.capacity, e)
    {
      b.Add(e, nowMs);
    }

    /** The new entry goes to its player's bucket and to that bucket's subscribers, and nowhere else. */
    method Add(row: Row, nowMs: int) returns (e: RingEntry)
      requires Valid()
      modifies this`buckets, buckets.Values, set b, ch | b in buckets.Values && ch in b.subscribers :: ch
      ensures Valid() && fresh(e) && e.row == row && e.status == Pending
      ensures row.player in buckets && buckets == old(buckets)[row.player := buckets[row.player]]
      ensures row.player in old(buckets) ==> buckets[row.player] == old(buckets)[row.player]
      ensures forall k :: EntriesOf(k) == old(EntriesOf(k)) + if k == row.player then [e] else []
      ensures row.player in old(buckets) ==> forall ch :: ch in buckets[row.player].subscribers ==>
                ch in old(buckets[row.player].subscribers) && ch.queue == Offered(old(ch.queue), ch.capacity, e)
      ensures forall k, ch :: k in old(buckets) && k != row.player && ch in old(buckets[k].subscribers) ==> ch.queue == old(ch.queue)
    {
      e := new RingEntry(row);
      var b := BucketFor(row.player);
      AddTo(b, row.player, e, nowMs);
    }

    /** Evicts in every bucket and drops the idle ones; no row that is not confirmed leaves the ring. */
    method EvictOlderThan(cutoffMs: int)
      requires Valid()
      modifies this`buckets, buckets.Values
      ensures Valid()
      ensures forall k :: k in old(buckets) ==> old(buckets)[k].State() == Trimmed(old(buckets[k].State()), cutoffMs)
      ensures buckets == map k | k in old(buckets) && !Idle(old(buckets)[k].State(), cutoffMs) :: old(buckets)[k]
      ensures forall k :: EntriesOf(k) == Left(old(EntriesOf(k)), cutoffMs)
    {
      EvictEntries(cutoffMs);
      DropIdle(cutoffMs);
    }

    method DropIdle(cutoffMs: int)
      requires Valid()
      modifies this`buckets
      ensures Valid()
      ensures buckets == map k | k in old(buckets) && !Idle(old(buckets)[k].State(), cutoffMs) :: old(buckets)[k]
    {
      buckets := map k | k in buckets && (|buckets[k].entries| > 0 || |buckets[k].subscribers| > 0
                                          || buckets[k].lastActivityMs >= cutoffMs) :: buckets[k];
    }

    method EvictEntries(cutoffMs: int)
      requires Valid()
      modifies buckets.Values
      ensures Valid()
      ensures forall k :: k in buckets ==> buckets[k].State() == Trimmed(old(buckets[k].State()), cutoffMs)
    {
      var todo := buckets.Keys;
      while todo != {}
        invariant todo <= buckets.Keys
        invariant forall k :: k in todo ==> unchanged(buckets[k])
        invariant forall k :: k in buckets && k !in todo ==> buckets[k].State() == Trimmed(old(buckets[k].State()), cutoffMs)
      {
        var k :| k in todo;
        var evicted := buckets[k].Evict(cutoffMs);
        todo := todo - {k};
      }
    }
  }
}
