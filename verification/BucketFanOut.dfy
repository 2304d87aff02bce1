/** A bucket with its subscribers' channels, step by step with the fan-out of FanOut. */
module BucketFanOut {
  import opened Ring
  import opened FanOut
  import opened Forwarding

  lemma {:induction false} SameIndex<T>(items: seq<T>, ids: seq<nat>, log: seq<T>, i: nat)
    requires Tracks(items, ids, log) && Distinct(log) && i in ids && i < |log| && log[i] in items
    ensures IndexOf(items, log[i]) == IndexOf(ids, i)
  {
    assert items[0] == log[i] <==> ids[0] == i;
    if ids[0] != i {
      SameIndex(items[1..], ids[1..], log, i);
    }
  }

  lemma SwapOutTracks<T>(items: seq<T>, ids: seq<nat>, log: seq<T>, i: nat)
    requires Tracks(items, ids, log) && Distinct(log) && i < |log|
    ensures Tracks(SwapOut(items, log[i]), SwapOut(ids, i), log)
  {
    TracksIn(items, ids, log, i);
    if i in ids {
      SameIndex(items, ids, log, i);
    }
  }

  class Feed {
    const bucket: RingBucket
    const capacity: nat
    /** Every entry added and every channel ever subscribed, and the fan-out the objects stand for. */
    ghost var items: seq<RingEntry>
    ghost var channels: seq<Channel>
    ghost var model: Fan

    ghost predicate Matches(c: Chan)
      reads this, channels
      requires c < |channels|
    {
      && channels[c].capacity == capacity && (channels[c].closed <==> c in model.closed)
      && c in model.queues && c in model.taken && Tracks(channels[c].queue, model.queues[c], items)
    }

    ghost predicate Valid()
      reads this, bucket, bucket.subscribers, channels
    {
      && bucket.Valid() && Distinct(channels) && Tracks(bucket.subscribers, model.subscribers, channels)
      && (forall c :: c in model.queues || c in model.closed ==> c < |channels|)
      && (forall c: Chan :: c < |channels| ==> Matches(c))
    }

    constructor (capacity: nat)
      ensures Valid() && this.capacity == capacity && model == Empty()
    {
      bucket := new RingBucket();
      this.capacity := capacity;
      items, channels, model := [], [], Empty();
    }

    method Add(e: RingEntry, nowMs: int)
      requires Valid()
      modifies this`items, this`model, bucket`entries, bucket`lastActivityMs, (set ch | ch in bucket.subscribers)`queue
      ensures Valid() && items == old(items) + [e] && model == Next(old(model), Added(|old(items)|), capacity)
    {
      bucket.Add(e, nowMs);
      forall c: Chan | c < |channels|
        ensures c in model.queues && Tracks(channels[c].queue, Delivered(model, capacity, |items|)[c], items + [e])
      {
        assert old(Matches(c));
        TracksIn(bucket.subscribers, model.subscribers, channels, c);
        TracksNext(old(channels[c].queue), model.queues[c], items, e);
      }
      model, items := Next(model, Added(|items|), capacity), items + [e];
      assert forall c: Chan :: c < |channels| && old(Matches(c)) ==> Matches(c);
    }

    method Subscribe(nowMs: int) returns (ch: Channel, ghost c: Chan)
      requires Valid()
      modifies this`channels, this`model, bucket`subscribers, bucket`lastActivityMs
      ensures Valid() && c == |old(channels)| && channels == old(channels) + [ch] && fresh(ch)
      ensures Allowed(old(model), Joined(c)) && model == Next(old(model), Joined(c), capacity)
    {
      c := |channels|;
      ch := bucket.Subscribe(capacity, nowMs);
      TracksNext(old(bucket.subscribers), model.subscribers, channels, ch);
      model, channels := Next(model, Joined(c), capacity), channels + [ch];
      assert forall i: Chan :: i < c && old(Matches(i)) ==> Matches(i);
    }

    method Cancel(ch: Channel, ghost c: Chan)
      requires Valid() && c < |channels| && channels[c] == ch && Allowed(model, Cancelled(c))
      modifies this`model, bucket`subscribers, ch`closed
      ensures Valid() && model == Next(old(model), Cancelled(c), capacity)
    {
      SwapOutTracks(bucket.subscribers, model.subscribers, channels, c);
      assert Matches(c);
      bucket.Cancel(ch);
      model := Next(model, Cancelled(c), capacity);
      assert forall i: Chan :: i < |channels| && old(Matches(i)) ==> Matches(i);
    }

    method Take(ch: Channel, ghost c: Chan) returns (e: RingEntry)
      requires Valid() && c < |channels| && channels[c] == ch && Allowed(model, Took(c))
      modifies this`model, ch`queue
      ensures Valid() && model == Next(old(model), Took(c), capacity)
      ensures var item := old(model).queues[c][0]; item < |items| && e == items[item]
    {
      assert Matches(c);
      e := ch.Take();
      model := Next(model, Took(c), capacity);
      assert forall i: Chan :: i < |channels| && old(Matches(i)) ==> Matches(i);
    }
  }
}
