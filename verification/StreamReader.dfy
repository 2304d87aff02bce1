/** The reader's loops: the ring overlay of the backfill and the live tail, each row through the emitted set. */
module StreamReader {
  import opened RingStates
  import opened EmittedSet
  import opened WritePath
  import opened ReadPath
  import opened Ring

  function EntryKeys(es: seq<RingEntry>): (ks: seq<Key>)
    ensures |ks| == |es|
  {
    seq(|es|, i requires 0 <= i < |es| => KeyOf(es[i].row))
  }

  class Tail {
    const play: string
    const enabled: set<Stream>
    const emitted: Emitted
    /** What went to the client, and the same with the reset counts. */
    var written: seq<Key>
    ghost var out: seq<Emission>

    ghost predicate Valid()
      reads this
    {
      |written| == |out| && forall i :: 0 <= i < |out| ==> written[i] == out[i].key
    }

    constructor (play: string, enabled: set<Stream>)
      ensures Valid() && this.play == play && this.enabled == enabled && fresh(emitted)
      ensures emitted.View() == Seen({}, 0) && out == []
    {
      this.play, this.enabled := play, enabled;
      emitted := new Emitted();
      written, out := [], [];
    }

    method Emit(k: Key)
      requires Valid()
      modifies this`written, this`out, emitted
      ensures Valid()
      ensures written == old(written) + if k.fp == "" || k !in old(emitted.seen) then [k] else []
      ensures out == old(out) + Written(old(emitted.View()), k) && emitted.View() == Grown(old(emitted.View()), k)
    {
      var isNew := emitted.Add(k);
      if isNew {
        written, out := written + [k], out + [Emission(k, emitted.resets)];
      }
    }

    /** The rows of a scan, in the order it returned them. */
    method EmitAll(ks: seq<Key>)
      requires Valid()
      modifies this`written, this`out, emitted
      ensures Valid()
      ensures out == Log(old(emitted.View()), old(out), ks) && emitted.View() == GrownBy(old(emitted.View()), ks)
    {
      for i := 0 to |ks|
        invariant Valid()
        invariant out == Log(old(emitted.View()), old(out), ks[..i]) && emitted.View() == GrownBy(old(emitted.View()), ks[..i])
      {
        assert ks[..i + 1][..i] == ks[..i];
        Emit(ks[i]);
      }
      assert ks[..|ks|] == ks;
    }

    /** The overlay: the entries of one kind in the window, each emitted unless it was before. */
    method EmitBackfillFromRing(b: RingBucket, kind: Kind, nowMs: int, windowMs: nat) returns (ghost scanned: seq<RingEntry>)
      requires Valid()
      modifies this`written, this`out, emitted
      ensures Valid() && ByTime(scanned)
      ensures multiset(scanned) == multiset(InRange(b.entries, nowMs - windowMs, nowMs + 1_000, {kind}))
      ensures out == Log(old(emitted.View()), old(out), EntryKeys(scanned))
      ensures emitted.View() == GrownBy(old(emitted.View()), EntryKeys(scanned))
    {
      var es := b.Range(nowMs - windowMs, nowMs + LOOKAHEAD_MS, {kind});
      scanned := es;
      EmitAll(EntryKeys(es));
    }

    /** One turn of the live loop: a row of another play, or of a stream that is not enabled, is taken and
        dropped; any other goes to the client unless its key was written before. */
    method StreamLiveDelta(ch: Channel)
      requires Valid() && ch.queue != []
      modifies this`written, this`out, emitted, ch`queue
      ensures Valid() && ch.queue == old(ch.queue)[1..]
      ensures var row := old(ch.queue)[0].row;
              (play != "" && row.play != play) || (row.kind == Sample && Events !in enabled)
              || (row.kind == Network && NetworkLog !in enabled) ==>
                written == old(written) && out == old(out) && emitted.View() == old(emitted.View())
      ensures var row, seen := old(ch.queue)[0].row, old(emitted.View());
              var k := Key(if row.kind == Sample then Events else NetworkLog, row.fp);
              (play == "" || row.play == play) && k.stream in enabled ==>
                && written == old(written) + (if k.fp == "" || k !in seen.keys then [k] else [])
                && out == old(out) + Written(seen, k) && emitted.View() == Grown(seen, k)
    {
      var e := ch.Take();
      if StreamOf(e.row.kind) !in enabled {
        return;
      }
      if play != "" && e.row.play != play {
        return;
      }
      Emit(KeyOf(e.row));
    }
  }
}
