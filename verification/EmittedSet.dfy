/** The fingerprint set that keeps a stream reader from emitting a row twice. */
module EmittedSet {
  import opened RingStates

  datatype Key = Key(stream: Stream, fp: string)

  const LIMIT: nat := 100_000

  /** The keys since the last reset, and how many resets there were. */
  datatype Seen = Seen(keys: set<Key>, resets: nat)

  predicate Accepts(s: Seen, k: Key) {
    k.fp == "" || k !in s.keys
  }

  function Grown(s: Seen, k: Key): Seen {
    if k.fp == "" || k in s.keys then s
    else if |s.keys| >= LIMIT then Seen({k}, s.resets + 1)
    else Seen(s.keys + {k}, s.resets)
  }

  /** A row written to the client, and the reset count it was written under. */
  datatype Emission = Emission(key: Key, epoch: nat)

  /** What offering one key writes. */
  function Written(s: Seen, k: Key): seq<Emission> {
    if Accepts(s, k) then [Emission(k, Grown(s, k).resets)] else []
  }

  /** Offering the keys in order. */
  function GrownBy(s: Seen, ks: seq<Key>): Seen {
    if ks == [] then s else Grown(GrownBy(s, ks[..|ks| - 1]), ks[|ks| - 1])
  }

  function WrittenBy(s: Seen, ks: seq<Key>): seq<Emission> {
    if ks == [] then []
    else WrittenBy(s, ks[..|ks| - 1]) + Written(GrownBy(s, ks[..|ks| - 1]), ks[|ks| - 1])
  }

  /** The set as the reader's goroutines share it. */
  class Emitted {
    var seen: set<Key>
    ghost var resets: nat

    ghost function View(): Seen
      reads this
    {
      Seen(seen, resets)
    }

    constructor ()
      ensures View() == Seen({}, 0)
    {
      seen, resets := {}, 0;
    }

    method Add(k: Key) returns (isNew: bool)
      modifies this
      ensures isNew <==> k.fp == "" || k !in old(seen)
      ensures isNew == Accepts(old(View()), k) && View() == Grown(old(View()), k)
    {
      if k.fp == "" {
        return true;
      }
      if k in seen {
        return false;
      }
      if |seen| >= LIMIT {
        seen, resets := {}, resets + 1;
      }
      seen := seen + {k};
      assert {} + {k} == {k};
      return true;
    }
  }

  // ---------- what a run of offers writes ----------

  ghost predicate Wrote(log: seq<Emission>, k: Key) {
    exists i :: 0 <= i < |log| && log[i].key == k
  }

  /** Every key of the current epoch was written in it. */
  ghost predicate Consistent(s: Seen, log: seq<Emission>) {
    && (forall k :: k in s.keys ==> k.fp != "" && Emission(k, s.resets) in log)
    && (forall e :: e in log ==> e.epoch <= s.resets)
    && (forall e :: e in log && e.epoch == s.resets && e.key.fp != "" ==> e.key in s.keys)
  }

  /** No key is written twice between resets. */
  ghost predicate OncePerEpoch(log: seq<Emission>) {
    forall i, j :: 0 <= i < j < |log| && log[i].key.fp != "" ==> log[i] != log[j]
  }

  lemma OfferKeepsOnce(s: Seen, log: seq<Emission>, k: Key)
    requires Consistent(s, log) && OncePerEpoch(log)
    ensures Consistent(Grown(s, k), log + Written(s, k)) && OncePerEpoch(log + Written(s, k))
    ensures Wrote(log + Written(s, k), k)
  {
    var log' := log + Written(s, k);
    if Accepts(s, k) {
      assert log'[|log|].key == k;
    } else {
      assert Emission(k, s.resets) in log;
      var i :| 0 <= i < |log| && log[i] == Emission(k, s.resets);
      assert log'[i].key == k;
    }
  }

  lemma WroteMore(log: seq<Emission>, more: seq<Emission>, k: Key)
    requires Wrote(log, k)
    ensures Wrote(log + more, k)
  {
    var i :| 0 <= i < |log| && log[i].key == k;
    assert (log + more)[i].key == k;
  }

  /** The log after offering ks from state s. */
  function Log(s: Seen, log: seq<Emission>, ks: seq<Key>): seq<Emission> {
    if ks == [] then log
    else
      var n := |ks| - 1;
      Log(s, log, ks[..n]) + Written(GrownBy(s, ks[..n]), ks[n])
  }

  lemma {:induction false} LogIsWritten(s: Seen, log: seq<Emission>, ks: seq<Key>)
    ensures Log(s, log, ks) == log + WrittenBy(s, ks)
  {
    if ks == [] {
      assert log + [] == log;
    } else {
      var n := |ks| - 1;
      LogIsWritten(s, log, ks[..n]);
    }
  }

  /** Offering any keys writes none twice between resets, and writes every key that was not written before. */
  lemma {:induction false} OffersKeepOnce(s: Seen, log: seq<Emission>, ks: seq<Key>)
    requires Consistent(s, log) && OncePerEpoch(log)
    ensures Consistent(GrownBy(s, ks), Log(s, log, ks)) && OncePerEpoch(Log(s, log, ks))
    ensures forall k :: k in ks || Wrote(log, k) ==> Wrote(Log(s, log, ks), k)
    ensures forall e :: e in Log(s, log, ks) ==> e in log || e.key in ks
  {
    if ks != [] {
      var n := |ks| - 1;
      var grown, before := GrownBy(s, ks[..n]), Log(s, log, ks[..n]);
      OffersKeepOnce(s, log, ks[..n]);
      OfferKeepsOnce(grown, before, ks[n]);
      forall k | k in ks || Wrote(log, k) ensures Wrote(Log(s, log, ks), k) {
        if k != ks[n] {
          assert k in ks ==> k in ks[..n];
          WroteMore(before, Written(grown, ks[n]), k);
        }
      }
    }
  }

  /** The set never outgrows its limit. */
  lemma {:induction false} SeenIsBounded(ks: seq<Key>)
    ensures |GrownBy(Seen({}, 0), ks).keys| <= 100_000
  {
    if ks != [] {
      SeenIsBounded(ks[..|ks| - 1]);
    }
  }

  /** A reset takes more than 100000 different keys: until then nothing at all is written twice. */
  lemma {:induction false} NoResetBelowLimit(ks: seq<Key>, distinct: set<Key>)
    requires (forall k :: k in ks ==> k in distinct) && |distinct| <= 100_000
    ensures GrownBy(Seen({}, 0), ks).resets == 0 && GrownBy(Seen({}, 0), ks).keys <= distinct
  {
    if ks != [] {
      var n := |ks| - 1;
      var s := GrownBy(Seen({}, 0), ks[..n]);
      assert forall k :: k in ks[..n] ==> k in ks;
      NoResetBelowLimit(ks[..n], distinct);
      if ks[n] !in s.keys {
        ProperSubset(s.keys, distinct, ks[n]);
      }
    }
  }

  lemma ProperSubset(a: set<Key>, b: set<Key>, k: Key)
    requires a <= b && k in b && k !in a
    ensures |a| < |b|
  {
    assert a + {k} <= b;
    SubsetSize(a + {k}, b);
  }

  lemma {:induction false} SubsetSize(a: set<Key>, b: set<Key>)
    requires a <= b
    ensures |a| <= |b|
  {
    if k :| k in a {
      SubsetSize(a - {k}, b - {k});
    }
  }
}
