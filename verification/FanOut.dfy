/** Fan-out from one ring bucket to its subscribers, over any run of adds, registrations, cancellations and
    receives. */
module FanOut {
  import opened RingStates

  type Chan = nat
  type Item = nat

  datatype Event = Added(item: Item) | Joined(chan: Chan) | Cancelled(chan: Chan) | Took(chan: Chan)

  datatype Fan = Fan(subscribers: seq<Chan>, queues: map<Chan, seq<Item>>, taken: map<Chan, seq<Item>>, closed: set<Chan>)

  // ---------- swap-and-truncate ----------

  function IndexOf<T(==)>(s: seq<T>, x: T): (i: nat)
    requires x in s
    ensures i < |s| && s[i] == x && x !in s[..i]
  {
    if s[0] == x then 0 else 1 + IndexOf(s[1..], x)
  }

  /** The last element takes the place of x. */
  function SwapOut<T(==)>(s: seq<T>, x: T): seq<T> {
    if x !in s then s else s[IndexOf(s, x) := s[|s| - 1]][..|s| - 1]
  }

  ghost predicate Distinct<T>(s: seq<T>) {
    forall i, j :: 0 <= i < j < |s| ==> s[i] != s[j]
  }

  lemma SwapOutRemoves<T>(s: seq<T>, x: T)
    requires Distinct(s)
    ensures Distinct(SwapOut(s, x))
    ensures forall y :: y in SwapOut(s, x) <==> y in s && y != x
  {
    if x in s {
      var i, n := IndexOf(s, x), |s| - 1;
      var out := SwapOut(s, x);
      assert forall j :: 0 <= j < n ==> out[j] == if j == i then s[n] else s[j];
      forall y | y in s && y != x ensures y in out {
        var j :| 0 <= j < |s| && s[j] == y;
        assert out[if j == n then i else j] == y;
      }
    }
  }

  // ---------- the bucket ----------

  function Empty(): Fan {
    Fan([], map[], map[], {})
  }

  /** The sends of one Add: no channel is named that is not in the subscriber list. */
  function Delivered(f: Fan, capacity: nat, item: Item): map<Chan, seq<Item>> {
    map c | c in f.queues :: if c in f.subscribers then Offered(f.queues[c], capacity, item) else f.queues[c]
  }

  predicate Allowed(f: Fan, e: Event) {
    match e
    case Added(_) => true
    case Joined(c) => c !in f.queues && c !in f.closed
    case Cancelled(c) => c in f.queues && c !in f.closed
    case Took(c) => c in f.queues && c in f.taken && f.queues[c] != []
  }

  function Next(f: Fan, e: Event, capacity: nat): Fan {
    match e
    case Added(item) => f.(queues := Delivered(f, capacity, item))
    case Joined(c) => f.(subscribers := f.subscribers + [c], queues := f.queues[c := []], taken := f.taken[c := []])
    case Cancelled(c) => f.(subscribers := SwapOut(f.subscribers, c), closed := f.closed + {c})
    case Took(c) =>
      if c in f.queues && c in f.taken && f.queues[c] != []
      then f.(queues := f.queues[c := f.queues[c][1..]], taken := f.taken[c := f.taken[c] + [f.queues[c][0]]])
      else f
  }

  function After(h: seq<Event>, k: nat, capacity: nat): Fan
    requires k <= |h|
  {
    if k == 0 then Empty() else Next(After(h, k - 1, capacity), h[k - 1], capacity)
  }

  predicate PossibleAt(h: seq<Event>, k: nat, capacity: nat) {
    k < |h| && Allowed(After(h, k, capacity), h[k])
  }

  ghost predicate Possible(h: seq<Event>, capacity: nat) {
    forall k: nat {:trigger PossibleAt(h, k, capacity)} :: k < |h| ==> PossibleAt(h, k, capacity)
  }

  // ---------- what one subscriber is due ----------

  /** c has registered among the first k events. */
  predicate HasJoined(h: seq<Event>, k: nat, c: Chan)
    requires k <= |h|
  {
    exists i :: 0 <= i < k && h[i] == Joined(c)
  }

  predicate HasCancelled(h: seq<Event>, k: nat, c: Chan)
    requires k <= |h|
  {
    exists i :: 0 <= i < k && h[i] == Cancelled(c)
  }

  function Tooks(h: seq<Event>, k: nat, c: Chan): nat
    requires k <= |h|
  {
    if k == 0 then 0 else Tooks(h, k - 1, c) + if h[k - 1] == Took(c) then 1 else 0
  }

  /** The adds that came while c was registered and found room: fewer than `capacity` of the accepted ones
      were still untaken. */
  function Accepted(h: seq<Event>, k: nat, capacity: nat, c: Chan): seq<Item>
    requires k <= |h|
  {
    if k == 0 then []
    else
      var before := Accepted(h, k - 1, capacity, c);
      if h[k - 1].Added? && HasJoined(h, k - 1, c) && !HasCancelled(h, k - 1, c)
         && |before| - Tooks(h, k - 1, c) < capacity
      then before + [h[k - 1].item]
      else before
  }

  // ---------- safety and exactness ----------

  /** What the history says of channel c in the state after it. */
  ghost predicate ChanInv(f: Fan, h: seq<Event>, k: nat, capacity: nat, c: Chan)
    requires k <= |h|
  {
    && (c in f.queues <==> HasJoined(h, k, c)) && (c in f.taken <==> HasJoined(h, k, c))
    && (c in f.closed <==> HasCancelled(h, k, c))
    && (c in f.subscribers <==> c in f.queues && c !in f.closed)
    && (c in f.closed ==> c in f.queues)
    && (if c in f.queues && c in f.taken
        then f.taken[c] + f.queues[c] == Accepted(h, k, capacity, c) && |f.taken[c]| == Tooks(h, k, c)
        else Accepted(h, k, capacity, c) == [] && Tooks(h, k, c) == 0)
  }

  ghost predicate FanInv(f: Fan, h: seq<Event>, k: nat, capacity: nat)
    requires k <= |h|
  {
    Distinct(f.subscribers) && forall c :: ChanInv(f, h, k, capacity, c)
  }

  lemma JoinedNext(h: seq<Event>, k: nat, c: Chan)
    requires k < |h|
    ensures HasJoined(h, k + 1, c) <==> HasJoined(h, k, c) || h[k] == Joined(c)
    ensures HasCancelled(h, k + 1, c) <==> HasCancelled(h, k, c) || h[k] == Cancelled(c)
  {
  }

  lemma StepKeepsChan(f: Fan, h: seq<Event>, k: nat, capacity: nat, c: Chan)
    requires k < |h| && FanInv(f, h, k, capacity) && Allowed(f, h[k])
    ensures ChanInv(Next(f, h[k], capacity), h, k + 1, capacity, c)
  {
    assert ChanInv(f, h, k, capacity, c);
    JoinedNext(h, k, c);
    match h[k]
    case Added(item) =>
    case Joined(d) =>
    case Cancelled(d) => SwapOutRemoves(f.subscribers, d);
    case Took(d) =>
      if d == c {
        assert f.queues[c] == [f.queues[c][0]] + f.queues[c][1..];
      }
  }

  lemma {:induction false} HistoryKeepsFan(h: seq<Event>, k: nat, capacity: nat)
    requires Possible(h, capacity) && k <= |h|
    ensures FanInv(After(h, k, capacity), h, k, capacity)
  {
    if k > 0 {
      var f := After(h, k - 1, capacity);
      HistoryKeepsFan(h, k - 1, capacity);
      assert PossibleAt(h, k - 1, capacity);
      var f' := Next(f, h[k - 1], capacity);
      forall c ensures ChanInv(f', h, k, capacity, c) {
        StepKeepsChan(f, h, k - 1, capacity, c);
      }
      if h[k - 1].Cancelled? {
        SwapOutRemoves(f.subscribers, h[k - 1].chan);
      } else if h[k - 1].Joined? {
        assert ChanInv(f, h, k - 1, capacity, h[k - 1].chan);
      }
    }
  }

  /** No send goes to a closed channel, and each subscriber has received or has queued, in order, exactly the
      adds after its registration that found room. */
  lemma FanOutIsExact(h: seq<Event>, k: nat, capacity: nat, c: Chan)
    requires Possible(h, capacity) && k <= |h|
    ensures var f := After(h, k, capacity);
            && (c in f.subscribers ==> c !in f.closed)
            && (c in f.queues && c in f.taken ==> f.taken[c] + f.queues[c] == Accepted(h, k, capacity, c))
            && (HasJoined(h, k, c) ==> c in f.queues && c in f.taken)
  {
    HistoryKeepsFan(h, k, capacity);
    assert ChanInv(After(h, k, capacity), h, k, capacity, c);
  }
}
