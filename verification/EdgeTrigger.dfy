/** Edge-triggered emission with a clear-cooldown, and what it means over a whole history. */
module EdgeTrigger {
  import opened Labels
  import opened TimeWindows

  /** What was true on the previous evaluated row, and when each label was last true. */
  datatype Edge = Edge(active: set<Label>, lastOn: map<Label, Time>)

  /** The rising edges among the current labels that are out of their cooldown, without repeats. */
  function Rising(edge: Edge, current: seq<Label>, now: Time, cooldown: nat): seq<Label> {
    if current == [] then []
    else
      var n := |current| - 1;
      var l := current[n];
      Rising(edge, current[..n], now, cooldown)
      + if l !in current[..n] && Fires(edge, l, now, cooldown) then [l] else []
  }

  predicate Fires(edge: Edge, l: Label, now: Time, cooldown: nat) {
    l !in edge.active && (l in edge.lastOn ==> now - edge.lastOn[l] >= cooldown)
  }

  function SetOf(current: seq<Label>): set<Label> {
    if current == [] then {} else SetOf(current[..|current| - 1]) + {current[|current| - 1]}
  }

  function Stamped(lastOn: map<Label, Time>, current: seq<Label>, now: Time): map<Label, Time> {
    if current == [] then lastOn else Stamped(lastOn, current[..|current| - 1], now)[current[|current| - 1] := now]
  }

  function EdgeAfter(edge: Edge, current: seq<Label>, now: Time): Edge {
    Edge(SetOf(current), Stamped(edge.lastOn, current, now))
  }

  lemma {:induction false} EdgeAfterMeans(edge: Edge, current: seq<Label>, now: Time, l: Label)
    ensures var after := EdgeAfter(edge, current, now);
            && (l in after.active <==> l in current)
            && (l in after.lastOn <==> l in current || l in edge.lastOn)
            && (l in after.lastOn ==> after.lastOn[l] == if l in current then now else edge.lastOn[l])
  {
    if current != [] {
      var n := |current| - 1;
      EdgeAfterMeans(edge, current[..n], now, l);
      assert current == current[..n] + [current[n]];
    }
  }

  /** One more current label: nothing changes when it was there before. */
  lemma EdgeOneMore(was: Edge, current: seq<Label>, i: nat, now: Time)
    requires i < |current|
    ensures var l, before := current[i], EdgeAfter(was, current[..i], now);
            EdgeAfter(was, current[..i + 1], now)
            == if l in before.active then before else Edge(before.active + {l}, before.lastOn[l := now])
  {
    var l, before := current[i], EdgeAfter(was, current[..i], now);
    assert current[..i + 1][..i] == current[..i];
    EdgeAfterMeans(was, current[..i], now, l);
    if l in before.active {
      assert before.active + {l} == before.active;
      assert before.lastOn[l := now] == before.lastOn;
    }
  }

  lemma UnseenKeepsItsTime(was: Edge, current: seq<Label>, l: Label, now: Time)
    requires l !in current
    ensures var before := EdgeAfter(was, current, now);
            l !in before.active && (l in before.lastOn <==> l in was.lastOn) && (l in was.lastOn ==> before.lastOn[l] == was.lastOn[l])
  {
    EdgeAfterMeans(was, current, now, l);
  }

  lemma RisingOneMore(was: Edge, current: seq<Label>, i: nat, now: Time, cooldown: nat)
    requires i < |current|
    ensures Rising(was, current[..i + 1], now, cooldown)
            == Rising(was, current[..i], now, cooldown)
               + if current[i] !in current[..i] && Fires(was, current[i], now, cooldown) then [current[i]] else []
  {
    assert current[..i + 1][..i] == current[..i];
  }

  // ---------- over a history ----------

  /** A row's time and the conditions true on it. */
  datatype Moment = Moment(now: Time, current: seq<Label>)

  /** The state after the first k moments. */
  function EdgeOver(h: seq<Moment>, k: nat): Edge
    requires k <= |h|
  {
    if k == 0 then Edge({}, map[]) else EdgeAfter(EdgeOver(h, k - 1), h[k - 1].current, h[k - 1].now)
  }

  /** What moment k emits. */
  function Emitted(h: seq<Moment>, k: nat, cooldown: nat): seq<Label>
    requires k < |h|
  {
    Rising(EdgeOver(h, k), h[k].current, h[k].now, cooldown)
  }

  lemma {:induction false} RisingLabels(edge: Edge, current: seq<Label>, now: Time, cooldown: nat, l: Label)
    ensures l in Rising(edge, current, now, cooldown) <==> l in current && Fires(edge, l, now, cooldown)
    ensures multiset(Rising(edge, current, now, cooldown))[l] <= 1
  {
    if current != [] {
      var n := |current| - 1;
      var before := Rising(edge, current[..n], now, cooldown);
      RisingLabels(edge, current[..n], now, cooldown, l);
      assert l in current <==> l in current[..n] || l == current[n];
      if l == current[n] && l !in current[..n] && Fires(edge, l, now, cooldown) {
        assert Rising(edge, current, now, cooldown) == before + [l];
      } else if l != current[n] {
        assert l in Rising(edge, current, now, cooldown) <==> l in before;
        assert multiset(Rising(edge, current, now, cooldown))[l] == multiset(before)[l];
      }
    }
  }

  /** The last of the first k moments at which l was true, or -1. */
  function LastTrue(h: seq<Moment>, k: nat, l: Label): (j: int)
    requires k <= |h|
    ensures -1 <= j < k
    ensures j >= 0 ==> l in h[j].current
    ensures forall i :: j < i < k ==> l !in h[i].current
  {
    if k == 0 then -1 else if l in h[k - 1].current then k - 1 else LastTrue(h, k - 1, l)
  }

  /** The state holds just enough of the history. */
  lemma {:induction false} EdgeRemembersHistory(h: seq<Moment>, k: nat, l: Label)
    requires k <= |h|
    ensures var edge, j := EdgeOver(h, k), LastTrue(h, k, l);
            && (l in edge.active <==> k > 0 && l in h[k - 1].current)
            && (l in edge.lastOn <==> j >= 0)
            && (j >= 0 ==> edge.lastOn[l] == h[j].now)
  {
    if k > 0 {
      EdgeRemembersHistory(h, k - 1, l);
      EdgeAfterMeans(EdgeOver(h, k - 1), h[k - 1].current, h[k - 1].now, l);
    }
  }

  /** Among the first k moments l was last true, if it ever was, at least the cooldown before `now`. */
  ghost predicate Clear(h: seq<Moment>, k: nat, l: Label, now: Time, cooldown: nat)
    requires k <= |h|
  {
    forall j :: 0 <= j < k && l in h[j].current && (forall i :: j < i < k ==> l !in h[i].current) ==> now - h[j].now >= cooldown
  }

  lemma ClearMeans(h: seq<Moment>, k: nat, l: Label, now: Time, cooldown: nat)
    requires k <= |h|
    ensures Clear(h, k, l, now, cooldown) <==> (LastTrue(h, k, l) >= 0 ==> now - h[LastTrue(h, k, l)].now >= cooldown)
  {
    var t := LastTrue(h, k, l);
    assert forall j :: 0 <= j < k && l in h[j].current ==> j <= t;
  }

  /** l is among `shown` exactly when it is true at moment k, was not true a moment before, and was last true
      at least the cooldown earlier, if it ever was; and it is there once. */
  ghost predicate FiresByHistory(h: seq<Moment>, k: nat, l: Label, shown: seq<Label>, cooldown: nat) {
    && k < |h|
    && (l in shown <==> l in h[k].current && (k > 0 ==> l !in h[k - 1].current) && Clear(h, k, l, h[k].now, cooldown))
    && multiset(shown)[l] <= 1
  }

  lemma EmittedMeans(h: seq<Moment>, k: nat, cooldown: nat, l: Label)
    requires k < |h|
    ensures FiresByHistory(h, k, l, Emitted(h, k, cooldown), cooldown)
  {
    RisingLabels(EdgeOver(h, k), h[k].current, h[k].now, cooldown, l);
    EdgeRemembersHistory(h, k, l);
    ClearMeans(h, k, l, h[k].now, cooldown);
  }

  /** Which moments emit l. */
  function Firings(h: seq<Moment>, cooldown: nat, l: Label): (fired: seq<bool>)
    ensures |fired| == |h|
  {
    seq(|h|, i requires 0 <= i < |h| => l in Emitted(h, i, cooldown))
  }

  /** How many of the first k flags are up. */
  function Count(flags: seq<bool>, k: nat): nat
    requires k <= |flags|
  {
    if k == 0 then 0 else Count(flags, k - 1) + if flags[k - 1] then 1 else 0
  }

  ghost predicate InTimeOrder(h: seq<Moment>) {
    forall i, j :: 0 <= i <= j < |h| ==> h[i].now <= h[j].now
  }

  /** The time that `chips` emissions take when they are a cooldown apart. */
  function Spread(chips: nat, cooldown: nat): nat {
    if chips <= 1 then 0 else Spread(chips - 1, cooldown) + cooldown
  }

  lemma {:induction false} SpreadIsProduct(chips: nat, cooldown: nat)
    requires chips > 0
    ensures Spread(chips, cooldown) == (chips - 1) * cooldown
  {
    if chips > 1 {
      SpreadIsProduct(chips - 1, cooldown);
      assert (chips - 1) * cooldown == (chips - 2) * cooldown + cooldown;
    }
  }

  lemma MoreTakeLonger(a: nat, b: nat, c: nat)
    requires a <= b
    ensures a * c <= b * c
  {
  }

  lemma FitsQuotient(k: nat, c: nat, span: int)
    requires c > 0 && k * c <= span
    ensures k <= span / c
  {
    var q := span / c;
    assert span < q * c + c;
    if k > q {
      MoreTakeLonger(q + 1, k, c);
    }
  }

  lemma SpreadFits(chips: nat, cooldown: nat, span: int)
    requires cooldown > 0 && span >= 0 && Spread(chips, cooldown) <= span
    ensures chips <= 1 + span / cooldown
  {
    if chips > 0 {
      SpreadIsProduct(chips, cooldown);
      FitsQuotient(chips - 1, cooldown, span);
    }
  }

  lemma {:induction false} ChipsAreSpaced(h: seq<Moment>, k: nat, cooldown: nat, l: Label)
    requires InTimeOrder(h) && k <= |h|
    ensures var chips := Count(Firings(h, cooldown, l), k);
            chips > 0 ==> LastTrue(h, k, l) >= 0 && Spread(chips, cooldown) <= h[LastTrue(h, k, l)].now - h[0].now
  {
    if k > 0 {
      ChipsAreSpaced(h, k - 1, cooldown, l);
      if l in Emitted(h, k - 1, cooldown) {
        FiringNeedsClear(h, k - 1, cooldown, l);
      }
    }
  }

  lemma FiringNeedsClear(h: seq<Moment>, k: nat, cooldown: nat, l: Label)
    requires k < |h| && l in Emitted(h, k, cooldown)
    ensures l in h[k].current && (LastTrue(h, k, l) >= 0 ==> h[k].now - h[LastTrue(h, k, l)].now >= cooldown)
  {
    EmittedMeans(h, k, cooldown, l);
    ClearMeans(h, k, l, h[k].now, cooldown);
  }

  /** Over a history a label is emitted at most once per cooldown that fits into it, and once more. */
  lemma ChipCountIsBounded(h: seq<Moment>, cooldown: nat, l: Label, span: int)
    requires h != [] && InTimeOrder(h) && cooldown > 0 && span == h[|h| - 1].now - h[0].now
    ensures Count(Firings(h, cooldown, l), |h|) <= 1 + span / cooldown
  {
    ChipsFit(h, cooldown, l);
    SpreadFits(Count(Firings(h, cooldown, l), |h|), cooldown, span);
  }

  lemma ChipsFit(h: seq<Moment>, cooldown: nat, l: Label)
    requires h != [] && InTimeOrder(h)
    ensures 0 <= Spread(Count(Firings(h, cooldown, l), |h|), cooldown) <= h[|h| - 1].now - h[0].now
  {
    ChipsAreSpaced(h, |h|, cooldown, l);
    var t := LastTrue(h, |h|, l);
    if t >= 0 {
      assert h[t].now <= h[|h| - 1].now;
    }
    assert h[0].now <= h[|h| - 1].now;
  }
}
