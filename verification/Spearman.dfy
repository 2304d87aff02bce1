/** Spearman rank correlation with tie-averaged ranks. */
module Spearman {
  import opened Wrappers

  // ---------- what a tie-averaged rank is ----------

  function Smaller(xs: seq<real>, x: real): nat {
    if xs == [] then 0 else (if xs[0] < x then 1 else 0) + Smaller(xs[1..], x)
  }

  function Equal(xs: seq<real>, x: real): nat {
    if xs == [] then 0 else (if xs[0] == x then 1 else 0) + Equal(xs[1..], x)
  }

  /** The mean of the one-based positions that the values equal to x hold in sorted order. */
  function RankOf(xs: seq<real>, x: real): real {
    Smaller(xs, x) as real + (Equal(xs, x) as real + 1.0) / 2.0
  }

  /** The ranks among xs of the values ys. */
  function RanksAmong(xs: seq<real>, ys: seq<real>): (r: seq<real>)
    ensures |r| == |ys|
  {
    seq(|ys|, i requires 0 <= i < |ys| => RankOf(xs, ys[i]))
  }

  function Ranks(xs: seq<real>): (r: seq<real>) {
    RanksAmong(xs, xs)
  }

  function Sum(xs: seq<real>): real {
    if xs == [] then 0.0 else xs[0] + Sum(xs[1..])
  }

  // ---------- counting ----------

  lemma {:induction false} CountAppend(a: seq<real>, b: seq<real>, x: real)
    ensures Smaller(a + b, x) == Smaller(a, x) + Smaller(b, x)
    ensures Equal(a + b, x) == Equal(a, x) + Equal(b, x)
  {
    if a == [] {
      assert a + b == b;
    } else {
      assert (a + b)[1..] == a[1..] + b;
      CountAppend(a[1..], b, x);
    }
  }

  /** Counts in a run of values that all lie below x, all equal it, or all lie above it. */
  lemma {:induction false} CountBelowAll(a: seq<real>, x: real)
    requires forall i :: 0 <= i < |a| ==> a[i] < x
    ensures Smaller(a, x) == |a| && Equal(a, x) == 0
  {
    if a != [] {
      CountBelowAll(a[1..], x);
    }
  }

  lemma {:induction false} CountSame(a: seq<real>, x: real)
    requires forall i :: 0 <= i < |a| ==> a[i] == x
    ensures Smaller(a, x) == 0 && Equal(a, x) == |a|
  {
    if a != [] {
      CountSame(a[1..], x);
    }
  }

  lemma {:induction false} CountAboveAll(a: seq<real>, x: real)
    requires forall i :: 0 <= i < |a| ==> a[i] > x
    ensures Smaller(a, x) == 0 && Equal(a, x) == 0
  {
    if a != [] {
      CountAboveAll(a[1..], x);
    }
  }

  // ---------- the ranking as it runs ----------

  /** A value with its place in the input. */
  datatype Indexed = Indexed(place: nat, value: real)

  function Values(s: seq<Indexed>): (v: seq<real>)
    ensures |v| == |s| && forall i :: 0 <= i < |s| ==> v[i] == s[i].value
  {
    seq(|s|, i requires 0 <= i < |s| => s[i].value)
  }

  predicate Sorted(s: seq<Indexed>) {
    forall i, j :: 0 <= i < j < |s| ==> s[i].value <= s[j].value
  }

  /** s lists every place of xs once, each with its value. */
  ghost predicate Lists(s: seq<Indexed>, xs: seq<real>) {
    && |s| == |xs|
    && (forall i :: 0 <= i < |s| ==> s[i].place < |xs| && xs[s[i].place] == s[i].value)
    && (forall p :: 0 <= p < |xs| ==> Covers(s, p))
  }

  ghost predicate Covers(s: seq<Indexed>, p: nat) {
    exists i :: 0 <= i < |s| && s[i].place == p
  }

  ghost predicate SameCounts(a: seq<real>, b: seq<real>) {
    forall x :: Smaller(a, x) == Smaller(b, x) && Equal(a, x) == Equal(b, x)
  }

  /** Where a value goes: behind everything not larger. */
  method InsertionPoint(s: seq<Indexed>, value: real) returns (k: nat)
    requires Sorted(s)
    ensures k <= |s|
    ensures forall i :: 0 <= i < k ==> s[i].value <= value
    ensures forall i :: k <= i < |s| ==> s[i].value > value
  {
    k := |s|;
    while k > 0 && s[k - 1].value > value
      invariant k <= |s|
      invariant forall i :: k <= i < |s| ==> s[i].value > value
    {
      k := k - 1;
    }
  }

  /** sorted(enumerate(xs), key=value) */
  method SortIndexed(xs: seq<real>) returns (s: seq<Indexed>)
    ensures Sorted(s) && Lists(s, xs) && SameCounts(Values(s), xs)
  {
    s := [];
    for n := 0 to |xs|
      invariant Sorted(s) && Lists(s, xs[..n]) && SameCounts(Values(s), xs[..n])
    {
      var k := InsertionPoint(s, xs[n]);
      InsertedPlaces(s, k, xs, n);
      InsertedCounts(s, k, xs, n);
      s := s[..k] + [Indexed(n, xs[n])] + s[k..];
    }
    assert xs[..|xs|] == xs;
  }

  lemma InsertedPlaces(s: seq<Indexed>, k: nat, xs: seq<real>, n: nat)
    requires n < |xs| && k <= |s| && Lists(s, xs[..n])
    ensures Lists(s[..k] + [Indexed(n, xs[n])] + s[k..], xs[..n + 1])
  {
    var s' := s[..k] + [Indexed(n, xs[n])] + s[k..];
    forall p | 0 <= p < n + 1 ensures Covers(s', p) {
      if p == n {
        assert s'[k].place == p;
      } else {
        assert Covers(s, p);
        var i :| 0 <= i < |s| && s[i].place == p;
        assert s'[if i < k then i else i + 1].place == p;
      }
    }
  }

  lemma InsertedCounts(s: seq<Indexed>, k: nat, xs: seq<real>, n: nat)
    requires n < |xs| && k <= |s| && SameCounts(Values(s), xs[..n])
    ensures SameCounts(Values(s[..k] + [Indexed(n, xs[n])] + s[k..]), xs[..n + 1])
  {
    var vs, y := Values(s), xs[n];
    assert vs == vs[..k] + [] + vs[k..];
    assert Values(s[..k] + [Indexed(n, y)] + s[k..]) == vs[..k] + [y] + vs[k..];
    assert xs[..n + 1] == xs[..n] + [y];
    forall x ensures Smaller(vs[..k] + [y] + vs[k..], x) == Smaller(xs[..n] + [y], x)
                  && Equal(vs[..k] + [y] + vs[k..], x) == Equal(xs[..n] + [y], x)
    {
      Counts3(vs[..k], [y], vs[k..], x);
      Counts3(vs[..k], [], vs[k..], x);
      CountAppend(xs[..n], [y], x);
    }
  }

  /** In sorted order, the run i..j of a value is where its rank says it is. */
  lemma RankOfRun(s: seq<Indexed>, xs: seq<real>, i: nat, j: nat)
    requires Sorted(s) && SameCounts(Values(s), xs) && i <= j < |s|
    requires forall k :: i <= k <= j ==> s[k].value == s[i].value
    requires i > 0 ==> s[i - 1].value != s[i].value
    requires j + 1 < |s| ==> s[j + 1].value != s[i].value
    ensures RankOf(xs, s[i].value) == (i + j) as real / 2.0 + 1.0
  {
    var vs, x := Values(s), s[i].value;
    assert Smaller(vs, x) == i && Equal(vs, x) == j + 1 - i by {
      CountsOfRun(vs, i, j + 1);
    }
  }

  lemma CountsOfRun(vs: seq<real>, i: nat, j: nat)
    requires i < j <= |vs|
    requires forall k :: 0 <= k < i ==> vs[k] < vs[i]
    requires forall k :: i <= k < j ==> vs[k] == vs[i]
    requires forall k :: j <= k < |vs| ==> vs[k] > vs[i]
    ensures Smaller(vs, vs[i]) == i && Equal(vs, vs[i]) == j - i
  {
    var x := vs[i];
    var low, run, high := vs[..i], vs[i..j], vs[j..];
    CountBelowAll(low, x);
    CountSame(run, x);
    CountAboveAll(high, x);
    Counts3(low, run, high, x);
    assert vs == low + run + high;
  }

  lemma Counts3(a: seq<real>, b: seq<real>, c: seq<real>, x: real)
    ensures Smaller(a + b + c, x) == Smaller(a, x) + Smaller(b, x) + Smaller(c, x)
    ensures Equal(a + b + c, x) == Equal(a, x) + Equal(b, x) + Equal(c, x)
  {
    CountAppend(a + b, c, x);
    CountAppend(a, b, x);
  }

  /** Ties share the mean of their positions: the ranks written group by group are the counted ones. */
  method ComputeRanks(xs: seq<real>) returns (ranks: seq<real>)
    ensures ranks == Ranks(xs)
  {
    var indexed := SortIndexed(xs);
    ranks := seq(|xs|, _ => 0.0);
    var i := 0;
    while i < |indexed|
      invariant 0 <= i <= |indexed| && |ranks| == |xs|
      invariant 0 < i < |indexed| ==> indexed[i - 1].value != indexed[i].value
      invariant forall k :: 0 <= k < i ==> ranks[indexed[k].place] == RankOf(xs, indexed[k].value)
    {
      var j := i;
      while j + 1 < |indexed| && indexed[j + 1].value == indexed[i].value
        invariant i <= j < |indexed|
        invariant forall k :: i <= k <= j ==> indexed[k].value == indexed[i].value
      {
        j := j + 1;
      }
      var avg := (i + j) as real / 2.0 + 1.0;
      RankOfRun(indexed, xs, i, j);
      for k := i to j + 1
        invariant |ranks| == |xs|
        invariant forall m :: 0 <= m < k ==> ranks[indexed[m].place] == RankOf(xs, indexed[m].value)
      {
        ranks := ranks[indexed[k].place := avg];
      }
      i := j + 1;
    }
    forall p | 0 <= p < |xs| ensures ranks[p] == RankOf(xs, xs[p]) {
      assert Covers(indexed, p);
      var k :| 0 <= k < |indexed| && indexed[k].place == p;
    }
  }

  // ---------- properties of the ranks ----------

  /** Prepending x raises the rank of every larger value by one and of every equal one by a half. */
  lemma {:induction false} RanksAfterPrepend(x: real, xs: seq<real>, ys: seq<real>)
    ensures Sum(RanksAmong([x] + xs, ys))
         == Sum(RanksAmong(xs, ys)) + (|ys| - Smaller(ys, x) - Equal(ys, x)) as real + Equal(ys, x) as real / 2.0
  {
    if ys != [] {
      RanksAfterPrepend(x, xs, ys[1..]);
      CountAppend([x], xs, ys[0]);
      assert RanksAmong(xs, ys)[1..] == RanksAmong(xs, ys[1..]);
      assert RanksAmong([x] + xs, ys)[1..] == RanksAmong([x] + xs, ys[1..]);
      assert Smaller([x], ys[0]) == if x < ys[0] then 1 else 0;
      assert Equal([x], ys[0]) == if x == ys[0] then 1 else 0;
    }
  }

  /** However the values tie, their ranks sum to 1 + 2 + ... + n. */
  lemma {:induction false} RankSum(xs: seq<real>)
    ensures Sum(Ranks(xs)) == (|xs| * (|xs| + 1)) as real / 2.0
  {
    if xs != [] {
      var x, rest := xs[0], xs[1..];
      assert xs == [x] + rest;
      RankSum(rest);
      RanksAfterPrepend(x, rest, rest);
      assert Ranks(xs)[1..] == RanksAmong(xs, rest);
      CountAppend([x], rest, x);
      assert Smaller([x], x) == 0 && Equal([x], x) == 1;
      assert Sum(Ranks(xs)) == Sum(Ranks(rest)) + |xs| as real;
      Triangle(|rest|);
    }
  }

  lemma Triangle(n: nat)
    ensures ((n + 1) * (n + 2)) as real / 2.0 == (n * (n + 1)) as real / 2.0 + (n + 1) as real
  {
    assert (n + 1) * (n + 2) == n * (n + 1) + 2 * (n + 1);
  }

  /** Larger values rank strictly higher (equal ones share a rank, as RankOf is a function of the value),
      and every rank lies in 1..n. */
  lemma RanksFollowValues(xs: seq<real>, x: real, y: real)
    requires x in xs && y in xs
    ensures x < y <==> RankOf(xs, x) < RankOf(xs, y)
    ensures 1.0 <= RankOf(xs, x) <= |xs| as real
  {
    Occurs(xs, x);
    Occurs(xs, y);
    CountBelow(xs, x, y);
    CountBelow(xs, y, x);
  }

  lemma {:induction false} Occurs(xs: seq<real>, x: real)
    ensures x in xs ==> Equal(xs, x) > 0
    ensures Smaller(xs, x) + Equal(xs, x) <= |xs|
  {
    if xs != [] {
      Occurs(xs[1..], x);
    }
  }

  lemma {:induction false} CountBelow(xs: seq<real>, x: real, y: real)
    ensures x < y ==> Smaller(xs, x) + Equal(xs, x) <= Smaller(xs, y)
  {
    if xs != [] {
      CountBelow(xs[1..], x, y);
    }
  }

  // ---------- the coefficient ----------

  function Times(a: real, b: real): real {
    a * b
  }

  function Dot(a: seq<real>, b: seq<real>): real
    requires |a| == |b|
  {
    if a == [] then 0.0 else Times(a[0], b[0]) + Dot(a[1..], b[1..])
  }

  /** Deviations from a given mean. */
  function Deviations(r: seq<real>, mean: real): (d: seq<real>)
    ensures |d| == |r|
  {
    seq(|r|, i requires 0 <= i < |r| => r[i] - mean)
  }

  /** The ranks of xs, less their mean. */
  function Centred(xs: seq<real>): (d: seq<real>)
    requires xs != []
    ensures |d| == |xs|
  {
    Deviations(Ranks(xs), Sum(Ranks(xs)) / |xs| as real)
  }

  /** rho is num / sqrt(sxx * syy), or not a number. */
  datatype Rho = NaN | Rho(num: real, sxx: real, syy: real)

  function SpearmanOf(xs: seq<real>, ys: seq<real>): Rho
    requires |xs| == |ys|
  {
    if |xs| < 2 then NaN
    else
      var dx, dy := Centred(xs), Centred(ys);
      if Dot(dx, dx) == 0.0 || Dot(dy, dy) == 0.0 then NaN else Rho(Dot(dx, dy), Dot(dx, dx), Dot(dy, dy))
  }

  lemma PositiveProduct(a: real, b: real)
    requires a > 0.0 && b > 0.0
    ensures Times(a, b) > 0.0
  {
  }

  lemma NegatedFactors(a: real, b: real)
    ensures Times(-a, -b) == Times(a, b)
  {
  }

  lemma Square(x: real)
    ensures Times(x, x) >= 0.0
    ensures Times(x, x) == 0.0 <==> x == 0.0
  {
    if x > 0.0 {
      PositiveProduct(x, x);
    } else if x < 0.0 {
      PositiveProduct(-x, -x);
      NegatedFactors(x, x);
    }
  }

  lemma LargerSquare(p: real, q: real)
    requires p > q >= 0.0
    ensures p * p > q * q
  {
    var d, s := p - q, p + q;
    assert d * s > 0.0;
    assert p * p - q * q == d * s;
  }

  lemma SquareOrder(p: real, q: real)
    requires q >= 0.0 && p * p <= q * q
    ensures -q <= p <= q
  {
    if p > q {
      LargerSquare(p, q);
    }
    if -p > q {
      LargerSquare(-p, q);
    }
  }

  predicate SquareWithin(c: real, a: real, b: real) {
    c * c <= a * b
  }

  /** The cross term is at most the mean of the outer ones. */
  lemma CrossTerm(a: real, b: real, c: real, x: real, y: real)
    requires a >= 0.0 && b >= 0.0 && c * c <= a * b
    ensures 2.0 * c * (x * y) <= a * y * y + b * x * x
  {
    var u, v, w := a * y * y, b * x * x, x * y;
    var p, q := 2.0 * c * w, u + v;
    assert u >= 0.0 && v >= 0.0 by {
      assert y * y >= 0.0 && x * x >= 0.0;
      assert u == a * (y * y) && v == b * (x * x);
    }
    assert w * w >= 0.0;
    assert (c * c) * (w * w) <= (a * b) * (w * w);
    assert p * p == 4.0 * ((c * c) * (w * w));
    assert u * v == (a * b) * (w * w);
    assert q * q - 4.0 * (u * v) == (u - v) * (u - v) >= 0.0;
    SquareOrder(p, q);
  }

  /** One step of the inequality below. */
  lemma CauchyStep(a: real, b: real, c: real, x: real, y: real)
    requires a >= 0.0 && b >= 0.0 && SquareWithin(c, a, b)
    ensures SquareWithin(Times(x, y) + c, Times(x, x) + a, Times(y, y) + b)
  {
    CrossTerm(a, b, c, x, y);
    var w, p, q := x * y, 2.0 * c * (x * y), a * y * y + b * x * x;
    assert (c + w) * (c + w) == c * c + p + w * w;
    assert (a + x * x) * (b + y * y) == a * b + q + w * w;
  }

  lemma {:induction false} CauchySchwarz(a: seq<real>, b: seq<real>)
    requires |a| == |b|
    ensures Dot(a, a) >= 0.0 && Dot(b, b) >= 0.0
    ensures SquareWithin(Dot(a, b), Dot(a, a), Dot(b, b))
  {
    if a != [] {
      var s, t := a[1..], b[1..];
      CauchySchwarz(s, t);
      CauchyStep(Dot(s, s), Dot(t, t), Dot(s, t), a[0], b[0]);
      Square(a[0]);
      Square(b[0]);
    }
  }

  /** Whatever the data, rho lies in [-1, 1]: its squared numerator never exceeds the product of the two
      sums of squares, so neither does it against their square roots dx and dy. */
  lemma RhoIsBounded(xs: seq<real>, ys: seq<real>, dx: real, dy: real)
    requires |xs| == |ys| && SpearmanOf(xs, ys).Rho?
    requires dx >= 0.0 && dx * dx == SpearmanOf(xs, ys).sxx
    requires dy >= 0.0 && dy * dy == SpearmanOf(xs, ys).syy
    ensures dx * dy > 0.0
    ensures -1.0 <= SpearmanOf(xs, ys).num / (dx * dy) <= 1.0
  {
    var rho := SpearmanOf(xs, ys);
    assert SquareWithin(rho.num, rho.sxx, rho.syy) by {
      CauchySchwarz(Centred(xs), Centred(ys));
    }
    assert rho.sxx != 0.0 && rho.syy != 0.0;
    RatioIsBounded(rho.num, dx, dy);
  }

  lemma RatioIsBounded(num: real, dx: real, dy: real)
    requires dx >= 0.0 && dy >= 0.0 && dx * dx != 0.0 && dy * dy != 0.0
    requires SquareWithin(num, dx * dx, dy * dy)
    ensures dx * dy > 0.0 && -1.0 <= num / (dx * dy) <= 1.0
  {
    var d := dx * dy;
    assert d * d == dx * dx * (dy * dy);
    SquareOrder(num, d);
    Quotient(num, d);
  }

  lemma Exceeds(x: real, q: real)
    requires x > 1.0 && q > 0.0
    ensures x * q > q
  {
    assert x * q - q == (x - 1.0) * q;
  }

  lemma Quotient(p: real, q: real)
    requires q > 0.0 && -q <= p <= q
    ensures -1.0 <= p / q <= 1.0
  {
    var x := p / q;
    assert x * q == p;
    if x > 1.0 {
      Exceeds(x, q);
    }
    if -x > 1.0 {
      Exceeds(-x, q);
    }
  }

  // ---------- what the coefficient measures ----------

  lemma {:induction false} CountsAgree(a: seq<real>, b: seq<real>, x: real, y: real)
    requires |a| == |b|
    requires forall k :: 0 <= k < |a| ==> (a[k] < x <==> b[k] < y) && (a[k] == x <==> b[k] == y)
    ensures Smaller(a, x) == Smaller(b, y) && Equal(a, x) == Equal(b, y)
  {
    if a != [] {
      CountsAgree(a[1..], b[1..], x, y);
    }
  }

  lemma {:induction false} CountsOppose(a: seq<real>, b: seq<real>, x: real, y: real)
    requires |a| == |b|
    requires forall k :: 0 <= k < |a| ==> (a[k] < x <==> b[k] > y) && (a[k] == x <==> b[k] == y)
    ensures Smaller(a, x) + Equal(a, x) + Smaller(b, y) == |a| && Equal(a, x) == Equal(b, y)
  {
    if a != [] {
      CountsOppose(a[1..], b[1..], x, y);
    }
  }

  predicate SameOrder(xs: seq<real>, ys: seq<real>) {
    && |xs| == |ys|
    && forall i, j :: 0 <= i < |xs| && 0 <= j < |xs| ==> (xs[i] < xs[j] <==> ys[i] < ys[j])
  }

  predicate OppositeOrder(xs: seq<real>, ys: seq<real>) {
    && |xs| == |ys|
    && forall i, j :: 0 <= i < |xs| && 0 <= j < |xs| ==> (xs[i] < xs[j] <==> ys[i] > ys[j])
  }

  /** The mean rank depends on the number of values alone. */
  lemma MeanRank(xs: seq<real>)
    requires xs != []
    ensures Sum(Ranks(xs)) / |xs| as real == (|xs| as real + 1.0) / 2.0
  {
    RankSum(xs);
    var n, m := |xs| as real, (|xs| as real + 1.0) / 2.0;
    assert (|xs| * (|xs| + 1)) as real == n * (n + 1.0);
    assert n * m == n * (n + 1.0) / 2.0;
    Divide(Sum(Ranks(xs)), n, m);
  }

  lemma Divide(p: real, n: real, m: real)
    requires n > 0.0 && p == n * m
    ensures p / n == m
  {
    assert n * (p / n) == p;
    assert n * (p / n - m) == n * (p / n) - n * m;
  }

  lemma {:induction false} DotOpposite(a: seq<real>, b: seq<real>)
    requires |a| == |b| && forall i :: 0 <= i < |a| ==> b[i] == -a[i]
    ensures Dot(b, b) == Dot(a, a) && Dot(a, b) == -Dot(a, a)
  {
    if a != [] {
      DotOpposite(a[1..], b[1..]);
      assert Times(b[0], b[0]) == Times(a[0], a[0]) && Times(a[0], b[0]) == -Times(a[0], a[0]);
    }
  }

  /** Data in the same order have rho = 1, data in opposite order rho = -1, whatever the distances. */
  lemma MonotoneExtremes(xs: seq<real>, ys: seq<real>)
    requires |xs| == |ys| && SpearmanOf(xs, ys).Rho?
    ensures SameOrder(xs, ys) ==> var r := SpearmanOf(xs, ys); r.num == r.sxx == r.syy
    ensures OppositeOrder(xs, ys) ==> var r := SpearmanOf(xs, ys); -r.num == r.sxx == r.syy
  {
    if SameOrder(xs, ys) {
      forall i | 0 <= i < |xs| ensures RankOf(xs, xs[i]) == RankOf(ys, ys[i]) {
        CountsAgree(xs, ys, xs[i], ys[i]);
      }
      assert Ranks(xs) == Ranks(ys);
    }
    if OppositeOrder(xs, ys) {
      OppositeRanks(xs, ys);
      DotOpposite(Centred(xs), Centred(ys));
    }
  }

  lemma OppositeRanks(xs: seq<real>, ys: seq<real>)
    requires OppositeOrder(xs, ys) && xs != []
    ensures forall i :: 0 <= i < |xs| ==> Centred(ys)[i] == -Centred(xs)[i]
  {
    MeanRank(xs);
    MeanRank(ys);
    forall i | 0 <= i < |xs| ensures Centred(ys)[i] == -Centred(xs)[i] {
      CountsOppose(xs, ys, xs[i], ys[i]);
      assert RankOf(ys, ys[i]) == |xs| as real + 1.0 - RankOf(xs, xs[i]);
    }
  }

  predicate Constant(xs: seq<real>) {
    forall i, j :: 0 <= i < |xs| && 0 <= j < |xs| ==> xs[i] == xs[j]
  }

  predicate AllZero(d: seq<real>) {
    forall i :: 0 <= i < |d| ==> d[i] == 0.0
  }

  lemma {:induction false} SumOfSquares(d: seq<real>)
    ensures Dot(d, d) >= 0.0
    ensures Dot(d, d) == 0.0 <==> AllZero(d)
  {
    if d != [] {
      var s := d[1..];
      SumOfSquares(s);
      assert AllZero(d) <==> d[0] == 0.0 && AllZero(s) by {
        assert forall i :: 1 <= i < |d| ==> d[i] == s[i - 1];
        assert forall i :: 0 <= i < |s| ==> s[i] == d[i + 1];
      }
      Square(d[0]);
    }
  }

  /** The deviations vanish exactly for constant data. */
  lemma CentredIsZero(xs: seq<real>)
    requires xs != []
    ensures Dot(Centred(xs), Centred(xs)) == 0.0 <==> Constant(xs)
  {
    var d := Centred(xs);
    SumOfSquares(d);
    MeanRank(xs);
    if Constant(xs) {
      forall i | 0 <= i < |xs| ensures d[i] == 0.0 {
        CountSame(xs, xs[i]);
      }
    } else {
      var i, j :| 0 <= i < |xs| && 0 <= j < |xs| && xs[i] != xs[j];
      RanksFollowValues(xs, xs[i], xs[j]);
      RanksFollowValues(xs, xs[j], xs[i]);
      assert d[i] != d[j];
    }
  }

  /** The coefficient is undefined exactly for fewer than two pairs or constant data on either side. */
  lemma UndefinedExactlyWhenConstant(xs: seq<real>, ys: seq<real>)
    requires |xs| == |ys|
    ensures SpearmanOf(xs, ys).NaN? <==> |xs| < 2 || Constant(xs) || Constant(ys)
  {
    if |xs| >= 2 {
      CentredIsZero(xs);
      CentredIsZero(ys);
    }
  }

  /** root(v) is the non-negative square root of v. */
  predicate IsRoot(root: real -> real, v: real) {
    root(v) >= 0.0 && Times(root(v), root(v)) == v
  }

  /** root is right on the two sums of squares. */
  predicate Roots(root: real -> real, xs: seq<real>, ys: seq<real>)
    requires |xs| == |ys|
  {
    |xs| >= 2 ==> IsRoot(root, Dot(Centred(xs), Centred(xs))) && IsRoot(root, Dot(Centred(ys), Centred(ys)))
  }

  /** None stands for not a number; `root` is the power of one half. */
  method ComputeSpearman(xs: seq<real>, ys: seq<real>, root: real -> real) returns (rho: Option<real>)
    requires |xs| == |ys| && Roots(root, xs, ys)
    ensures rho.None? <==> SpearmanOf(xs, ys).NaN?
    ensures rho.Some? ==>
              var v := SpearmanOf(xs, ys);
              -1.0 <= rho.value <= 1.0 && Times(rho.value, Times(root(v.sxx), root(v.syy))) == v.num
  {
    var n := |xs|;
    if n < 2 {
      return None;
    }
    var rx := ComputeRanks(xs);
    var ry := ComputeRanks(ys);
    var xs', ys' := Deviations(rx, Sum(rx) / n as real), Deviations(ry, Sum(ry) / n as real);
    var num, dx, dy := Dot(xs', ys'), root(Dot(xs', xs')), root(Dot(ys', ys'));
    Square(dx);
    Square(dy);
    if dx == 0.0 || dy == 0.0 {
      return None;
    }
    RhoIsBounded(xs, ys, dx, dy);
    QuotientTimes(num, dx * dy);
    return Some(num / (dx * dy));
  }

  lemma QuotientTimes(a: real, b: real)
    requires b != 0.0
    ensures Times(a / b, b) == a
  {
  }
}
