/** The population stability index over equal-width bins of the combined data. */
module PopulationStability {
  import opened Options
  import opened Numeric

  // ----- the range and the bins

  function Least(s: seq<real>): (m: real)
    requires s != []
    ensures m in s && forall x | x in s :: m <= x
  {
    if |s| == 1 then s[0]
    else
      assert forall x | x in s :: x == s[0] || x in s[1..];
      Min(s[0], Least(s[1..]))
  }

  function Greatest(s: seq<real>): (m: real)
    requires s != []
    ensures m in s && forall x | x in s :: x <= m
  {
    if |s| == 1 then s[0]
    else
      assert forall x | x in s :: x == s[0] || x in s[1..];
      Max(s[0], Greatest(s[1..]))
  }

  function EdgeAt(lo: real, hi: real, numBins: nat, i: nat): real
    requires numBins > 0
  {
    lo + i as real * ((hi - lo) / numBins as real)
  }

  /** `numBins + 1` equally spaced edges from `lo` to `hi`. */
  function Edges(lo: real, hi: real, numBins: nat): seq<real>
    requires numBins > 0
  {
    seq(numBins + 1, i requires i >= 0 => EdgeAt(lo, hi, numBins, i))
  }

  ghost predicate Increasing(e: seq<real>) {
    forall i, j | 0 <= i < j < |e| :: e[i] < e[j]
  }

  lemma EdgeLess(lo: real, hi: real, numBins: nat, i: nat, j: nat)
    requires numBins > 0 && lo < hi && i < j
    ensures EdgeAt(lo, hi, numBins, i) < EdgeAt(lo, hi, numBins, j)
  {
    ScaleLess(i as real, j as real, (hi - lo) / numBins as real);
  }

  lemma LastEdge(lo: real, hi: real, numBins: nat)
    requires numBins > 0
    ensures EdgeAt(lo, hi, numBins, 0) == lo && EdgeAt(lo, hi, numBins, numBins) == hi
  {
    var n := numBins as real;
    assert n * ((hi - lo) / n) == hi - lo;
  }

  lemma EdgesIncrease(lo: real, hi: real, numBins: nat)
    requires numBins > 0 && lo < hi
    ensures Increasing(Edges(lo, hi, numBins))
    ensures Edges(lo, hi, numBins)[0] == lo && Edges(lo, hi, numBins)[numBins] == hi
  {
    var e := Edges(lo, hi, numBins);
    forall i, j | 0 <= i < j < |e| ensures e[i] < e[j] {
      EdgeLess(lo, hi, numBins, i, j);
    }
    LastEdge(lo, hi, numBins);
  }

  lemma ScaleLess(a: real, b: real, w: real)
    requires a < b && w > 0.0
    ensures a * w < b * w
  {
    assert (b - a) * w > 0.0;
  }

  /** The test the counting loop makes; only the last bin is closed above. */
  predicate InBin(e: seq<real>, v: real, b: nat)
    requires b + 1 < |e|
  {
    (b == |e| - 2 && e[b] <= v <= e[b + 1]) || e[b] <= v < e[b + 1]
  }

  /** Every value of the range lands in exactly one bin. */
  lemma OneBin(e: seq<real>, v: real) returns (b: nat)
    requires |e| >= 2 && Increasing(e) && e[0] <= v <= e[|e| - 1]
    ensures HomeBin(e, v, b)
  {
    b := 0;
    while b + 2 < |e| && e[b + 1] <= v
      invariant b + 1 < |e| && e[b] <= v
      decreases |e| - b
    {
      b := b + 1;
    }
    forall c: nat ensures InThatBin(e, v, c, b) {
      if c + 1 < |e| && InBin(e, v, c) { BinsDisjoint(e, v, b, c); }
    }
  }

  lemma BinsDisjoint(e: seq<real>, v: real, b: nat, c: nat)
    requires Increasing(e) && b + 1 < |e| && c + 1 < |e| && InBin(e, v, b) && InBin(e, v, c)
    ensures b == c
  {
  }

  ghost predicate InThatBin(e: seq<real>, v: real, c: nat, b: nat) {
    c + 1 < |e| ==> (InBin(e, v, c) <==> c == b)
  }

  /** `b` is the one bin of `v`. */
  ghost predicate HomeBin(e: seq<real>, v: real, b: nat) {
    b + 1 < |e| && forall c: nat :: InThatBin(e, v, c, b)
  }

  // ----- counts and proportions

  function CountIn(data: seq<real>, e: seq<real>, b: nat): nat
    requires b + 1 < |e|
  {
    if data == [] then 0
    else CountIn(data[..|data| - 1], e, b) + (if InBin(e, data[|data| - 1], b) then 1 else 0)
  }

  function CountsTotal(data: seq<real>, e: seq<real>, n: nat): nat
    requires n < |e|
  {
    if n == 0 then 0 else CountsTotal(data, e, n - 1) + CountIn(data, e, n - 1)
  }

  lemma {:induction false} EmptyCounts(e: seq<real>, n: nat)
    requires n < |e|
    ensures CountsTotal([], e, n) == 0
  {
    if n == 0 {
    } else {
      EmptyCounts(e, n - 1);
    }
  }

  lemma {:induction false} CountsGrow(data: seq<real>, e: seq<real>, n: nat, b: nat)
    requires data != [] && n < |e| && HomeBin(e, data[|data| - 1], b)
    ensures CountsTotal(data, e, n) == CountsTotal(data[..|data| - 1], e, n) + (if b < n then 1 else 0)
  {
    if n == 0 {
    } else {
      CountsGrow(data, e, n - 1, b);
      assert InThatBin(e, data[|data| - 1], n - 1, b);
    }
  }

  /** The bin counts add up to the sample size: no value is lost or counted twice. */
  lemma {:induction false} CountsPartition(data: seq<real>, e: seq<real>)
    requires |e| >= 2 && Increasing(e)
    requires forall v | v in data :: e[0] <= v <= e[|e| - 1]
    ensures CountsTotal(data, e, |e| - 1) == |data|
  {
    if data == [] {
      EmptyCounts(e, |e| - 1);
    } else {
      var n := |data| - 1;
      assert data[n] in data && forall v | v in data[..n] :: v in data;
      CountsPartition(data[..n], e);
      var b := OneBin(e, data[n]);
      CountsGrow(data, e, |e| - 1, b);
    }
  }

  /** The smoothed share of bin `b`. */
  function Share(data: seq<real>, e: seq<real>, b: nat, epsilon: real): real
    requires data != [] && b + 1 < |e|
  {
    CountIn(data, e, b) as real / |data| as real + epsilon
  }

  function Shares(data: seq<real>, e: seq<real>, epsilon: real): (r: seq<real>)
    requires data != [] && |e| > 0
    ensures |r| == |e| - 1
  {
    seq(|e| - 1, b requires 0 <= b < |e| - 1 => Share(data, e, b, epsilon))
  }

  // ----- the index

  /** All that is assumed of the natural logarithm. */
  ghost predicate IsLog(log: real -> real) {
    && (forall x: real, y: real | 0.0 < x < y :: log(x) < log(y))
    && log(1.0) == 0.0
    && (forall x: real | x > 0.0 :: log(1.0 / x) == -log(x))
  }

  /** The quotient exists and has a logarithm; otherwise the source raises. */
  predicate Comparable(b: real, c: real) { b != 0.0 && c / b > 0.0 }

  predicate AllComparable(bs: seq<real>, cs: seq<real>)
    requires |bs| == |cs|
  {
    forall i | 0 <= i < |bs| :: Comparable(bs[i], cs[i])
  }

  function Term(b: real, c: real, log: real -> real): real
    requires Comparable(b, c)
  {
    (c - b) * log(c / b)
  }

  ghost predicate Positive(s: seq<real>) { forall i | 0 <= i < |s| :: s[i] > 0.0 }

  function Index(bs: seq<real>, cs: seq<real>, log: real -> real): real
    requires |bs| == |cs| && AllComparable(bs, cs)
  {
    if bs == [] then 0.0
    else
      var n := |bs| - 1;
      Index(bs[..n], cs[..n], log) + Term(bs[n], cs[n], log)
  }

  /** A term of positive shares is 0 for equal ones and positive otherwise. */
  lemma TermSign(b: real, c: real, log: real -> real)
    requires b > 0.0 && c > 0.0 && IsLog(log)
    ensures Comparable(b, c)
    ensures Term(b, c, log) >= 0.0
    ensures Term(b, c, log) == 0.0 <==> b == c
  {
    Reciprocal(b, c);
    if c > b {
      assert c / b > 1.0 by { RatioAbove(b, c); }
      ProductSign(c - b, log(c / b));
    } else if c < b {
      assert c / b < 1.0 by { RatioBelow(b, c); }
      ProductSign(c - b, log(c / b));
    } else {
      assert c / b == 1.0;
    }
  }

  lemma ProductSign(x: real, y: real)
    requires (x > 0.0 && y > 0.0) || (x < 0.0 && y < 0.0)
    ensures x * y > 0.0
  {
  }

  /** Of two negative shares the term is the same with the opposite sign: 0 for equal ones and
      negative otherwise. */
  lemma NegativeTermSign(b: real, c: real, log: real -> real)
    requires b < 0.0 && c < 0.0 && IsLog(log)
    ensures Comparable(b, c)
    ensures Term(b, c, log) <= 0.0
    ensures Term(b, c, log) == 0.0 <==> b == c
  {
    SameQuotient(b, c);
    Reciprocal(-b, -c);
    TermSign(-b, -c, log);
    Opposite(-c - -b, log(c / b));
  }

  lemma SameQuotient(b: real, c: real)
    requires b != 0.0
    ensures (-c) / (-b) == c / b
  {
    var q := c / b;
    assert q * b == c;
    SignsCancel(q, b);
    assert q * (-b) == -(q * b);
  }

  lemma Opposite(x: real, y: real)
    ensures (-x) * y == -(x * y)
  {
  }

  /** Comparing the other way round is as good, and gives the same term. */
  lemma TermSymmetric(b: real, c: real, log: real -> real)
    requires Comparable(b, c) && IsLog(log)
    ensures Comparable(c, b)
    ensures Term(c, b, log) == Term(b, c, log)
  {
    Reciprocal(b, c);
    SignsCancel(c - b, log(c / b));
  }

  lemma SignsCancel(x: real, y: real)
    ensures (-x) * (-y) == x * y
  {
  }

  lemma Reciprocal(b: real, c: real)
    requires Comparable(b, c) || (b > 0.0 && c > 0.0)
    ensures Comparable(b, c) && Comparable(c, b)
    ensures 1.0 / (c / b) == b / c
  {
    var q := c / b;
    assert q * b == c;
    assert c != 0.0;
    var r := b / c;
    assert r * c == b;
    ProductOne(b, c, q, r);
  }

  lemma Regroup(q: real, r: real, c: real, b: real)
    requires r * c == b
    ensures (q * r) * c == q * b
  {
    assert (q * r) * c == q * (r * c);
  }

  lemma ProductOne(b: real, c: real, q: real, r: real)
    requires b != 0.0 && c != 0.0 && q * b == c && r * c == b && (q > 0.0 || (b > 0.0 && c > 0.0))
    ensures q * r == 1.0 && q > 0.0 && r > 0.0 && 1.0 / q == r
  {
    Regroup(q, r, c, b);
    assert (q * r - 1.0) * c == 0.0;
    assert q * r == 1.0;
    assert b > 0.0 && c > 0.0 ==> q > 0.0;
    assert r > 0.0;
  }

  lemma RatioAbove(b: real, c: real)
    requires c > b > 0.0
    ensures c / b > 1.0
  {
    var q := c / b;
    assert q * b == c;
    assert q <= 1.0 ==> (1.0 - q) * b >= 0.0;
  }

  lemma RatioBelow(b: real, c: real)
    requires b > c > 0.0
    ensures c / b < 1.0
  {
    var q := c / b;
    assert q * b == c;
    assert q >= 1.0 ==> (q - 1.0) * b >= 0.0;
  }

  lemma {:induction false} PositiveComparable(bs: seq<real>, cs: seq<real>)
    requires |bs| == |cs| && Positive(bs) && Positive(cs)
    ensures AllComparable(bs, cs)
  {
    forall i | 0 <= i < |bs| ensures Comparable(bs[i], cs[i]) {
      Reciprocal(bs[i], cs[i]);
    }
  }

  /** Over positive shares the index is never negative and vanishes exactly on equal ones. */
  lemma {:induction false} IndexSign(bs: seq<real>, cs: seq<real>, log: real -> real)
    requires |bs| == |cs| && Positive(bs) && Positive(cs) && AllComparable(bs, cs) && IsLog(log)
    ensures Index(bs, cs, log) >= 0.0
    ensures Index(bs, cs, log) == 0.0 <==> bs == cs
  {
    hide IsLog, Term, Comparable;
    if bs == [] {
      assert cs == [];
    } else {
      var n := |bs| - 1;
      IndexSign(bs[..n], cs[..n], log);
      TermSign(bs[n], cs[n], log);
      assert bs == bs[..n] + [bs[n]] && cs == cs[..n] + [cs[n]];
    }
  }

  /** Over negative shares the sign is reversed. */
  lemma {:induction false} NegativeIndexSign(bs: seq<real>, cs: seq<real>, log: real -> real)
    requires |bs| == |cs| && AllComparable(bs, cs) && IsLog(log)
    requires forall i | 0 <= i < |bs| :: bs[i] < 0.0 && cs[i] < 0.0
    ensures Index(bs, cs, log) <= 0.0
    ensures Index(bs, cs, log) == 0.0 <==> bs == cs
  {
    hide IsLog, Term, Comparable;
    if bs == [] {
      assert cs == [];
    } else {
      var n := |bs| - 1;
      NegativeIndexSign(bs[..n], cs[..n], log);
      NegativeTermSign(bs[n], cs[n], log);
      assert bs == bs[..n] + [bs[n]] && cs == cs[..n] + [cs[n]];
    }
  }

  /** The index is the same both ways round. */
  lemma {:induction false} IndexSymmetric(bs: seq<real>, cs: seq<real>, log: real -> real)
    requires |bs| == |cs| && AllComparable(bs, cs) && IsLog(log)
    ensures AllComparable(cs, bs)
    ensures Index(cs, bs, log) == Index(bs, cs, log)
  {
    hide IsLog, Term, Comparable;
    if bs == [] {
    } else {
      var n := |bs| - 1;
      IndexSymmetric(bs[..n], cs[..n], log);
      TermSymmetric(bs[n], cs[n], log);
      assert bs == bs[..n] + [bs[n]] && cs == cs[..n] + [cs[n]];
    }
  }

  // ----- the whole computation

  ghost predicate Spread(baseline: seq<real>, current: seq<real>) {
    baseline != [] && current != [] && Least(baseline + current) < Greatest(baseline + current)
  }

  function BinEdges(baseline: seq<real>, current: seq<real>, numBins: nat): seq<real>
    requires baseline != [] && current != [] && numBins > 0
  {
    Edges(Least(baseline + current), Greatest(baseline + current), numBins)
  }

  /** The source computes a value: every quotient of shares has a logarithm. */
  predicate Defined(baseline: seq<real>, current: seq<real>, numBins: nat, epsilon: real)
    requires baseline != [] && current != [] && numBins > 0
  {
    var e := BinEdges(baseline, current, numBins);
    AllComparable(Shares(baseline, e, epsilon), Shares(current, e, epsilon))
  }

  predicate Filled(data: seq<real>, e: seq<real>) { forall b: nat | b + 1 < |e| :: CountIn(data, e, b) > 0 }

  ghost predicate PositiveShares(baseline: seq<real>, current: seq<real>, numBins: nat, epsilon: real)
    requires baseline != [] && current != [] && numBins > 0
  {
    var e := BinEdges(baseline, current, numBins);
    Positive(Shares(baseline, e, epsilon)) && Positive(Shares(current, e, epsilon))
  }

  lemma ShareSign(data: seq<real>, e: seq<real>, b: nat, epsilon: real)
    requires data != [] && b + 1 < |e| && epsilon >= 0.0
    ensures Share(data, e, b, epsilon) >= 0.0
    ensures Share(data, e, b, epsilon) > 0.0 <==> epsilon > 0.0 || CountIn(data, e, b) > 0
  {
    var n, d := CountIn(data, e, b), |data|;
    DivMonotone(0, n, d);
    if n > 0 {
      DivMonotone(1, n, d);
      assert 1 as real / d as real > 0.0;
    }
  }

  lemma SharesPositive(data: seq<real>, e: seq<real>, epsilon: real)
    requires data != [] && |e| > 0 && epsilon >= 0.0
    ensures Positive(Shares(data, e, epsilon)) <==> epsilon > 0.0 || Filled(data, e)
  {
    hide CountIn, Share;
    var ss := Shares(data, e, epsilon);
    forall b: nat | b + 1 < |e| ensures ss[b] > 0.0 <==> epsilon > 0.0 || CountIn(data, e, b) > 0 {
      ShareSign(data, e, b, epsilon);
    }
    if Positive(ss) && epsilon == 0.0 {
      assert forall b: nat | b + 1 < |e| :: ss[b] > 0.0;
    }
  }

  lemma ComparableShares(data: seq<real>, other: seq<real>, e: seq<real>, epsilon: real)
    requires data != [] && other != [] && |e| > 0 && epsilon >= 0.0
    ensures AllComparable(Shares(data, e, epsilon), Shares(other, e, epsilon)) <==>
            Positive(Shares(data, e, epsilon)) && Positive(Shares(other, e, epsilon))
  {
    hide CountIn, Share;
    var bs, cs := Shares(data, e, epsilon), Shares(other, e, epsilon);
    forall b: nat | b + 1 < |e| ensures bs[b] >= 0.0 && cs[b] >= 0.0 {
      ShareSign(data, e, b, epsilon);
      ShareSign(other, e, b, epsilon);
    }
    if Positive(bs) && Positive(cs) {
      PositiveComparable(bs, cs);
    }
    if AllComparable(bs, cs) {
      forall i | 0 <= i < |bs| ensures bs[i] > 0.0 && cs[i] > 0.0 {
        assert Comparable(bs[i], cs[i]);
        Reciprocal(bs[i], cs[i]);
        assert cs[i] != 0.0;
      }
    }
  }

  /** Without negative smoothing a value comes out exactly if there is some smoothing or no
      bin of either sample is empty, and then all shares are positive. */
  lemma DefinedExactly(baseline: seq<real>, current: seq<real>, numBins: nat, epsilon: real)
    requires baseline != [] && current != [] && numBins > 0 && epsilon >= 0.0
    ensures var e := BinEdges(baseline, current, numBins);
      && (Defined(baseline, current, numBins, epsilon) <==> epsilon > 0.0 || (Filled(baseline, e) && Filled(current, e)))
      && (Defined(baseline, current, numBins, epsilon) <==> PositiveShares(baseline, current, numBins, epsilon))
  {
    hide Shares, AllComparable, Filled, Positive, BinEdges;
    var e := BinEdges(baseline, current, numBins);
    BinEdgesSize(baseline, current, numBins);
    SharesPositive(baseline, e, epsilon);
    SharesPositive(current, e, epsilon);
    ComparableShares(baseline, current, e, epsilon);
  }

  lemma BinEdgesSize(baseline: seq<real>, current: seq<real>, numBins: nat)
    requires baseline != [] && current != [] && numBins > 0
    ensures |BinEdges(baseline, current, numBins)| == numBins + 1
  {
  }

  /** The value before the clamp and the rounding. */
  function Psi(baseline: seq<real>, current: seq<real>, numBins: nat, epsilon: real, log: real -> real): real
    requires baseline != [] && current != [] && numBins > 0 && Defined(baseline, current, numBins, epsilon)
  {
    var e := BinEdges(baseline, current, numBins);
    Index(Shares(baseline, e, epsilon), Shares(current, e, epsilon), log)
  }

  /** Both samples put the same proportion into every bin. */
  ghost predicate SameProportions(baseline: seq<real>, current: seq<real>, e: seq<real>)
    requires baseline != [] && current != []
  {
    forall b: nat | b + 1 < |e| ::
      CountIn(baseline, e, b) as real / |baseline| as real == CountIn(current, e, b) as real / |current| as real
  }

  lemma EqualShares(baseline: seq<real>, current: seq<real>, e: seq<real>, epsilon: real)
    requires baseline != [] && current != [] && |e| > 0
    ensures Shares(baseline, e, epsilon) == Shares(current, e, epsilon) <==> SameProportions(baseline, current, e)
  {
    var bs, cs := Shares(baseline, e, epsilon), Shares(current, e, epsilon);
    if bs == cs {
      forall b: nat | b + 1 < |e|
        ensures CountIn(baseline, e, b) as real / |baseline| as real == CountIn(current, e, b) as real / |current| as real
      {
        assert bs[b] == cs[b];
      }
    }
  }

  /** Over any two samples with positive shares the index is non-negative, so the final clamp
      never binds; it is 0 exactly when every bin holds the same proportion of both samples. */
  lemma PsiMeaning(baseline: seq<real>, current: seq<real>, numBins: nat, epsilon: real, log: real -> real)
    requires baseline != [] && current != [] && numBins > 0 && IsLog(log)
    requires PositiveShares(baseline, current, numBins, epsilon)
    ensures Defined(baseline, current, numBins, epsilon)
    ensures Psi(baseline, current, numBins, epsilon, log) >= 0.0
    ensures Psi(baseline, current, numBins, epsilon, log) == 0.0 <==>
            SameProportions(baseline, current, BinEdges(baseline, current, numBins))
  {
    hide IsLog, Share, CountIn, Comparable;
    var e := BinEdges(baseline, current, numBins);
    PositiveComparable(Shares(baseline, e, epsilon), Shares(current, e, epsilon));
    IndexSign(Shares(baseline, e, epsilon), Shares(current, e, epsilon), log);
    EqualShares(baseline, current, e, epsilon);
  }

  /** Smoothing below -1 makes every share negative, whatever the samples. The index is then
      never positive, and the final clamp binds exactly when some bin's proportions differ. */
  lemma NegativeSmoothingClamps(
    baseline: seq<real>, current: seq<real>, numBins: nat, epsilon: real, log: real -> real)
    requires baseline != [] && current != [] && numBins > 0 && epsilon < -1.0 && IsLog(log)
    ensures Defined(baseline, current, numBins, epsilon)
    ensures Psi(baseline, current, numBins, epsilon, log) <= 0.0
    ensures Psi(baseline, current, numBins, epsilon, log) < 0.0 <==>
            !SameProportions(baseline, current, BinEdges(baseline, current, numBins))
  {
    hide IsLog, Share, CountIn, Comparable, BinEdges;
    var e := BinEdges(baseline, current, numBins);
    BinEdgesSize(baseline, current, numBins);
    var bs, cs := Shares(baseline, e, epsilon), Shares(current, e, epsilon);
    forall i | 0 <= i < |bs| ensures bs[i] < 0.0 && cs[i] < 0.0 && Comparable(bs[i], cs[i]) {
      ShareBelow(baseline, e, i, epsilon);
      ShareBelow(current, e, i, epsilon);
      NegativeTermSign(bs[i], cs[i], log);
    }
    NegativeIndexSign(bs, cs, log);
    EqualShares(baseline, current, e, epsilon);
  }

  lemma {:induction false} CountAtMost(data: seq<real>, e: seq<real>, b: nat)
    requires b + 1 < |e|
    ensures CountIn(data, e, b) <= |data|
  {
    if data == [] {
    } else {
      CountAtMost(data[..|data| - 1], e, b);
    }
  }

  lemma ShareBelow(data: seq<real>, e: seq<real>, b: nat, epsilon: real)
    requires data != [] && b + 1 < |e| && epsilon < -1.0
    ensures Share(data, e, b, epsilon) < 0.0
  {
    hide CountIn;
    CountAtMost(data, e, b);
    DivMonotone(CountIn(data, e, b), |data|, |data|);
    assert |data| as real / |data| as real == 1.0;
  }

  /** Such samples: one value against two, in two bins. The proportions differ and the reported
      value is 0 all the same. */
  lemma NegativeSmoothingHides(log: real -> real)
    requires IsLog(log)
    ensures Defined([0.0, 1.0], [1.0], 2, -2.0) && Psi([0.0, 1.0], [1.0], 2, -2.0, log) < 0.0
  {
    var a, b := [0.0, 1.0], [1.0];
    TwoBins();
    var e := BinEdges(a, b, 2);
    assert CountIn(a, e, 0) == 1 by {
      assert a[..1] == [0.0] && a[..1][..0] == [];
      assert CountIn([0.0], e, 0) == 1;
    }
    assert CountIn(b, e, 0) == 0 by {
      assert b[..0] == [];
    }
    assert CountIn(a, e, 0) as real / |a| as real == 0.5 && CountIn(b, e, 0) as real / |b| as real == 0.0;
    hide IsLog, CountIn, BinEdges, Defined, Psi;
    NegativeSmoothingClamps(a, b, 2, -2.0, log);
  }

  lemma TwoBins()
    ensures BinEdges([0.0, 1.0], [1.0], 2) == [0.0, 0.5, 1.0]
  {
    var c := [0.0, 1.0] + [1.0];
    assert c == [0.0, 1.0, 1.0] && c[0] in c && c[1] in c;
    assert Least(c) == 0.0 && Greatest(c) == 1.0;
  }

  /** One index as a number, but for the logarithms: a value on an inner edge counts above it. */
  lemma TwoBinIndex(log: real -> real)
    requires IsLog(log)
    ensures Defined([0.0, 1.0], [0.5], 2, 0.5)
    ensures Psi([0.0, 1.0], [0.5], 2, 0.5, log) == 0.5 * log(2.0) + 0.5 * log(1.5)
  {
    var a, b := [0.0, 1.0], [0.5];
    EdgesAtHalves();
    var e := BinEdges(a, b, 2);
    CountsOfTwo(e);
    var bs, cs := Shares(a, e, 0.5), Shares(b, e, 0.5);
    assert bs == [1.0, 1.0] && cs == [0.5, 1.5];
    TwoTerms(1.0, 1.0, 0.5, 1.5, log);
    assert log(1.0 / 2.0) == -log(2.0);
  }

  lemma EdgesAtHalves()
    ensures BinEdges([0.0, 1.0], [0.5], 2) == [0.0, 0.5, 1.0]
  {
    var c := [0.0, 1.0] + [0.5];
    assert c == [0.0, 1.0, 0.5] && c[0] in c && c[1] in c;
    assert Least(c) == 0.0 && Greatest(c) == 1.0;
  }

  lemma CountsOfTwo(e: seq<real>)
    requires e == [0.0, 0.5, 1.0]
    ensures CountIn([0.0, 1.0], e, 0) == CountIn([0.0, 1.0], e, 1) == 1
    ensures CountIn([0.5], e, 0) == 0 && CountIn([0.5], e, 1) == 1
  {
    assert [0.0, 1.0][..1] == [0.0] && [0.0][..0] == [] && [0.5][..0] == [];
    assert CountIn([0.0], e, 0) == 1 && CountIn([0.0], e, 1) == 0;
  }

  lemma TwoTerms(b: real, b': real, c: real, c': real, log: real -> real)
    requires Comparable(b, c) && Comparable(b', c')
    ensures AllComparable([b, b'], [c, c'])
    ensures Index([b, b'], [c, c'], log) == Term(b, c, log) + Term(b', c', log)
  {
    hide Term;
    assert [b, b'][..1] == [b] && [c, c'][..1] == [c] && [b][..0] == [] && [c][..0] == [];
    assert Index([b], [c], log) == Term(b, c, log);
  }

  lemma SameBins(baseline: seq<real>, current: seq<real>, numBins: nat)
    requires baseline != [] && current != [] && numBins > 0
    ensures BinEdges(current, baseline, numBins) == BinEdges(baseline, current, numBins)
  {
    var a, b := baseline + current, current + baseline;
    assert forall x :: x in a <==> x in b;
    assert Least(a) == Least(b) && Greatest(a) == Greatest(b);
  }

  /** Swapping the samples changes neither the bins nor the value. */
  lemma PsiSymmetric(baseline: seq<real>, current: seq<real>, numBins: nat, epsilon: real, log: real -> real)
    requires baseline != [] && current != [] && numBins > 0 && IsLog(log)
    requires Defined(baseline, current, numBins, epsilon)
    ensures BinEdges(current, baseline, numBins) == BinEdges(baseline, current, numBins)
    ensures Defined(current, baseline, numBins, epsilon)
    ensures Psi(current, baseline, numBins, epsilon, log) == Psi(baseline, current, numBins, epsilon, log)
  {
    hide IsLog, Shares, AllComparable, BinEdges;
    SameBins(baseline, current, numBins);
    BinEdgesSize(baseline, current, numBins);
    var e := BinEdges(baseline, current, numBins);
    IndexSymmetric(Shares(baseline, e, epsilon), Shares(current, e, epsilon), log);
  }

  /** Every value of either sample is counted in exactly one bin. */
  lemma SamplesArePartitioned(baseline: seq<real>, current: seq<real>, numBins: nat)
    requires Spread(baseline, current) && numBins > 0
    ensures CountsTotal(baseline, BinEdges(baseline, current, numBins), numBins) == |baseline|
    ensures CountsTotal(current, BinEdges(baseline, current, numBins), numBins) == |current|
  {
    var lo, hi := Least(baseline + current), Greatest(baseline + current);
    EdgesIncrease(lo, hi, numBins);
    var e := BinEdges(baseline, current, numBins);
    assert forall v | v in baseline :: v in baseline + current;
    assert forall v | v in current :: v in baseline + current;
    CountsPartition(baseline, e);
    CountsPartition(current, e);
  }

  // ----- the loops

  /** `_get_counts`: count into the first matching bin, then normalise. */
  method GetCounts(data: seq<real>, e: seq<real>, epsilon: real) returns (probs: seq<real>)
    requires data != [] && |e| >= 2 && Increasing(e)
    requires forall v | v in data :: e[0] <= v <= e[|e| - 1]
    ensures probs == Shares(data, e, epsilon)
  {
    var counts := new nat[|e| - 1](_ => 0);
    for i := 0 to |data|
      invariant forall b | 0 <= b < |e| - 1 :: counts[b] == CountIn(data[..i], e, b)
    {
      var val := data[i];
      assert val in data;
      ghost var home := OneBin(e, val);
      assert data[..i + 1][..i] == data[..i];
      var b := 0;
      assert InThatBin(e, val, home, home);
      while !InBin(e, val, b)
        invariant 0 <= b <= home
        decreases home - b
      {
        b := b + 1;
      }
      assert InThatBin(e, val, b, home);
      counts[b] := counts[b] + 1;
      assert forall c: nat | c + 1 < |e| :: InThatBin(e, val, c, home);
    }
    assert data[..|data|] == data;
    probs := seq(counts.Length, b requires 0 <= b < counts.Length reads counts =>
      counts[b] as real / |data| as real + epsilon);
  }

  /** `compute_psi`; no result stands for the division by zero or the logarithm of no positive
      number that the source raises. A negative number of bins leaves nothing to add up. */
  method ComputePsi(baseline: seq<real>, current: seq<real>, numBins: int, epsilon: real, log: real -> real)
    returns (r: Option<real>)
    requires IsLog(log)
    ensures !Spread(baseline, current) || numBins < 0 ==> r == Some(0.0)
    ensures Spread(baseline, current) && numBins == 0 ==> r == None
    ensures Spread(baseline, current) && numBins > 0 ==>
              r == if Defined(baseline, current, numBins, epsilon)
                   then Some(Round4(Max(0.0, Psi(baseline, current, numBins, epsilon, log)))) else None
  {
    hide IsLog, Comparable, Term;
    if baseline == [] || current == [] {
      return Some(0.0);
    }
    var combined := baseline + current;
    var minVal, maxVal := Least(combined), Greatest(combined);
    if minVal == maxVal {
      return Some(0.0);
    }
    if numBins == 0 {
      return None;
    }
    if numBins < 0 {
      return Some(0.0);
    }
    var e := Edges(minVal, maxVal, numBins);
    EdgesIncrease(minVal, maxVal, numBins);
    assert forall v | v in baseline :: v in combined;
    assert forall v | v in current :: v in combined;
    var bProbs := GetCounts(baseline, e, epsilon);
    var cProbs := GetCounts(current, e, epsilon);
    var sum := AddTerms(bProbs, cProbs, log);
    r := if sum.Some? then Some(Round4(Max(0.0, sum.value))) else None;
  }

  /** The loop over the pairs of shares; the first that has no logarithm ends it. */
  method AddTerms(bProbs: seq<real>, cProbs: seq<real>, log: real -> real) returns (r: Option<real>)
    requires |bProbs| == |cProbs|
    ensures r == if AllComparable(bProbs, cProbs) then Some(Index(bProbs, cProbs, log)) else None
  {
    hide Comparable, Term;
    var psi := 0.0;
    for i := 0 to |bProbs|
      invariant AllComparable(bProbs[..i], cProbs[..i])
      invariant psi == Index(bProbs[..i], cProbs[..i], log)
    {
      assert bProbs[..i + 1][..i] == bProbs[..i] && cProbs[..i + 1][..i] == cProbs[..i];
      if !Comparable(bProbs[i], cProbs[i]) {
        return None;
      }
      psi := psi + Term(bProbs[i], cProbs[i], log);
    }
    assert bProbs[..|bProbs|] == bProbs && cProbs[..|bProbs|] == cProbs;
    r := Some(psi);
  }
}
