/** Sorting as the source uses it: Python's `sorted` on numbers and on a set of numbers. */
module SortedReals {

  ghost predicate Ascending(s: seq<real>) {
    forall i, j | 0 <= i <= j < |s| :: s[i] <= s[j]
  }

  ghost predicate Increasing(s: seq<real>) {
    forall i, j | 0 <= i < j < |s| :: s[i] < s[j]
  }

  function Insert(x: real, s: seq<real>): seq<real> {
    if s == [] || x <= s[0] then [x] + s else [s[0]] + Insert(x, s[1..])
  }

  /** `sorted(s)` */
  function Sorted(s: seq<real>): seq<real> {
    if s == [] then [] else Insert(s[0], Sorted(s[1..]))
  }

  /** How many entries are at most `v`. */
  function CountUpTo(s: seq<real>, v: real): nat {
    if s == [] then 0 else (if s[0] <= v then 1 else 0) + CountUpTo(s[1..], v)
  }

  lemma {:induction false} InsertSpec(x: real, s: seq<real>)
    requires Ascending(s)
    ensures Ascending(Insert(x, s)) && |Insert(x, s)| == |s| + 1
    ensures forall y :: y in Insert(x, s) <==> y == x || y in s
    ensures forall v :: CountUpTo(Insert(x, s), v) == CountUpTo(s, v) + (if x <= v then 1 else 0)
  {
    if s == [] || x <= s[0] {
      assert ([x] + s)[1..] == s;
    } else {
      InsertSpec(x, s[1..]);
      var t := Insert(x, s[1..]);
      assert ([s[0]] + t)[1..] == t;
      assert forall y | y in t :: s[0] <= y;
      assert forall i | 0 <= i < |t| :: t[i] in t;
    }
  }

  /** Sorting keeps every count, so it keeps the empirical distribution. */
  lemma {:induction false} SortedSpec(s: seq<real>)
    ensures Ascending(Sorted(s)) && |Sorted(s)| == |s|
    ensures forall y :: y in Sorted(s) <==> y in s
    ensures forall v :: CountUpTo(Sorted(s), v) == CountUpTo(s, v)
  {
    if s == [] {
    } else {
      SortedSpec(s[1..]);
      InsertSpec(s[0], Sorted(s[1..]));
    }
  }

  function InsertNew(x: real, s: seq<real>): seq<real> {
    if s == [] || x < s[0] then [x] + s
    else if x == s[0] then s
    else [s[0]] + InsertNew(x, s[1..])
  }

  /** `sorted(set(s))` */
  function Distinct(s: seq<real>): seq<real> {
    if s == [] then [] else InsertNew(s[0], Distinct(s[1..]))
  }

  lemma {:induction false} InsertNewSpec(x: real, s: seq<real>)
    requires Increasing(s)
    ensures Increasing(InsertNew(x, s))
    ensures forall y :: y in InsertNew(x, s) <==> y == x || y in s
  {
    if s == [] || x <= s[0] {
      assert forall y :: y in [x] + s <==> y == x || y in s;
    } else {
      InsertNewSpec(x, s[1..]);
      ConsIncreasing(s[0], InsertNew(x, s[1..]));
      assert forall y :: y in s <==> y == s[0] || y in s[1..];
    }
  }

  lemma ConsIncreasing(x: real, t: seq<real>)
    requires Increasing(t) && forall y | y in t :: x < y
    ensures Increasing([x] + t)
  {
    assert forall i | 0 <= i < |t| :: t[i] in t;
  }

  lemma {:induction false} DistinctSpec(s: seq<real>)
    ensures Increasing(Distinct(s))
    ensures forall y :: y in Distinct(s) <==> y in s
  {
    if s == [] {
    } else {
      DistinctSpec(s[1..]);
      InsertNewSpec(s[0], Distinct(s[1..]));
    }
  }

  lemma {:induction false} CountBounds(s: seq<real>, v: real)
    ensures 0 <= CountUpTo(s, v) <= |s|
  {
    if s == [] {
    } else {
      CountBounds(s[1..], v);
    }
  }

  /** In an ascending list, a split point between `<= v` and `> v` is the count. */
  lemma {:induction false} SplitIsCount(s: seq<real>, v: real, i: nat)
    requires i <= |s|
    requires forall k | 0 <= k < i :: s[k] <= v
    requires forall k | i <= k < |s| :: v < s[k]
    ensures CountUpTo(s, v) == i
  {
    if s == [] {
    } else {
      assert s[0] <= v <==> 0 < i;
      SplitIsCount(s[1..], v, if i == 0 then 0 else i - 1);
    }
  }

  /** Two values with no entry between them have the same count. */
  lemma {:induction false} CountSame(s: seq<real>, u: real, v: real)
    requires forall x | x in s :: x <= u <==> x <= v
    ensures CountUpTo(s, u) == CountUpTo(s, v)
  {
    if s == [] {
    } else {
      assert s[0] in s;
      assert forall x | x in s[1..] :: x in s;
      CountSame(s[1..], u, v);
    }
  }
}

/** The two-sample Kolmogorov-Smirnov statistic. */
module KolmogorovSmirnov {
  import opened Numeric
  import opened SortedReals

  /** The empirical distribution of a sample: the share of entries at most `v`. */
  function Ecdf(s: seq<real>, v: real): real
    requires s != []
  {
    CountUpTo(s, v) as real / |s| as real
  }

  function Gap(a: seq<real>, b: seq<real>, v: real): real
    requires a != [] && b != []
  {
    Abs(Ecdf(a, v) - Ecdf(b, v))
  }

  /** `d` is the greatest vertical distance between the two distributions, over all reals. */
  ghost predicate IsKsDistance(a: seq<real>, b: seq<real>, d: real)
    requires a != [] && b != []
  {
    && (forall v: real :: Gap(a, b, v) <= d)
    && (exists v: real :: Gap(a, b, v) == d)
  }

  lemma EcdfInUnit(s: seq<real>, v: real)
    requires s != []
    ensures 0.0 <= Ecdf(s, v) <= 1.0
  {
    CountBounds(s, v);
    DivMonotone(0, CountUpTo(s, v), |s|);
    DivMonotone(CountUpTo(s, v), |s|, |s|);
    assert 0 as real / |s| as real == 0.0 && |s| as real / |s| as real == 1.0;
  }

  /** Any real has the distribution values of the sample point just below it, or, below
      every point, the value 0 on both sides. */
  lemma {:induction false} GapAtSamplePoint(a: seq<real>, b: seq<real>, points: seq<real>, v: real, d: real)
    requires a != [] && b != [] && d >= 0.0
    requires Increasing(points) && forall x :: x in points <==> x in a || x in b
    requires forall i | 0 <= i < |points| :: Gap(a, b, points[i]) <= d
    ensures Gap(a, b, v) <= d
  {
    var i := PointBelow(points, v);
    if i == 0 {
      assert forall x | x in a :: x in points;
      assert forall x | x in b :: x in points;
      SplitIsCount0(a, v);
      SplitIsCount0(b, v);
    } else {
      var u := points[i - 1];
      assert forall x | x in points :: x <= u <==> x <= v;
      CountSame(a, u, v);
      CountSame(b, u, v);
    }
  }

  lemma {:induction false} SplitIsCount0(s: seq<real>, v: real)
    requires forall x | x in s :: v < x
    ensures CountUpTo(s, v) == 0
  {
    assert forall k | 0 <= k < |s| :: s[k] in s;
    SplitIsCount(s, v, 0);
  }

  /** How many of the points are at most `v`. */
  lemma {:induction false} PointBelow(points: seq<real>, v: real) returns (i: nat)
    requires Increasing(points)
    ensures i <= |points|
    ensures forall k | 0 <= k < i :: points[k] <= v
    ensures forall k | i <= k < |points| :: v < points[k]
    ensures i == 0 ==> forall x | x in points :: v < x
    ensures i > 0 ==> forall x | x in points :: x <= points[i - 1] <==> x <= v
  {
    i := 0;
    while i < |points| && points[i] <= v
      invariant i <= |points| && forall k | 0 <= k < i :: points[k] <= v
    {
      i := i + 1;
    }
  }

  /** The merge loop, before rounding. */
  method KsDistance(sample1: seq<real>, sample2: seq<real>) returns (maxD: real)
    requires sample1 != [] && sample2 != []
    ensures IsKsDistance(sample1, sample2, maxD)
  {
    var s1, s2 := Sorted(sample1), Sorted(sample2);
    SortedSpec(sample1);
    SortedSpec(sample2);
    var n1, n2 := |s1|, |s2|;
    var allValues := Distinct(s1 + s2);
    DistinctSpec(s1 + s2);
    maxD := 0.0;
    var i1, i2 := 0, 0;
    for k := 0 to |allValues|
      invariant 0 <= i1 <= n1 && 0 <= i2 <= n2
      invariant k > 0 ==> forall j | 0 <= j < i1 :: s1[j] <= allValues[k - 1]
      invariant k > 0 ==> forall j | 0 <= j < i2 :: s2[j] <= allValues[k - 1]
      invariant k == 0 ==> i1 == i2 == 0
      invariant maxD >= 0.0
      invariant forall j | 0 <= j < k :: Gap(sample1, sample2, allValues[j]) <= maxD
      invariant maxD == 0.0 || exists j :: 0 <= j < k && Gap(sample1, sample2, allValues[j]) == maxD
    {
      var v := allValues[k];
      i1 := Advance(s1, i1, v);
      i2 := Advance(s2, i2, v);
      var cdf1, cdf2 := i1 as real / n1 as real, i2 as real / n2 as real;
      var d := Abs(cdf1 - cdf2);
      assert d == Gap(sample1, sample2, v);
      if d > maxD {
        maxD := d;
      }
    }
    assert sample1[0] in s1 + s2;
    Attained(sample1, sample2, allValues, maxD);
    forall v: real ensures Gap(sample1, sample2, v) <= maxD {
      GapAtSamplePoint(sample1, sample2, allValues, v, maxD);
    }
  }

  lemma Attained(a: seq<real>, b: seq<real>, points: seq<real>, d: real)
    requires a != [] && b != [] && points != []
    requires forall j | 0 <= j < |points| :: Gap(a, b, points[j]) <= d
    requires d == 0.0 || exists j :: 0 <= j < |points| && Gap(a, b, points[j]) == d
    ensures exists v: real :: Gap(a, b, v) == d
  {
    if d == 0.0 {
      assert Gap(a, b, points[0]) == d;
    }
  }

  /** The inner loops: move on while the next entry is at most `v`. */
  method Advance(s: seq<real>, start: nat, v: real) returns (i: nat)
    requires Ascending(s) && start <= |s| && forall j | 0 <= j < start :: s[j] <= v
    ensures start <= i <= |s| && i == CountUpTo(s, v)
    ensures forall j | 0 <= j < i :: s[j] <= v
  {
    i := start;
    while i < |s| && s[i] <= v
      invariant start <= i <= |s| && forall j | 0 <= j < i :: s[j] <= v
    {
      i := i + 1;
    }
    SplitIsCount(s, v, i);
  }

  /** The reported statistic: 0 for an empty sample, else the distance to four digits. */
  method ComputeKsStatistic(sample1: seq<real>, sample2: seq<real>) returns (r: real)
    ensures sample1 == [] || sample2 == [] ==> r == 0.0
    ensures sample1 != [] && sample2 != [] ==>
              exists d :: IsKsDistance(sample1, sample2, d) && r == Round4(d)
  {
    if sample1 == [] || sample2 == [] {
      return 0.0;
    }
    var maxD := KsDistance(sample1, sample2);
    r := Round4(maxD);
  }

  // ----- what the distance is

  lemma KsUnique(a: seq<real>, b: seq<real>, d: real, e: real)
    requires a != [] && b != [] && IsKsDistance(a, b, d) && IsKsDistance(a, b, e)
    ensures d == e
  {
  }

  lemma KsSymmetric(a: seq<real>, b: seq<real>, d: real)
    requires a != [] && b != [] && IsKsDistance(a, b, d)
    ensures IsKsDistance(b, a, d)
  {
    assert forall v: real :: Gap(a, b, v) == Gap(b, a, v);
    var v :| Gap(a, b, v) == d;
    assert Gap(b, a, v) == d;
  }

  /** The distance lies in [0, 1], and is 0 exactly when the distributions coincide. */
  lemma KsRange(a: seq<real>, b: seq<real>, d: real)
    requires a != [] && b != [] && IsKsDistance(a, b, d)
    ensures 0.0 <= d <= 1.0
    ensures d == 0.0 <==> forall v: real :: Ecdf(a, v) == Ecdf(b, v)
  {
    var v :| Gap(a, b, v) == d;
    EcdfInUnit(a, v);
    EcdfInUnit(b, v);
    if d == 0.0 {
      forall u: real ensures Ecdf(a, u) == Ecdf(b, u) {
        assert Gap(a, b, u) <= d;
      }
    }
  }

  /** `v` has all of `a` at or below it and all of `b` above it. */
  ghost predicate Separates(a: seq<real>, b: seq<real>, v: real) {
    (forall i | 0 <= i < |a| :: a[i] <= v) && forall i | 0 <= i < |b| :: v < b[i]
  }

  lemma {:induction false} CountExtremes(s: seq<real>, v: real)
    ensures CountUpTo(s, v) == |s| <==> forall i | 0 <= i < |s| :: s[i] <= v
    ensures CountUpTo(s, v) == 0 <==> forall i | 0 <= i < |s| :: v < s[i]
  {
    if s == [] {
    } else {
      CountExtremes(s[1..], v);
      CountBounds(s[1..], v);
      assert forall i | 0 < i < |s| :: s[i] == s[1..][i - 1];
    }
  }

  lemma ShareExtremes(count: nat, n: nat)
    requires count <= n && n > 0
    ensures count as real / n as real == 1.0 <==> count == n
    ensures count as real / n as real == 0.0 <==> count == 0
  {
    var q := count as real / n as real;
    assert q * n as real == count as real;
  }

  lemma EcdfExtremes(s: seq<real>, v: real)
    requires s != []
    ensures Ecdf(s, v) == 1.0 <==> forall i | 0 <= i < |s| :: s[i] <= v
    ensures Ecdf(s, v) == 0.0 <==> forall i | 0 <= i < |s| :: v < s[i]
  {
    CountBounds(s, v);
    CountExtremes(s, v);
    ShareExtremes(CountUpTo(s, v), |s|);
  }

  lemma GapIsOne(a: seq<real>, b: seq<real>, v: real)
    requires a != [] && b != []
    ensures Gap(a, b, v) == 1.0 <==> Separates(a, b, v) || Separates(b, a, v)
  {
    EcdfInUnit(a, v);
    EcdfInUnit(b, v);
    EcdfExtremes(a, v);
    EcdfExtremes(b, v);
    hide Ecdf;
  }

  /** The distance is 1 exactly when some value separates the samples. */
  lemma KsOneExactly(a: seq<real>, b: seq<real>, d: real)
    requires a != [] && b != [] && IsKsDistance(a, b, d)
    ensures d == 1.0 <==> exists v :: Separates(a, b, v) || Separates(b, a, v)
  {
    KsRange(a, b, d);
    hide Gap, Separates;
    forall v: real ensures Gap(a, b, v) == 1.0 <==> Separates(a, b, v) || Separates(b, a, v) {
      GapIsOne(a, b, v);
    }
  }
}
