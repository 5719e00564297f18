/** Expected calibration error over equal-width probability bins. */
module CalibrationError {
  import opened Options
  import opened Numeric
  import PopulationStability

  /** The membership test of bin `b` of `n`; only the last bin takes the value 1. */
  predicate InBin(p: real, b: nat, n: nat)
    requires n > 0
  {
    (Lower(b, n) <= p < Lower(b + 1, n)) || (b == n - 1 && p == 1.0)
  }

  function Lower(b: nat, n: nat): real
    requires n > 0
  {
    b as real * (1.0 / n as real)
  }

  ghost predicate HomeBin(p: real, b: nat, n: nat)
    requires n > 0
  {
    b < n && InBin(p, b, n) && forall c: nat | c < n && c != b :: !InBin(p, c, n)
  }

  lemma LowerIncreases(b: nat, c: nat, n: nat)
    requires n > 0 && b < c
    ensures Lower(b, n) < Lower(c, n)
  {
    PopulationStability.ScaleLess(b as real, c as real, 1.0 / n as real);
  }

  lemma LowerEnds(n: nat)
    requires n > 0
    ensures Lower(0, n) == 0.0 && Lower(n, n) == 1.0
  {
    assert n as real * (1.0 / n as real) == 1.0;
  }

  lemma {:induction false} FirstAbove(p: real, b: nat, n: nat) returns (c: nat)
    requires n > 0 && b < n && Lower(b, n) <= p < 1.0
    ensures b <= c < n && Lower(c, n) <= p < Lower(c + 1, n)
    decreases n - b
  {
    LowerEnds(n);
    if p < Lower(b + 1, n) { c := b; } else { c := FirstAbove(p, b + 1, n); }
  }

  /** The bins partition [0, 1]. */
  lemma OneBin(p: real, n: nat) returns (b: nat)
    requires n > 0 && 0.0 <= p <= 1.0
    ensures HomeBin(p, b, n)
  {
    LowerEnds(n);
    if p == 1.0 {
      b := n - 1;
    } else {
      b := FirstAbove(p, 0, n);
    }
    forall c: nat | c < n && c != b ensures !InBin(p, c, n) {
      Elsewhere(p, b, c, n);
    }
  }

  lemma Elsewhere(p: real, b: nat, c: nat, n: nat)
    requires n > 0 && b < n && c < n && c != b
    requires (p == 1.0 && b == n - 1) || (Lower(b, n) <= p < Lower(b + 1, n) && p < 1.0)
    ensures !InBin(p, c, n)
  {
    LowerEnds(n);
    if c + 1 < b { LowerIncreases(c + 1, b, n); }
    if b + 1 < c { LowerIncreases(b + 1, c, n); }
    if c + 1 < n { LowerIncreases(c + 1, n, n); }
  }

  // ----- sums over the entries of one bin

  function BinSum(vals: seq<real>, ps: seq<real>, b: nat, n: nat): real
    requires |vals| == |ps| && n > 0
  {
    if ps == [] then 0.0
    else
      var k := |ps| - 1;
      BinSum(vals[..k], ps[..k], b, n) + (if InBin(ps[k], b, n) then vals[k] else 0.0)
  }

  function BinCount(ps: seq<real>, b: nat, n: nat): nat
    requires n > 0
  {
    if ps == [] then 0
    else BinCount(ps[..|ps| - 1], b, n) + (if InBin(ps[|ps| - 1], b, n) then 1 else 0)
  }

  function Total(vals: seq<real>): real {
    if vals == [] then 0.0 else Total(vals[..|vals| - 1]) + vals[|vals| - 1]
  }

  function BinsTotal(vals: seq<real>, ps: seq<real>, m: nat, n: nat): real
    requires |vals| == |ps| && n > 0
  {
    if m == 0 then 0.0 else BinsTotal(vals, ps, m - 1, n) + BinSum(vals, ps, m - 1, n)
  }

  function CountsTotal(ps: seq<real>, m: nat, n: nat): nat
    requires n > 0
  {
    if m == 0 then 0 else CountsTotal(ps, m - 1, n) + BinCount(ps, m - 1, n)
  }

  ghost predicate InUnit(ps: seq<real>) {
    forall i | 0 <= i < |ps| :: 0.0 <= ps[i] <= 1.0
  }

  lemma {:induction false} EmptyBins(m: nat, n: nat)
    requires n > 0
    ensures BinsTotal([], [], m, n) == 0.0 && CountsTotal([], m, n) == 0
  {
    if m == 0 {
    } else {
      EmptyBins(m - 1, n);
    }
  }

  /** One more entry adds to its home bin only. */
  lemma {:induction false} BinsGrow(vals: seq<real>, ps: seq<real>, m: nat, n: nat, b: nat)
    requires |vals| == |ps| > 0 && n > 0 && m <= n && HomeBin(ps[|ps| - 1], b, n)
    ensures var k := |ps| - 1;
      && BinsTotal(vals, ps, m, n) == BinsTotal(vals[..k], ps[..k], m, n) + (if b < m then vals[k] else 0.0)
      && CountsTotal(ps, m, n) == CountsTotal(ps[..k], m, n) + (if b < m then 1 else 0)
  {
    if m == 0 {
    } else {
      BinsGrow(vals, ps, m - 1, n, b);
      assert InBin(ps[|ps| - 1], m - 1, n) <==> m - 1 == b;
    }
  }

  /** Summing bin by bin loses nothing and counts nothing twice. */
  lemma {:induction false} BinsPartition(vals: seq<real>, ps: seq<real>, n: nat)
    requires |vals| == |ps| && n > 0 && InUnit(ps)
    ensures BinsTotal(vals, ps, n, n) == Total(vals)
    ensures CountsTotal(ps, n, n) == |ps|
  {
    if ps == [] {
      EmptyBins(n, n);
    } else {
      var k := |ps| - 1;
      BinsPartition(vals[..k], ps[..k], n);
      var b := OneBin(ps[k], n);
      BinsGrow(vals, ps, n, n, b);
    }
  }

  // ----- the error

  function Ratio(a: real, k: real): real
    requires k > 0.0
  {
    a / k
  }

  /** The weight of `c` of `k` entries times the distance of two means over those `c`. */
  function Weighted(c: real, k: real, y: real, p: real): real
    requires c > 0.0 && k > 0.0
  {
    (c / k) * Abs(y / c - p / c)
  }

  /** The share a bin contributes: its weight times the distance of its two means. */
  function Contribution(ps: seq<real>, ys: seq<real>, b: nat, n: nat): real
    requires |ps| == |ys| && ps != [] && n > 0
  {
    var c := BinCount(ps, b, n);
    if c == 0 then 0.0
    else Weighted(c as real, |ps| as real, BinSum(ys, ps, b, n), BinSum(ps, ps, b, n))
  }

  function ErrorUpTo(ps: seq<real>, ys: seq<real>, m: nat, n: nat): real
    requires |ps| == |ys| && ps != [] && n > 0
  {
    if m == 0 then 0.0 else ErrorUpTo(ps, ys, m - 1, n) + Contribution(ps, ys, m - 1, n)
  }

  /** Before rounding. */
  function Error(ps: seq<real>, ys: seq<real>, n: nat): real
    requires |ps| == |ys| && ps != [] && n > 0
  {
    ErrorUpTo(ps, ys, n, n)
  }

  lemma {:induction false} EmptyBinSums(vals: seq<real>, ps: seq<real>, b: nat, n: nat)
    requires |vals| == |ps| && n > 0 && BinCount(ps, b, n) == 0
    ensures BinSum(vals, ps, b, n) == 0.0
  {
    if ps == [] {
    } else {
      EmptyBinSums(vals[..|ps| - 1], ps[..|ps| - 1], b, n);
    }
  }

  lemma WeightCancels(c: real, k: real, y: real, p: real)
    requires c > 0.0 && k > 0.0
    ensures Weighted(c, k, y, p) == Ratio(Abs(y - p), k)
  {
    var d := (y - p) / c;
    assert y / c - p / c == d;
    assert c * d == y - p;
    if d >= 0.0 {
      NonNegativeProduct(c, d);
      assert (c / k) * d == (c * d) / k;
    } else {
      NonNegativeProduct(c, -d);
      assert (c / k) * (-d) == (c * (-d)) / k;
    }
  }

  lemma NonNegativeProduct(x: real, y: real)
    requires x >= 0.0 && y >= 0.0
    ensures x * y >= 0.0
  {
  }

  lemma RatioFacts(a: real, b: real, k: real)
    requires k > 0.0
    ensures Ratio(a + b, k) == Ratio(a, k) + Ratio(b, k) && Ratio(a - b, k) == Ratio(a, k) - Ratio(b, k)
    ensures a <= b ==> Ratio(a, k) <= Ratio(b, k)
    ensures Ratio(0.0, k) == 0.0 && Ratio(k, k) == 1.0
    ensures Abs(Ratio(a, k)) == Ratio(Abs(a), k)
  {
    assert a >= 0.0 ==> a / k >= 0.0;
    assert a < 0.0 ==> (-a) / k > 0.0 && (-a) / k == -(a / k);
  }

  /** A bin contributes the distance of its two sums over the whole sample size. */
  lemma ContributionIsSumGap(ps: seq<real>, ys: seq<real>, b: nat, n: nat)
    requires |ps| == |ys| && ps != [] && n > 0
    ensures Contribution(ps, ys, b, n) == Ratio(Abs(BinSum(ys, ps, b, n) - BinSum(ps, ps, b, n)), |ps| as real)
  {
    hide Ratio, Weighted, BinSum;
    var c := BinCount(ps, b, n);
    if c == 0 {
      EmptyBinSums(ys, ps, b, n);
      EmptyBinSums(ps, ps, b, n);
      RatioFacts(0.0, 0.0, |ps| as real);
    } else {
      WeightCancels(c as real, |ps| as real, BinSum(ys, ps, b, n), BinSum(ps, ps, b, n));
    }
  }

  lemma {:induction false} BinGapBounded(ps: seq<real>, ys: seq<real>, b: nat, n: nat)
    requires |ps| == |ys| && n > 0 && InUnit(ps) && InUnit(ys)
    ensures Abs(BinSum(ys, ps, b, n) - BinSum(ps, ps, b, n)) <= BinCount(ps, b, n) as real
  {
    if ps == [] {
    } else {
      BinGapBounded(ps[..|ps| - 1], ys[..|ps| - 1], b, n);
    }
  }

  lemma {:induction false} ErrorBounds(ps: seq<real>, ys: seq<real>, m: nat, n: nat)
    requires |ps| == |ys| && ps != [] && n > 0 && InUnit(ps) && InUnit(ys)
    ensures ErrorUpTo(ps, ys, m, n) <= Ratio(CountsTotal(ps, m, n) as real, |ps| as real)
    ensures Ratio(Abs(BinsTotal(ys, ps, m, n) - BinsTotal(ps, ps, m, n)), |ps| as real) <= ErrorUpTo(ps, ys, m, n)
  {
    hide Ratio, Contribution, BinSum, BinCount;
    var k := |ps| as real;
    if m == 0 {
      RatioFacts(0.0, 0.0, k);
    } else {
      ErrorBounds(ps, ys, m - 1, n);
      ContributionIsSumGap(ps, ys, m - 1, n);
      BinGapBounded(ps, ys, m - 1, n);
      var gap := BinSum(ys, ps, m - 1, n) - BinSum(ps, ps, m - 1, n);
      var before := BinsTotal(ys, ps, m - 1, n) - BinsTotal(ps, ps, m - 1, n);
      RatioFacts(Abs(gap), BinCount(ps, m - 1, n) as real, k);
      RatioFacts(Abs(before + gap), Abs(before) + Abs(gap), k);
      RatioFacts(Abs(before), Abs(gap), k);
      RatioFacts(CountsTotal(ps, m - 1, n) as real, BinCount(ps, m - 1, n) as real, k);
    }
  }

  /** For every sample the error lies between the distance of the overall means and 1. */
  lemma ErrorBetweenMeansAndOne(ps: seq<real>, ys: seq<real>, n: nat)
    requires |ps| == |ys| && ps != [] && n > 0 && InUnit(ps) && InUnit(ys)
    ensures Abs(Ratio(Total(ys), |ps| as real) - Ratio(Total(ps), |ps| as real)) <= Error(ps, ys, n) <= 1.0
  {
    hide Ratio;
    var k := |ps| as real;
    ErrorBounds(ps, ys, n, n);
    BinsPartition(ys, ps, n);
    BinsPartition(ps, ps, n);
    RatioFacts(Total(ys), Total(ps), k);
    RatioFacts(Total(ys) - Total(ps), 0.0, k);
  }

  /** `compute_expected_calibration_error`: bin by bin, add the weighted distance of the two
      means, skipping empty bins. No result stands for the division by zero bins that the source
      raises; a negative number of bins leaves nothing to add up. */
  method ComputeExpectedCalibrationError(ps: seq<real>, ys: seq<real>, numBins: int) returns (r: Option<real>)
    ensures ps == [] || |ps| != |ys| || numBins < 0 ==> r == Some(0.0)
    ensures ps != [] && |ps| == |ys| && numBins == 0 ==> r == None
    ensures ps != [] && |ps| == |ys| && numBins > 0 ==>
              r == Some(RoundHalfEven(Error(ps, ys, numBins) * 1000000.0) as real / 1000000.0)
  {
    if ps == [] || |ps| != |ys| {
      return Some(0.0);
    }
    if numBins == 0 {
      return None;
    }
    if numBins < 0 {
      return Some(0.0);
    }
    var n := |ps|;
    var ece := 0.0;
    for b := 0 to numBins
      invariant ece == ErrorUpTo(ps, ys, b, numBins)
    {
      var binCount, confidence, accuracy := CollectBin(ps, ys, b, numBins);
      if binCount != 0 {
        ece := ece + Weighted(binCount as real, n as real, accuracy, confidence);
      }
    }
    r := Some(RoundHalfEven(ece * 1000000.0) as real / 1000000.0);
  }

  /** The entries of one bin: how many, and the sums of their probabilities and labels. */
  method CollectBin(ps: seq<real>, ys: seq<real>, b: nat, numBins: nat)
    returns (count: nat, confidence: real, accuracy: real)
    requires numBins > 0 && |ps| == |ys|
    ensures count == BinCount(ps, b, numBins)
    ensures confidence == BinSum(ps, ps, b, numBins) && accuracy == BinSum(ys, ps, b, numBins)
  {
    count, confidence, accuracy := 0, 0.0, 0.0;
    for i := 0 to |ps|
      invariant count == BinCount(ps[..i], b, numBins)
      invariant confidence == BinSum(ps[..i], ps[..i], b, numBins)
      invariant accuracy == BinSum(ys[..i], ps[..i], b, numBins)
    {
      assert ps[..i + 1][..i] == ps[..i] && ys[..i + 1][..i] == ys[..i];
      if InBin(ps[i], b, numBins) {
        count, confidence, accuracy := count + 1, confidence + ps[i], accuracy + ys[i];
      }
    }
    assert ps[..|ps|] == ps && ys[..|ps|] == ys;
  }
}
