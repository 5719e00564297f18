/** Rank-sum ROC-AUC against the pair-counting definition. */
module RocAuc {
  import opened Numeric
  import opened SetSums

  datatype Scored = Scored(score: real, truth: int)

  predicate Pos(x: Scored) { x.truth == 1 }

  function CountWhere(s: seq<Scored>, f: Scored -> bool): nat {
    if s == [] then 0 else CountWhere(s[..|s| - 1], f) + (if f(s[|s| - 1]) then 1 else 0)
  }

  const IsPos: Scored -> bool := (x: Scored) => Pos(x)

  // ----- the reference: pairs of a positive and a negative

  predicate Pair(s: seq<Scored>, i: nat, j: nat) {
    i < |s| && j < |s| && Pos(s[i]) && !Pos(s[j])
  }

  /** Pairs whose positive scores strictly higher. */
  ghost function StrictPairs(s: seq<Scored>): set<(nat, nat)> {
    set i: nat, j: nat | i < |s| && j < |s| && Pair(s, i, j) && s[i].score > s[j].score :: (i, j)
  }

  /** Pairs whose positive scores at least as high. */
  ghost function WeakPairs(s: seq<Scored>): set<(nat, nat)> {
    set i: nat, j: nat | i < |s| && j < |s| && Pair(s, i, j) && s[i].score >= s[j].score :: (i, j)
  }

  /** Pairs whose positive comes first after a stable descending sort: a tie goes to the
      entry that came first in the input. */
  ghost function RankedPairs(s: seq<Scored>): set<(nat, nat)> {
    set i: nat, j: nat | i < |s| && j < |s| && Pair(s, i, j)
      && (s[i].score > s[j].score || (s[i].score == s[j].score && i < j)) :: (i, j)
  }

  // ----- the sort and the accumulator

  predicate Descending(s: seq<Scored>) {
    forall i, j | 0 <= i <= j < |s| :: s[i].score >= s[j].score
  }

  /** Insert a later entry: after everything that scores at least as high. */
  function Insert(x: Scored, t: seq<Scored>): seq<Scored> {
    if t == [] || t[|t| - 1].score >= x.score then t + [x]
    else Insert(x, t[..|t| - 1]) + [t[|t| - 1]]
  }

  /** `sorted(..., key=score, reverse=True)`, which is stable. */
  function SortDescending(s: seq<Scored>): seq<Scored> {
    if s == [] then [] else Insert(s[|s| - 1], SortDescending(s[..|s| - 1]))
  }

  /** What the loop accumulates: for every negative, the positives before it. */
  function Accumulated(s: seq<Scored>): nat {
    if s == [] then 0
    else
      var before, x := s[..|s| - 1], s[|s| - 1];
      Accumulated(before) + (if Pos(x) then 0 else CountWhere(before, IsPos))
  }

  /** The pairs a later entry `x` forms with earlier ones and that it ranks correctly. */
  function Wins(x: Scored): Scored -> bool {
    y => if Pos(x) then !Pos(y) && x.score > y.score else Pos(y) && y.score >= x.score
  }

  lemma {:induction false} InsertCounts(x: Scored, t: seq<Scored>, f: Scored -> bool)
    ensures CountWhere(Insert(x, t), f) == CountWhere(t, f) + (if f(x) then 1 else 0)
  {
    if t == [] || t[|t| - 1].score >= x.score {
      assert (t + [x])[..|t|] == t;
    } else {
      var n := |t| - 1;
      InsertCounts(x, t[..n], f);
      var u := Insert(x, t[..n]);
      assert (u + [t[n]])[..|u|] == u;
    }
  }

  lemma {:induction false} SortCounts(s: seq<Scored>, f: Scored -> bool)
    ensures CountWhere(SortDescending(s), f) == CountWhere(s, f)
  {
    if s == [] {
    } else {
      SortCounts(s[..|s| - 1], f);
      InsertCounts(s[|s| - 1], SortDescending(s[..|s| - 1]), f);
    }
  }

  lemma {:induction false} InsertDescends(x: Scored, t: seq<Scored>)
    requires Descending(t)
    ensures Descending(Insert(x, t))
    ensures forall y :: y in Insert(x, t) <==> y == x || y in t
  {
    if t == [] || t[|t| - 1].score >= x.score {
    } else {
      var n := |t| - 1;
      InsertDescends(x, t[..n]);
      assert t == t[..n] + [t[n]];
      DescendsTo(Insert(x, t[..n]), t[n]);
    }
  }

  lemma DescendsTo(u: seq<Scored>, last: Scored)
    requires Descending(u) && forall y | y in u :: y.score >= last.score
    ensures Descending(u + [last])
  {
    assert forall i | 0 <= i < |u| :: u[i] in u;
  }

  lemma {:induction false} SortDescends(s: seq<Scored>)
    ensures Descending(SortDescending(s))
  {
    if s == [] {
    } else {
      SortDescends(s[..|s| - 1]);
      InsertDescends(s[|s| - 1], SortDescending(s[..|s| - 1]));
    }
  }

  lemma {:induction false} CountSame(s: seq<Scored>, f: Scored -> bool, g: Scored -> bool)
    requires forall i | 0 <= i < |s| :: f(s[i]) == g(s[i])
    ensures CountWhere(s, f) == CountWhere(s, g)
  {
    if s == [] {
    } else {
      CountSame(s[..|s| - 1], f, g);
    }
  }

  lemma {:induction false} CountNone(s: seq<Scored>, f: Scored -> bool)
    requires forall i | 0 <= i < |s| :: !f(s[i])
    ensures CountWhere(s, f) == 0
  {
    if s == [] {
    } else {
      CountNone(s[..|s| - 1], f);
    }
  }

  /** Inserting one entry adds exactly the pairs it wins. */
  lemma {:induction false} InsertAccumulates(x: Scored, t: seq<Scored>)
    requires Descending(t)
    ensures Accumulated(Insert(x, t)) == Accumulated(t) + CountWhere(t, Wins(x))
  {
    if t == [] || t[|t| - 1].score >= x.score {
      assert (t + [x])[..|t|] == t;
      if Pos(x) {
        CountNone(t, Wins(x));
      } else {
        CountSame(t, Wins(x), IsPos);
      }
    } else {
      var n := |t| - 1;
      var u := Insert(x, t[..n]);
      InsertAccumulates(x, t[..n]);
      InsertCounts(x, t[..n], IsPos);
      assert (u + [t[n]])[..|u|] == u;
    }
  }

  // ----- counting the pairs of a growing sample

  ghost function Where(s: seq<Scored>, n: nat, f: Scored -> bool): set<nat>
    requires n <= |s|
  {
    set i: nat | i < n && f(s[i])
  }

  lemma {:induction false} WhereCount(s: seq<Scored>, n: nat, f: Scored -> bool)
    requires n <= |s|
    ensures |Where(s, n, f)| == CountWhere(s[..n], f)
  {
    if n == 0 {
      assert Where(s, 0, f) == {};
    } else {
      WhereCount(s, n - 1, f);
      assert s[..n][..n - 1] == s[..n - 1];
      assert Where(s, n, f) == Where(s, n - 1, f) + if f(s[n - 1]) then {n - 1} else {};
    }
  }

  ghost function Row(n: nat, a: set<nat>): set<(nat, nat)> { set j | j in a :: (n, j) }

  ghost function Column(a: set<nat>, n: nat): set<(nat, nat)> { set i | i in a :: (i, n) }

  /** The pairs the last entry takes part in. */
  ghost function LastPairs(s: seq<Scored>): set<(nat, nat)>
    requires s != []
  {
    var n := |s| - 1;
    var won := Where(s, n, Wins(s[n]));
    if Pos(s[n]) then Row(n, won) else Column(won, n)
  }

  lemma {:induction false} RowCount(n: nat, a: set<nat>)
    ensures |Row(n, a)| == |a|
  {
    if a == {} {
      assert Row(n, a) == {};
    } else {
      var k :| k in a;
      RowCount(n, a - {k});
      assert Row(n, a) == Row(n, a - {k}) + {(n, k)} && (n, k) !in Row(n, a - {k});
    }
  }

  lemma {:induction false} ColumnCount(a: set<nat>, n: nat)
    ensures |Column(a, n)| == |a|
  {
    if a == {} {
      assert Column(a, n) == {};
    } else {
      var k :| k in a;
      ColumnCount(a - {k}, n);
      assert Column(a, n) == Column(a - {k}, n) + {(k, n)} && (k, n) !in Column(a - {k}, n);
    }
  }

  lemma RankedPairsSplit(s: seq<Scored>)
    requires s != []
    ensures RankedPairs(s) == RankedPairs(s[..|s| - 1]) + LastPairs(s)
    ensures RankedPairs(s[..|s| - 1]) !! LastPairs(s)
  {
    var n := |s| - 1;
    forall p ensures p in RankedPairs(s) <==> p in RankedPairs(s[..n]) + LastPairs(s) {
    }
  }

  lemma LastPairsCount(s: seq<Scored>)
    requires s != []
    ensures |LastPairs(s)| == CountWhere(s[..|s| - 1], Wins(s[|s| - 1]))
  {
    var n := |s| - 1;
    var won := Where(s, n, Wins(s[n]));
    WhereCount(s, n, Wins(s[n]));
    RowCount(n, won);
    ColumnCount(won, n);
  }

  /** The accumulator over the sorted sample counts exactly the ranked pairs. */
  lemma {:induction false} AccumulatorCountsPairs(s: seq<Scored>)
    ensures Accumulated(SortDescending(s)) == |RankedPairs(s)|
  {
    if s == [] {
      assert RankedPairs(s) == {};
    } else {
      var n := |s| - 1;
      var t := SortDescending(s[..n]);
      AccumulatorCountsPairs(s[..n]);
      SortDescends(s[..n]);
      InsertAccumulates(s[n], t);
      SortCounts(s[..n], Wins(s[n]));
      RankedPairsSplit(s);
      LastPairsCount(s);
    }
  }

  // ----- how the count relates to the definition

  ghost predicate DistinctScores(s: seq<Scored>) {
    forall i, j | 0 <= i < j < |s| :: s[i].score != s[j].score
  }

  /** The accumulator lies between the strict and the weak pair count, and is the
      Mann-Whitney count itself when no two scores tie. */
  lemma AccumulatorBetween(s: seq<Scored>)
    ensures |StrictPairs(s)| <= Accumulated(SortDescending(s)) <= |WeakPairs(s)|
    ensures DistinctScores(s) ==> Accumulated(SortDescending(s)) == |StrictPairs(s)| == |WeakPairs(s)|
  {
    AccumulatorCountsPairs(s);
    assert StrictPairs(s) <= RankedPairs(s) <= WeakPairs(s);
    SubsetSize(StrictPairs(s), RankedPairs(s));
    SubsetSize(RankedPairs(s), WeakPairs(s));
    if DistinctScores(s) {
      assert WeakPairs(s) == StrictPairs(s);
    }
  }

  ghost function Positives(s: seq<Scored>): set<nat> { set i: nat | i < |s| && Pos(s[i]) }

  ghost function Negatives(s: seq<Scored>): set<nat> { set i: nat | i < |s| && !Pos(s[i]) }

  ghost function Product(a: set<nat>, b: set<nat>): set<(nat, nat)> {
    set i, j | i in a && j in b :: (i, j)
  }

  lemma ProductWithoutRow(a: set<nat>, b: set<nat>, i: nat)
    requires i in a
    ensures Product(a, b) == Product(a - {i}, b) + Row(i, b)
    ensures Product(a - {i}, b) !! Row(i, b)
  {
  }

  lemma {:induction false} ProductCount(a: set<nat>, b: set<nat>)
    ensures |Product(a, b)| == |a| * |b|
  {
    if a == {} {
      assert Product(a, b) == {};
    } else {
      var i :| i in a;
      ProductCount(a - {i}, b);
      RowCount(i, b);
      ProductWithoutRow(a, b, i);
      assert |Product(a, b)| == |Product(a - {i}, b)| + |Row(i, b)|;
      assert |a| * |b| == |a - {i}| * |b| + |b|;
    }
  }

  /** Every ranked pair is one of the `positives * negatives` pairs. */
  lemma AtMostAllPairs(s: seq<Scored>)
    ensures Accumulated(SortDescending(s)) <= PairCount(s)
  {
    AccumulatorCountsPairs(s);
    ProductCount(Positives(s), Negatives(s));
    SubsetSize(RankedPairs(s), Product(Positives(s), Negatives(s)));
  }

  // ----- the function

  function Zip(probabilities: seq<real>, labels: seq<int>): (r: seq<Scored>)
    requires |probabilities| == |labels|
    ensures |r| == |labels|
  {
    seq(|labels|, i requires 0 <= i < |labels| => Scored(probabilities[i], labels[i]))
  }

  function Total(xs: seq<int>): int {
    if xs == [] then 0 else Total(xs[..|xs| - 1]) + xs[|xs| - 1]
  }

  ghost predicate Binary(labels: seq<int>) {
    forall i | 0 <= i < |labels| :: labels[i] == 0 || labels[i] == 1
  }

  lemma {:induction false} TotalIsCount(probabilities: seq<real>, labels: seq<int>, n: nat)
    requires |probabilities| == |labels| && n <= |labels| && Binary(labels)
    ensures Total(labels[..n]) == CountWhere(Zip(probabilities, labels)[..n], IsPos)
  {
    var s := Zip(probabilities, labels);
    if n == 0 {
    } else {
      TotalIsCount(probabilities, labels, n - 1);
      assert labels[..n][..n - 1] == labels[..n - 1] && s[..n][..n - 1] == s[..n - 1];
      assert labels[..n][n - 1] == s[..n][n - 1].truth;
    }
  }

  ghost function Indices(n: nat): (r: set<nat>)
    ensures |r| == n && forall i :: i in r <==> 0 <= i < n
  {
    if n == 0 then {} else Indices(n - 1) + {n - 1}
  }

  lemma ClassCounts(probabilities: seq<real>, labels: seq<int>)
    requires |probabilities| == |labels| && Binary(labels)
    ensures |Positives(Zip(probabilities, labels))| == Total(labels)
    ensures |Negatives(Zip(probabilities, labels))| == |labels| - Total(labels)
  {
    var s := Zip(probabilities, labels);
    TotalIsCount(probabilities, labels, |labels|);
    WhereCount(s, |labels|, IsPos);
    assert labels[..|labels|] == labels;
    assert Where(s, |labels|, IsPos) == Positives(s);
    assert Indices(|s|) == Positives(s) + Negatives(s);
    assert Positives(s) !! Negatives(s);
  }

  /** Before rounding: the fallbacks, or the accumulator over all pairs. */
  function Auc(probabilities: seq<real>, labels: seq<int>): real
    requires |probabilities| == |labels| && Total(labels) != 0 && Total(labels) != |labels|
  {
    var pos := Total(labels);
    var neg := |labels| - pos;
    NonZeroProduct(pos, neg);
    Accumulated(SortDescending(Zip(probabilities, labels))) as real / (pos * neg) as real
  }

  lemma NonZeroProduct(a: int, b: int)
    requires a != 0 && b != 0
    ensures a * b != 0
  {
  }

  method ComputeRocAuc(probabilities: seq<real>, labels: seq<int>) returns (r: real)
    ensures r == if probabilities == [] || |probabilities| != |labels| then 0.5
                 else if Total(labels) == 0 then 1.0
                 else if Total(labels) == |labels| then 0.5
                 else Round4(Auc(probabilities, labels))
  {
    if probabilities == [] || |probabilities| != |labels| {
      return 0.5;
    }
    var posCount := Total(labels);
    var negCount := |labels| - posCount;
    if posCount == 0 || negCount == 0 {
      return if posCount == 0 then 1.0 else 0.5;
    }
    var paired := SortDescending(Zip(probabilities, labels));
    var tp, auc := 0, 0;
    for i := 0 to |paired|
      invariant tp == CountWhere(paired[..i], IsPos) && auc == Accumulated(paired[..i])
    {
      assert paired[..i + 1][..i] == paired[..i];
      if paired[i].truth == 1 {
        tp := tp + 1;
      } else {
        auc := auc + tp;
      }
    }
    assert paired[..|paired|] == paired;
    NonZeroProduct(posCount, negCount);
    r := Round4(auc as real / (posCount * negCount) as real);
  }

  ghost function PairCount(s: seq<Scored>): nat { |Positives(s)| * |Negatives(s)| }

  lemma PairCountIsDenominator(probabilities: seq<real>, labels: seq<int>)
    requires |probabilities| == |labels| && Binary(labels) && 0 < Total(labels) < |labels|
    ensures var s := Zip(probabilities, labels);
      PairCount(s) > 0
      && Auc(probabilities, labels) == Accumulated(SortDescending(s)) as real / PairCount(s) as real
  {
    ClassCounts(probabilities, labels);
    PositiveProduct(Total(labels), |labels| - Total(labels));
  }

  lemma PositiveProduct(a: int, b: int)
    requires a > 0 && b > 0
    ensures a * b > 0
  {
  }

  /** With both classes present the value is a share of all positive-negative pairs: at
      least the strictly ordered ones, at most the weakly ordered ones, never above 1. */
  lemma AucIsPairShare(probabilities: seq<real>, labels: seq<int>)
    requires |probabilities| == |labels| && Binary(labels) && 0 < Total(labels) < |labels|
    ensures var s := Zip(probabilities, labels);
      && PairCount(s) > 0
      && |StrictPairs(s)| as real / PairCount(s) as real <= Auc(probabilities, labels)
      && Auc(probabilities, labels) <= |WeakPairs(s)| as real / PairCount(s) as real
      && 0.0 <= Auc(probabilities, labels) <= 1.0
  {
    hide *;
    var s := Zip(probabilities, labels);
    PairCountIsDenominator(probabilities, labels);
    AccumulatorBetween(s);
    AtMostAllPairs(s);
    SharesInOrder(|StrictPairs(s)|, Accumulated(SortDescending(s)), |WeakPairs(s)|, PairCount(s));
  }

  lemma ShareBounds(x: real)
    requires x > 0.0
    ensures x / x == 1.0 && 0.0 / x == 0.0
  {
  }

  /** Counts in order are shares in order. */
  lemma SharesInOrder(a: nat, b: int, c: int, n: int)
    requires a <= b <= c && b <= n && n > 0
    ensures a as real / n as real <= b as real / n as real <= c as real / n as real
    ensures 0.0 <= b as real / n as real <= 1.0
  {
    DivMonotone(a, b, n);
    DivMonotone(b, c, n);
    DivMonotone(0, b, n);
    DivMonotone(b, n, n);
    ShareBounds(n as real);
  }
}
