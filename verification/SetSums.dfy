/** Sizes of finite sets, and sums over them independent of the order the elements are taken in. */
module SetSums {

  lemma SubsetSize<T>(a: set<T>, b: set<T>)
    requires a <= b
    ensures |a| <= |b|
  {
    assert b == a + (b - a);
  }

  ghost function Sum<T(!new)>(s: set<T>, f: T -> int): int {
    if s == {} then 0 else var x :| x in s; f(x) + Sum(s - {x}, f)
  }

  /** Any element may be taken first. */
  lemma {:induction false} SumRemove<T(!new)>(s: set<T>, f: T -> int, x: T)
    requires x in s
    ensures Sum(s, f) == f(x) + Sum(s - {x}, f)
  {
    var y :| y in s && Sum(s, f) == f(y) + Sum(s - {y}, f);
    if y != x {
      SumRemove(s - {y}, f, x);
      SumRemove(s - {x}, f, y);
      assert s - {y} - {x} == s - {x} - {y};
    }
  }

  lemma SumAdd<T(!new)>(s: set<T>, f: T -> int, x: T)
    requires x !in s
    ensures Sum(s + {x}, f) == Sum(s, f) + f(x)
  {
    SumRemove(s + {x}, f, x);
    assert s + {x} - {x} == s;
  }

  lemma {:induction false} SumSame<T(!new)>(s: set<T>, f: T -> int, h: T -> int)
    requires forall x | x in s :: f(x) == h(x)
    ensures Sum(s, f) == Sum(s, h)
  {
    if s == {} {
    } else {
      var x :| x in s;
      SumRemove(s, f, x);
      SumRemove(s, h, x);
      SumSame(s - {x}, f, h);
    }
  }

  lemma {:induction false} SumMonotone<T(!new)>(s: set<T>, f: T -> int, h: T -> int)
    requires forall x | x in s :: f(x) <= h(x)
    ensures Sum(s, f) <= Sum(s, h)
  {
    if s == {} {
    } else {
      var x :| x in s;
      SumRemove(s, f, x);
      SumRemove(s, h, x);
      SumMonotone(s - {x}, f, h);
    }
  }

  /** Between sums of which one bounds the other element by element, equality is equality of
      every element. */
  lemma {:induction false} SumEqualExactly<T(!new)>(s: set<T>, f: T -> int, h: T -> int)
    requires forall x | x in s :: f(x) <= h(x)
    ensures Sum(s, f) == Sum(s, h) <==> forall x | x in s :: f(x) == h(x)
  {
    if s == {} {
    } else {
      var x :| x in s;
      SumRemove(s, f, x);
      SumRemove(s, h, x);
      SumMonotone(s - {x}, f, h);
      SumEqualExactly(s - {x}, f, h);
    }
  }

  lemma {:induction false} SumPlus<T(!new)>(s: set<T>, f: T -> int, g: T -> int, h: T -> int)
    requires forall x | x in s :: h(x) == f(x) + g(x)
    ensures Sum(s, h) == Sum(s, f) + Sum(s, g)
  {
    if s == {} {
    } else {
      var x :| x in s;
      SumRemove(s, f, x);
      SumRemove(s, g, x);
      SumRemove(s, h, x);
      SumPlus(s - {x}, f, g, h);
    }
  }

  lemma {:induction false} SumNonNegative<T(!new)>(s: set<T>, f: T -> int)
    requires forall x | x in s :: f(x) >= 0
    ensures Sum(s, f) >= 0
  {
    if s == {} {
    } else {
      var x :| x in s;
      SumRemove(s, f, x);
      SumNonNegative(s - {x}, f);
    }
  }

  lemma {:induction false} SumZero<T(!new)>(s: set<T>, f: T -> int)
    requires forall x | x in s :: f(x) == 0
    ensures Sum(s, f) == 0
  {
    if s == {} {
    } else {
      var x :| x in s;
      SumRemove(s, f, x);
      SumZero(s - {x}, f);
    }
  }
}
