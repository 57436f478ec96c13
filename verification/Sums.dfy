/** Finite sums over sets, and the counting facts the published totals rest on. */
module Sums {

  ghost function Sum<T>(xs: set<T>, f: T -> int): int
  {
    if xs == {} then 0 else
      var x :| x in xs;
      f(x) + Sum(xs - {x}, f)
  }

  /** The members of `xs` that `g` sends to `c`. */
  ghost function Class<T, C>(xs: set<T>, g: T -> C, c: C): set<T>
  {
    set x | x in xs && g(x) == c
  }

  /** A sum may be taken in any order. */
  lemma {:induction false} SumPick<T>(xs: set<T>, f: T -> int, x: T)
    requires x in xs
    ensures Sum(xs, f) == f(x) + Sum(xs - {x}, f)
    decreases |xs|
  {
    var y :| y in xs && Sum(xs, f) == f(y) + Sum(xs - {y}, f);
    if y != x {
      SumPick(xs - {y}, f, x);
      SumPick(xs - {x}, f, y);
      assert xs - {y} - {x} == xs - {x} - {y};
    }
  }

  lemma {:induction false} SumCong<T>(xs: set<T>, f: T -> int, g: T -> int)
    requires forall x :: x in xs ==> f(x) == g(x)
    ensures Sum(xs, f) == Sum(xs, g)
    decreases |xs|
  {
    if xs != {} {
      var x :| x in xs;
      SumPick(xs, f, x);
      SumPick(xs, g, x);
      SumCong(xs - {x}, f, g);
    }
  }

  lemma {:induction false} SumZero<T>(xs: set<T>, f: T -> int)
    requires forall x :: x in xs ==> f(x) == 0
    ensures Sum(xs, f) == 0
    decreases |xs|
  {
    if xs != {} {
      var x :| x in xs;
      SumPick(xs, f, x);
      SumZero(xs - {x}, f);
    }
  }

  lemma {:induction false} SumMonotone<T>(xs: set<T>, f: T -> int, g: T -> int)
    requires forall x :: x in xs ==> f(x) <= g(x)
    ensures Sum(xs, f) <= Sum(xs, g)
    decreases |xs|
  {
    if xs != {} {
      var x :| x in xs;
      SumPick(xs, f, x);
      SumPick(xs, g, x);
      SumMonotone(xs - {x}, f, g);
    }
  }

  /** Only one summand can be non-zero. */
  lemma {:induction false} SumSingle<T>(xs: set<T>, f: T -> int, x: T)
    requires x in xs
    requires forall y :: y in xs && y != x ==> f(y) == 0
    ensures Sum(xs, f) == f(x)
  {
    SumPick(xs, f, x);
    SumZero(xs - {x}, f);
  }

  /** A sum over an injective image is a sum over its source. */
  lemma {:induction false} SumImage<T, U>(xs: set<T>, ys: set<U>, h: T -> U, f: U -> int, g: T -> int)
    requires forall x, y :: x in xs && y in xs && h(x) == h(y) ==> x == y
    requires forall x :: x in xs ==> h(x) in ys && g(x) == f(h(x))
    requires forall y :: y in ys ==> exists x :: x in xs && h(x) == y
    ensures Sum(ys, f) == Sum(xs, g)
    decreases |xs|
  {
    if xs == {} {
      assert ys == {};
    } else {
      var x :| x in xs;
      SumPick(xs, g, x);
      SumPick(ys, f, h(x));
      forall y | y in ys - {h(x)} ensures exists z :: z in xs - {x} && h(z) == y {
        var z :| z in xs && h(z) == y;
        assert z in xs - {x};
      }
      SumImage(xs - {x}, ys - {h(x)}, h, f, g);
    }
  }

  /** Counting by class counts everything: the class sizes add up to the size of the set. */
  lemma {:induction false} CountByClass<T, C>(xs: set<T>, g: T -> C, cs: set<C>, size: C -> int)
    requires forall x :: x in xs ==> g(x) in cs
    requires forall c :: c in cs ==> size(c) == |Class(xs, g, c)|
    ensures Sum(cs, size) == |xs|
    decreases |cs|
  {
    if cs == {} {
      assert xs == {};
    } else {
      var c :| c in cs;
      SumPick(cs, size, c);
      var mine := Class(xs, g, c);
      var rest := xs - mine;
      forall d | d in cs - {c} ensures size(d) == |Class(rest, g, d)| {
        assert Class(rest, g, d) == Class(xs, g, d);
      }
      CountByClass(rest, g, cs - {c}, size);
      assert |xs| == |mine| + |rest|;
    }
  }

  /** A sum of zeros and ones counts the ones. */
  lemma {:induction false} SumIndicator<T>(xs: set<T>, f: T -> int)
    requires forall x :: x in xs ==> f(x) == 0 || f(x) == 1
    ensures Sum(xs, f) == |Class(xs, f, 1)|
    decreases |xs|
  {
    if xs == {} {
      assert Class(xs, f, 1) == {};
    } else {
      var x :| x in xs;
      SumPick(xs, f, x);
      SumIndicator(xs - {x}, f);
      if f(x) == 1 {
        assert Class(xs, f, 1) == Class(xs - {x}, f, 1) + {x};
      } else {
        assert Class(xs, f, 1) == Class(xs - {x}, f, 1);
      }
    }
  }

}
