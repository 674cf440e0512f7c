/** Sums of integers over finite sets. */
module FiniteSum {
  import opened Ordering

  ghost function Sum<T(!new)>(s: set<T>, w: T -> int): int {
    if s == {} then 0 else Sum(s - {Pick(s)}, w) + w(Pick(s))
  }

  lemma {:induction false} SumTake<T(!new)>(s: set<T>, w: T -> int, y: T)
    requires y in s
    ensures Sum(s, w) == Sum(s - {y}, w) + w(y)
  {
    var x := Pick(s);
    if x != y {
      assert s - {y} - {x} == s - {x} - {y};
      SumTake(s - {x}, w, y);
      SumTake(s - {y}, w, x);
    }
  }

  lemma {:induction false} SumApart<T(!new)>(s: set<T>, t: set<T>, w: T -> int)
    requires s !! t
    ensures Sum(s + t, w) == Sum(s, w) + Sum(t, w)
  {
    if t == {} {
      assert s + t == s;
    } else {
      var y := Pick(t);
      assert s + t - {y} == s + (t - {y});
      SumTake(s + t, w, y);
      SumApart(s, t - {y}, w);
    }
  }

  lemma {:induction false} SumAgrees<T(!new)>(s: set<T>, v: T -> int, w: T -> int)
    requires forall x :: x in s ==> v(x) == w(x)
    ensures Sum(s, v) == Sum(s, w)
  {
    if s != {} {
      SumAgrees(s - {Pick(s)}, v, w);
    }
  }

  lemma {:induction false} SumZero<T(!new)>(s: set<T>, w: T -> int)
    requires forall x :: x in s ==> w(x) == 0
    ensures Sum(s, w) == 0
  {
    if s != {} {
      SumZero(s - {Pick(s)}, w);
    }
  }

  lemma {:induction false} SumDifference<T(!new)>(s: set<T>, u: T -> int, v: T -> int, w: T -> int)
    requires forall x :: x in s ==> w(x) == u(x) - v(x)
    ensures Sum(s, w) == Sum(s, u) - Sum(s, v)
  {
    if s != {} {
      SumDifference(s - {Pick(s)}, u, v, w);
    }
  }

  /** Only the elements with weight matter. */
  lemma SumPart<T(!new)>(s: set<T>, t: set<T>, w: T -> int)
    requires t <= s && forall x :: x in s && x !in t ==> w(x) == 0
    ensures Sum(s, w) == Sum(t, w)
  {
    assert s == t + (s - t);
    SumApart(t, s - t, w);
    SumZero(s - t, w);
  }
}
