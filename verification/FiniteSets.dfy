/** Sizes of finite sets. */
module FiniteSets {
  lemma CardWithout<T>(xs: set<T>, x: T)
    ensures |xs| == |xs - {x}| + if x in xs then 1 else 0
  {
    assert xs == if x in xs then (xs - {x}) + {x} else xs - {x};
  }

  lemma CardSplit<T>(xs: set<T>, ys: set<T>)
    ensures |xs| == |xs * ys| + |xs - ys|
  {
    assert xs == (xs * ys) + (xs - ys);
  }

  lemma {:induction false} SubsetSize<T>(xs: set<T>, ys: set<T>)
    requires xs <= ys
    ensures |xs| <= |ys|
  {
    if xs != {} {
      var x :| x in xs;
      SubsetSize(xs - {x}, ys - {x});
    }
  }

  lemma AtMostOne<T>(xs: set<T>, a: T, b: T)
    requires a in xs && b in xs && |xs| <= 1
    ensures a == b
  {
    if a != b {
      assert {a, b} <= xs;
      assert |{a, b}| <= |xs| by { SubsetSize({a, b}, xs); }
    }
  }

  lemma {:induction false} DistinctFits<T>(p: seq<T>, xs: set<T>)
    requires forall i :: 0 <= i < |p| ==> p[i] in xs
    requires forall i, j :: 0 <= i < j < |p| ==> p[i] != p[j]
    ensures |p| <= |xs|
  {
    if |p| > 0 {
      DistinctFits(p[1..], xs - {p[0]});
    }
  }
}
