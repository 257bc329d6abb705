/** The sizes of finite sets. */
module Sets {

  lemma SubsetSize<T>(a: set<T>, b: set<T>)
    requires a <= b
    ensures |a| <= |b| && (|a| == |b| ==> a == b)
  {
    assert b == a + (b - a);
  }

  lemma UnionSize<T>(a: set<T>, b: set<T>)
    ensures |a + b| <= |a| + |b| && (a !! b <==> |a + b| == |a| + |b|)
  {
    assert a + b == a + (b - a);
    assert b == (b - a) + a * b;
    assert a !! b <==> a * b == {};
  }

  /** Disjoint parts of a set. */
  lemma PartsSize<T>(a: set<T>, b: set<T>, c: set<T>, all: set<T>)
    requires a !! b && a + b !! c && a + b + c <= all
    ensures |a| + |b| + |c| <= |all|
  {
    UnionSize(a, b);
    UnionSize(a + b, c);
    SubsetSize(a + b + c, all);
  }

  /** What p and then q add to a. */
  lemma AddedSize<T>(a: set<T>, p: set<T>, q: set<T>)
    ensures |(p + q) - a| == |p - a| + |q - (a + p)|
  {
    assert (p + q) - a == (p - a) + (q - (a + p));
    UnionSize(p - a, q - (a + p));
  }

  lemma AddedOnce<T>(a: set<T>, p: set<T>)
    ensures |a + p| == |a| + |p - a|
  {
    assert a + p == a + (p - a);
    UnionSize(a, p - a);
  }
}
