/** Facts about finite sets and sequences. */
module Collections {

  /** At most the last `n` elements. */
  function LastOf<T>(s: seq<T>, n: nat): seq<T> {
    if |s| > n then s[|s| - n..] else s
  }

  lemma {:induction false} SubsetSize<T>(a: set<T>, b: set<T>)
    requires a <= b
    ensures |a| <= |b|
  {
    if a != {} {
      var x :| x in a;
      SubsetSize(a - {x}, b - {x});
    }
  }

  /** A larger set has something a smaller one has not. */
  lemma Missing<T>(a: set<T>, b: set<T>) returns (x: T)
    requires |a| < |b|
    ensures x in b && x !in a
  {
    assert !(b <= a) by {
      if b <= a {
        SubsetSize(b, a);
      }
    }
    x :| x in b && x !in a;
  }

  lemma ProperSubset<T>(a: set<T>, b: set<T>)
    requires a < b
    ensures |a| < |b|
  {
    var x :| x in b && x !in a;
    assert a <= b - {x};
    SubsetSize(a, b - {x});
  }
}
