/** Cardinalities of finite sets of requests and rows. */
module Sets {

  lemma {:induction false} SubsetSize<T>(a: set<T>, b: set<T>)
    requires a <= b
    ensures |a| <= |b|
    decreases |a|
  {
    if a != {} {
      var x :| x in a;
      SubsetSize(a - {x}, b - {x});
    }
  }

  /** If every element of `a` is the image of some element of `b`, then `a` is no larger. */
  lemma {:induction false} ImageSize<S, T>(a: set<T>, b: set<S>, f: S -> T)
    requires forall y | y in a :: exists x :: x in b && f(x) == y
    ensures |a| <= |b|
    decreases |b|
  {
    if b == {} {
      assert a == {};
    } else {
      var x :| x in b;
      forall y | y in a - {f(x)}
        ensures exists z :: z in b - {x} && f(z) == y
      {
        var z :| z in b && f(z) == y;
        assert z in b - {x};
      }
      ImageSize(a - {f(x)}, b - {x}, f);
    }
  }

  /** A one-to-one map from `a` into `b` makes `a` no larger. */
  lemma {:induction false} InjectionSize<S, T>(a: set<S>, b: set<T>, f: S -> T)
    requires forall x | x in a :: f(x) in b
    requires forall x, y | x in a && y in a && f(x) == f(y) :: x == y
    ensures |a| <= |b|
    decreases |a|
  {
    if a != {} {
      var x :| x in a;
      InjectionSize(a - {x}, b - {f(x)}, f);
    }
  }

  lemma UnionSize<T>(a: set<T>, b: set<T>)
    ensures |a + b| <= |a| + |b|
    ensures a !! b ==> |a + b| == |a| + |b|
  {
    assert |a + b| == |a| + |b| - |a * b|;
    assert a !! b ==> a * b == {};
  }
}
