// Cardinality facts used by several modules.
module Sets {

  ghost function Some<T>(a: set<T>): (x: T)
    requires a != {}
    ensures x in a
  {
    var x :| x in a;
    x
  }

  lemma {:induction false} SubsetSize<T>(a: set<T>, b: set<T>)
    requires a <= b
    ensures |a| <= |b|
    ensures |a| == |b| ==> a == b
    decreases |a|
  {
    if a == {} {
    } else {
      var x :| x in a;
      SubsetSize(a - {x}, b - {x});
      assert a == a - {x} + {x} && b == b - {x} + {x};
    }
  }

  // An injective image is as large as its source.
  lemma {:induction false} InjectiveSize<A, B>(a: set<A>, f: A --> B, b: set<B>)
    requires forall x :: x in a ==> f.requires(x)
    requires forall x, y :: x in a && y in a && f(x) == f(y) ==> x == y
    requires b == set x | x in a :: f(x)
    ensures |b| == |a|
    decreases |a|
  {
    if a == {} {
    } else {
      var x :| x in a;
      var rest := a - {x};
      assert b - {f(x)} == set y | y in rest :: f(y);
      InjectiveSize(rest, f, b - {f(x)});
    }
  }

  lemma PutBack<T>(s: set<T>, x: T)
    requires x in s
    ensures s - {x} + {x} == s
  {
  }
}
