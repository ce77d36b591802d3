/** Extremes of finite sets, and sums over them. */
module Sets {
  lemma Pick<T>(s: set<T>) returns (x: T)
    requires s != {}
    ensures x in s
  {
    x :| x in s;
  }

  /** Any member, as ranging over a map or a set yields one. */
  method Take<T>(s: set<T>) returns (x: T)
    requires s != {}
    ensures x in s
  {
    x :| x in s;
  }

  lemma {:induction false} MaxExists(s: set<int>)
    requires s != {}
    ensures exists m :: m in s && forall y :: y in s ==> y <= m
    decreases |s|
  {
    var x := Pick(s);
    var rest := s - {x};
    assert forall y :: y in s <==> y == x || y in rest;
    if rest != {} {
      MaxExists(rest);
      var m :| m in rest && forall y :: y in rest ==> y <= m;
      var top := if x <= m then m else x;
      assert top in s;
    }
  }

  function Max(s: set<int>): (m: int)
    requires s != {}
    ensures m in s && forall y :: y in s ==> y <= m
  {
    MaxExists(s);
    var m :| m in s && forall y :: y in s ==> y <= m;
    m
  }

  lemma {:induction false} MinExists(s: set<int>)
    requires s != {}
    ensures exists m :: m in s && forall y :: y in s ==> m <= y
    decreases |s|
  {
    var x := Pick(s);
    var rest := s - {x};
    assert forall y :: y in s <==> y == x || y in rest;
    if rest != {} {
      MinExists(rest);
      var m :| m in rest && forall y :: y in rest ==> m <= y;
      var low := if m <= x then m else x;
      assert low in s;
    }
  }

  function Min(s: set<int>): (m: int)
    requires s != {}
    ensures m in s && forall y :: y in s ==> m <= y
  {
    MinExists(s);
    var m :| m in s && forall y :: y in s ==> m <= y;
    m
  }

  lemma ProperSubsetIsSmaller<T>(a: set<T>, b: set<T>)
    requires a < b
    ensures |a| < |b|
  {
    var rest := b - a;
    assert b == a + rest;
    assert rest != {};
  }

  lemma SubsetIsNoLarger<T>(a: set<T>, b: set<T>)
    requires a <= b
    ensures |a| <= |b|
  {
    assert b == a + (b - a);
  }

  /** The sum of `f` over a set, in whatever order its elements come. */
  ghost function Sum<T>(s: set<T>, f: T -> int): int
    decreases |s|
  {
    if s == {} then 0
    else
      var x :| x in s;
      f(x) + Sum(s - {x}, f)
  }

  lemma {:induction false} SumTakesOut<T>(s: set<T>, f: T -> int, x: T)
    requires x in s
    ensures Sum(s, f) == f(x) + Sum(s - {x}, f)
    decreases |s|
  {
    var y :| y in s && Sum(s, f) == f(y) + Sum(s - {y}, f);
    if y != x {
      SumTakesOut(s - {y}, f, x);
      SumTakesOut(s - {x}, f, y);
      assert s - {y} - {x} == s - {x} - {y};
    }
  }

  lemma {:induction false} SumAgrees<T>(s: set<T>, f: T -> int, g: T -> int)
    requires forall x :: x in s ==> f(x) == g(x)
    ensures Sum(s, f) == Sum(s, g)
    decreases |s|
  {
    if s != {} {
      var x := Pick(s);
      SumTakesOut(s, f, x);
      SumTakesOut(s, g, x);
      SumAgrees(s - {x}, f, g);
    }
  }

  lemma {:induction false} SumAdds<T>(s: set<T>, f: T -> int, g: T -> int, h: T -> int)
    requires forall x :: x in s ==> h(x) == f(x) + g(x)
    ensures Sum(s, h) == Sum(s, f) + Sum(s, g)
    decreases |s|
  {
    if s != {} {
      var x := Pick(s);
      SumTakesOut(s, f, x);
      SumTakesOut(s, g, x);
      SumTakesOut(s, h, x);
      SumAdds(s - {x}, f, g, h);
    }
  }

  /** Only one member, if any, has anything to add. */
  lemma {:induction false} SumOfOne<T>(s: set<T>, x: T, f: T -> int)
    requires forall y :: y in s && y != x ==> f(y) == 0
    ensures Sum(s, f) == if x in s then f(x) else 0
    decreases |s|
  {
    if s != {} {
      var y := Pick(s);
      SumTakesOut(s, f, y);
      SumOfOne(s - {y}, x, f);
    }
  }

  /** A sum of positive terms is at least their number, and no more only when each is one. */
  lemma {:induction false} SumOfPositives<T>(s: set<T>, f: T -> int)
    requires forall x :: x in s ==> 1 <= f(x)
    ensures |s| <= Sum(s, f) && (Sum(s, f) == |s| <==> forall x :: x in s ==> f(x) == 1)
    decreases |s|
  {
    if s != {} {
      var x := Pick(s);
      var rest := s - {x};
      SumTakesOut(s, f, x);
      SumOfPositives(rest, f);
      assert |s| == |rest| + 1 && forall y :: y in s <==> y == x || y in rest;
    }
  }
}
