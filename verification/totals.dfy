/** Sums of money and shares, over sets and over sequences of rows. */
module Totals {
  import opened Sets

  ghost function Total<T>(s: set<T>, f: T -> real): real
    decreases |s|
  {
    if s == {} then 0.0
    else
      var x :| x in s;
      f(x) + Total(s - {x}, f)
  }

  lemma {:induction false} TotalTakesOut<T>(s: set<T>, f: T -> real, x: T)
    requires x in s
    ensures Total(s, f) == f(x) + Total(s - {x}, f)
    decreases |s|
  {
    var y :| y in s && Total(s, f) == f(y) + Total(s - {y}, f);
    if y != x {
      TotalTakesOut(s - {y}, f, x);
      TotalTakesOut(s - {x}, f, y);
      assert s - {y} - {x} == s - {x} - {y};
    }
  }

  lemma {:induction false} TotalAgrees<T>(s: set<T>, f: T -> real, g: T -> real)
    requires forall x :: x in s ==> f(x) == g(x)
    ensures Total(s, f) == Total(s, g)
    decreases |s|
  {
    if s != {} {
      var x := Pick(s);
      TotalTakesOut(s, f, x);
      TotalTakesOut(s, g, x);
      TotalAgrees(s - {x}, f, g);
    }
  }

  lemma {:induction false} TotalOfSum<T>(s: set<T>, f: T -> real, g: T -> real, h: T -> real)
    requires forall x :: x in s ==> h(x) == f(x) + g(x)
    ensures Total(s, h) == Total(s, f) + Total(s, g)
    decreases |s|
  {
    if s != {} {
      var x := Pick(s);
      TotalTakesOut(s, f, x);
      TotalTakesOut(s, g, x);
      TotalTakesOut(s, h, x);
      TotalOfSum(s - {x}, f, g, h);
    }
  }

  function Times(c: real, x: real): real {
    c * x
  }

  lemma Distribute(c: real, a: real, b: real)
    ensures Times(c, a + b) == Times(c, a) + Times(c, b)
  {}

  lemma TimesUnits(c: real)
    ensures Times(c, 0.0) == 0.0 && Times(c, 1.0) == c
  {}

  lemma {:induction false} TotalIsBetween<T>(s: set<T>, f: T -> real, g: T -> real)
    requires forall x :: x in s ==> g(x) <= f(x)
    ensures Total(s, g) <= Total(s, f)
    decreases |s|
  {
    if s != {} {
      var x := Pick(s);
      TotalTakesOut(s, f, x);
      TotalTakesOut(s, g, x);
      TotalIsBetween(s - {x}, f, g);
    }
  }

  /** Each term falls short by less than one, so the sum by less than their number. */
  lemma {:induction false} TotalFallsShort<T>(s: set<T>, f: T -> real, g: T -> real)
    requires forall x :: x in s ==> f(x) < g(x) + 1.0
    ensures s != {} ==> Total(s, f) < Total(s, g) + |s| as real
    decreases |s|
  {
    if s != {} {
      var x := Pick(s);
      TotalTakesOut(s, f, x);
      TotalTakesOut(s, g, x);
      TotalFallsShort(s - {x}, f, g);
      if s - {x} == {} {
        assert |s| == 1 + |s - {x}|;
      }
    }
  }

  /** The same amount for some of the members, and nothing for the others. */
  lemma {:induction false} TotalOfSome<T>(s: set<T>, some: set<T>, c: real, f: T -> real)
    requires some <= s
    requires forall x :: x in s ==> f(x) == if x in some then c else 0.0
    ensures Total(s, f) == Times(c, |some| as real)
    decreases |s|
  {
    TimesUnits(c);
    hide Times;
    if s != {} {
      var x := Pick(s);
      TotalTakesOut(s, f, x);
      TotalOfSome(s - {x}, some - {x}, c, f);
      if x in some {
        assert |some| == |some - {x}| + 1;
        Distribute(c, |some - {x}| as real, 1.0);
      } else {
        assert some - {x} == some;
      }
    } else {
      assert some == {};
    }
  }

  lemma {:induction false} TotalOverUnion<T>(a: set<T>, b: set<T>, f: T -> real)
    requires a !! b
    ensures Total(a + b, f) == Total(a, f) + Total(b, f)
    decreases |a|
  {
    if a == {} {
      assert a + b == b;
    } else {
      var x := Pick(a);
      TotalTakesOut(a, f, x);
      TotalTakesOut(a + b, f, x);
      assert a + b - {x} == (a - {x}) + b;
      TotalOverUnion(a - {x}, b, f);
    }
  }

  // ---- Over rows ----

  function RowSum<T>(rows: seq<T>, f: T -> real): real {
    if rows == [] then 0.0 else RowSum(rows[..|rows| - 1], f) + f(rows[|rows| - 1])
  }

  lemma {:induction false} RowSumAgrees<T>(rows: seq<T>, f: T -> real, g: T -> real)
    requires forall r :: r in rows ==> f(r) == g(r)
    ensures RowSum(rows, f) == RowSum(rows, g)
    decreases |rows|
  {
    if rows != [] {
      assert forall r :: r in rows[..|rows| - 1] ==> r in rows;
      RowSumAgrees(rows[..|rows| - 1], f, g);
    }
  }

  lemma {:induction false} RowSumIsBetween<T>(rows: seq<T>, f: T -> real, g: T -> real)
    requires forall r :: r in rows ==> g(r) <= f(r)
    ensures RowSum(rows, g) <= RowSum(rows, f)
    decreases |rows|
  {
    if rows != [] {
      assert forall r :: r in rows[..|rows| - 1] ==> r in rows;
      RowSumIsBetween(rows[..|rows| - 1], f, g);
    }
  }

  ghost function RowTotal<T, K>(s: set<K>, f: (T, K) -> real, r: T): real {
    Total(s, k => f(r, k))
  }

  lemma RowTotalTakesOut<T, K>(s: set<K>, f: (T, K) -> real, r: T, x: K)
    requires x in s
    ensures RowTotal(s, f, r) == f(r, x) + RowTotal(s - {x}, f, r)
  {
    TotalTakesOut(s, k => f(r, k), x);
  }

  lemma RowTotalIs<T, K>(s: set<K>, f: (T, K) -> real, r: T, g: K -> real)
    requires forall k :: k in s ==> g(k) == f(r, k)
    ensures RowTotal(s, f, r) == Total(s, g)
  {
    TotalAgrees(s, k => f(r, k), g);
  }

  lemma RowTotalOfSome<T, K>(s: set<K>, some: set<K>, c: real, f: (T, K) -> real, r: T)
    requires some <= s
    requires forall k :: k in s ==> f(r, k) == if k in some then c else 0.0
    ensures RowTotal(s, f, r) == Times(c, |some| as real)
  {
    TotalOfSome(s, some, c, k => f(r, k));
  }

  function ColumnSum<T, K>(rows: seq<T>, f: (T, K) -> real, k: K): real {
    RowSum(rows, r => f(r, k))
  }

  /** Summing each row over the members, or each member over the rows. */
  lemma {:induction false} SumsSwap<T, K>(rows: seq<T>, s: set<K>, f: (T, K) -> real)
    ensures RowSum(rows, r => RowTotal(s, f, r)) == Total(s, k => ColumnSum(rows, f, k))
    decreases |rows|
  {
    if rows == [] {
      TotalOfSome(s, {}, 0.0, k => ColumnSum(rows, f, k));
    } else {
      var before, last := rows[..|rows| - 1], rows[|rows| - 1];
      SumsSwap(before, s, f);
      forall k ensures ColumnSum(rows, f, k) == ColumnSum(before, f, k) + f(last, k) {}
      TotalOfSum(s, k => ColumnSum(before, f, k), k => f(last, k), k => ColumnSum(rows, f, k));
    }
  }
}
