// Sums over the members of a finite set, in whatever order they are taken.
module Sums {

  ghost function Sum<T(!new)>(s: set<T>, f: T -> int): int {
    if s == {} then 0
    else
      var x :| x in s;
      f(x) + Sum(s - {x}, f)
  }

  // Any member may be taken first.
  lemma {:induction false} SumOfOneMore<T(!new)>(s: set<T>, f: T -> int, x: T)
    requires x in s
    ensures Sum(s, f) == f(x) + Sum(s - {x}, f)
    decreases s
  {
    var y :| y in s && Sum(s, f) == f(y) + Sum(s - {y}, f);
    if x != y {
      SumOfOneMore(s - {y}, f, x);
      SumOfOneMore(s - {x}, f, y);
      assert s - {y} - {x} == s - {x} - {y};
    }
  }

  lemma {:induction false} SumOfTwoSets<T(!new)>(a: set<T>, b: set<T>, f: T -> int)
    requires a !! b
    ensures Sum(a + b, f) == Sum(a, f) + Sum(b, f)
    decreases a
  {
    if a == {} {
      assert a + b == b;
    } else {
      var x :| x in a;
      SumOfOneMore(a, f, x);
      SumOfOneMore(a + b, f, x);
      assert a + b - {x} == (a - {x}) + b;
      SumOfTwoSets(a - {x}, b, f);
    }
  }

  lemma {:induction false} SumOfZeros<T(!new)>(s: set<T>, f: T -> int)
    requires forall x :: x in s ==> f(x) == 0
    ensures Sum(s, f) == 0
  {
    if s != {} {
      var x :| x in s;
      SumOfOneMore(s, f, x);
      SumOfZeros(s - {x}, f);
    }
  }

  lemma {:induction false} SumIsNotNegative<T(!new)>(s: set<T>, f: T -> int)
    requires forall x :: x in s ==> 0 <= f(x)
    ensures 0 <= Sum(s, f)
  {
    if s != {} {
      var x :| x in s;
      SumOfOneMore(s, f, x);
      SumIsNotNegative(s - {x}, f);
    }
  }

  // A sum of counts is zero exactly when every count is.
  lemma SumIsZero<T(!new)>(s: set<T>, f: T -> int)
    requires forall x :: x in s ==> 0 <= f(x)
    ensures Sum(s, f) == 0 <==> forall x :: x in s ==> f(x) == 0
  {
    if forall x :: x in s ==> f(x) == 0 {
      SumOfZeros(s, f);
    } else {
      var x :| x in s && f(x) != 0;
      SumOfOneMore(s, f, x);
      SumIsNotNegative(s - {x}, f);
    }
  }

  // What holds of every member between two counts holds between their sums.
  lemma {:induction false} SumsBalance<T(!new)>(
    s: set<T>, a: T -> int, b: T -> int, c: T -> int, d: T -> int, e: T -> int)
    requires forall x :: x in s ==> a(x) + b(x) == c(x) + d(x) + e(x)
    ensures Sum(s, a) + Sum(s, b) == Sum(s, c) + Sum(s, d) + Sum(s, e)
  {
    if s != {} {
      var x :| x in s;
      SumOfOneMore(s, a, x);
      SumOfOneMore(s, b, x);
      SumOfOneMore(s, c, x);
      SumOfOneMore(s, d, x);
      SumOfOneMore(s, e, x);
      SumsBalance(s - {x}, a, b, c, d, e);
    }
  }

  lemma SumGrows<T(!new)>(done: set<T>, f: T -> int, x: T)
    requires x !in done
    ensures Sum(done + {x}, f) == Sum(done, f) + f(x)
  {
    SumOfOneMore(done + {x}, f, x);
    assert done + {x} - {x} == done;
  }

  lemma {:induction false} SumOfEquals<T(!new)>(s: set<T>, f: T -> int, g: T -> int)
    requires forall x :: x in s ==> f(x) == g(x)
    ensures Sum(s, f) == Sum(s, g)
  {
    if s != {} {
      var x :| x in s;
      SumOfOneMore(s, f, x);
      SumOfOneMore(s, g, x);
      SumOfEquals(s - {x}, f, g);
    }
  }
}
