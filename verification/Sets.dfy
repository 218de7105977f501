// Facts about the size and the members of a finite set.
module Sets {

  lemma SomeMember<T>(s: set<T>) returns (x: T)
    requires s != {}
    ensures x in s
  {
    x :| x in s;
  }

  lemma {:induction false} SubsetIsSmaller<T>(a: set<T>, b: set<T>)
    requires a <= b
    ensures |a| <= |b|
  {
    if a != {} {
      var x :| x in a;
      SubsetIsSmaller(a - {x}, b - {x});
    }
  }

  lemma StrictlySmaller<T>(a: set<T>, b: set<T>)
    requires a < b
    ensures |a| < |b|
  {
    var x :| x in b && x !in a;
    SubsetIsSmaller(a, b - {x});
  }

  lemma OnlyMember<T>(s: set<T>, x: T)
    requires |s| <= 1 && x in s
    ensures s == {x}
  {
    if s != {x} {
      StrictlySmaller({x}, s);
    }
  }

  lemma {:induction false} Least(s: set<int>, x: int) returns (least: int)
    requires x in s
    ensures least in s && forall y :: y in s ==> least <= y
    decreases s
  {
    least := x;
    if y :| y in s && y < x {
      least := Least(s - {x}, y);
      assert forall z :: z in s ==> z == x || z in s - {x};
    }
  }
}
