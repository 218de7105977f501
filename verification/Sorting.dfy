// The sort of a list by a key, as the library does it: the result has the same members, in the
// order of their keys.
module Sorting {

  type Key = (int, int, int)

  predicate KeyLess(a: Key, b: Key) {
    a.0 < b.0 || (a.0 == b.0 && (a.1 < b.1 || (a.1 == b.1 && a.2 < b.2)))
  }

  function Insert<T>(x: T, s: seq<T>, key: T -> Key): seq<T> {
    if s == [] then [x]
    else if KeyLess(key(s[0]), key(x)) then [s[0]] + Insert(x, s[1..], key)
    else [x] + s
  }

  // A stable sort: of equal keys, the first given comes first.
  function SortedBy<T>(s: seq<T>, key: T -> Key): seq<T> {
    if s == [] then [] else Insert(s[0], SortedBy(s[1..], key), key)
  }

  ghost predicate DistinctKeys<T>(s: seq<T>, key: T -> Key) {
    forall k, l :: 0 <= k < l < |s| ==> key(s[k]) != key(s[l])
  }

  ghost predicate StrictlySortedBy<T>(s: seq<T>, key: T -> Key) {
    forall k, l :: 0 <= k < l < |s| ==> KeyLess(key(s[k]), key(s[l]))
  }

  ghost predicate SameMembers<T(!new)>(a: seq<T>, b: seq<T>) {
    |a| == |b| && forall x :: x in a <==> x in b
  }

  lemma {:induction false} InsertAdds<T(!new)>(x: T, s: seq<T>, key: T -> Key)
    ensures SameMembers(Insert(x, s, key), [x] + s)
  {
    if s != [] && KeyLess(key(s[0]), key(x)) {
      InsertAdds(x, s[1..], key);
      assert s == [s[0]] + s[1..];
    }
  }

  lemma {:induction false} SortKeepsMembers<T(!new)>(s: seq<T>, key: T -> Key)
    ensures SameMembers(SortedBy(s, key), s)
  {
    if s != [] {
      SortKeepsMembers(s[1..], key);
      InsertAdds(s[0], SortedBy(s[1..], key), key);
      assert s == [s[0]] + s[1..];
    }
  }

  lemma StrictlySortedByCons<T(!new)>(x: T, s: seq<T>, key: T -> Key)
    requires StrictlySortedBy(s, key)
    requires forall y :: y in s ==> KeyLess(key(x), key(y))
    ensures StrictlySortedBy([x] + s, key)
  {
  }

  lemma {:induction false} InsertSorts<T(!new)>(x: T, s: seq<T>, key: T -> Key)
    requires StrictlySortedBy(s, key)
    requires forall y :: y in s ==> key(y) != key(x)
    ensures StrictlySortedBy(Insert(x, s, key), key)
  {
    if s == [] {
    } else if KeyLess(key(s[0]), key(x)) {
      InsertSorts(x, s[1..], key);
      InsertAdds(x, s[1..], key);
      StrictlySortedByCons(s[0], Insert(x, s[1..], key), key);
    } else {
      StrictlySortedByCons(x, s, key);
    }
  }

  lemma {:induction false} SortSorts<T(!new)>(s: seq<T>, key: T -> Key)
    requires DistinctKeys(s, key)
    ensures StrictlySortedBy(SortedBy(s, key), key)
  {
    if s != [] {
      SortSorts(s[1..], key);
      SortKeepsMembers(s[1..], key);
      InsertSorts(s[0], SortedBy(s[1..], key), key);
    }
  }

  // ---- Keys that may be equal ----

  ghost predicate LooselySortedBy<T(!new)>(s: seq<T>, key: T -> Key) {
    forall k, l :: 0 <= k < l < |s| ==> !KeyLess(key(s[l]), key(s[k]))
  }

  ghost predicate Distinct<T>(s: seq<T>) {
    forall k, l :: 0 <= k < l < |s| ==> s[k] != s[l]
  }

  lemma LooselySortedByCons<T(!new)>(x: T, s: seq<T>, key: T -> Key)
    requires LooselySortedBy(s, key)
    requires forall y :: y in s ==> !KeyLess(key(y), key(x))
    ensures LooselySortedBy([x] + s, key)
  {
  }

  lemma {:induction false} InsertSortsLoosely<T(!new)>(x: T, s: seq<T>, key: T -> Key)
    requires LooselySortedBy(s, key)
    ensures LooselySortedBy(Insert(x, s, key), key)
  {
    if s == [] {
    } else if KeyLess(key(s[0]), key(x)) {
      InsertSortsLoosely(x, s[1..], key);
      InsertAdds(x, s[1..], key);
      LooselySortedByCons(s[0], Insert(x, s[1..], key), key);
    } else {
      LooselySortedByCons(x, s, key);
    }
  }

  lemma {:induction false} SortSortsLoosely<T(!new)>(s: seq<T>, key: T -> Key)
    ensures LooselySortedBy(SortedBy(s, key), key)
  {
    if s != [] {
      SortSortsLoosely(s[1..], key);
      InsertSortsLoosely(s[0], SortedBy(s[1..], key), key);
    }
  }

  lemma DistinctCons<T>(x: T, s: seq<T>)
    requires Distinct(s) && x !in s
    ensures Distinct([x] + s)
  {
  }

  lemma {:induction false} InsertKeepsDistinct<T(!new)>(x: T, s: seq<T>, key: T -> Key)
    requires Distinct(s) && x !in s
    ensures Distinct(Insert(x, s, key))
  {
    if s != [] && KeyLess(key(s[0]), key(x)) {
      InsertKeepsDistinct(x, s[1..], key);
      InsertAdds(x, s[1..], key);
      DistinctCons(s[0], Insert(x, s[1..], key));
    } else {
      DistinctCons(x, s);
    }
  }

  lemma {:induction false} SortKeepsDistinct<T(!new)>(s: seq<T>, key: T -> Key)
    requires Distinct(s)
    ensures Distinct(SortedBy(s, key))
  {
    if s != [] {
      SortKeepsDistinct(s[1..], key);
      SortKeepsMembers(s[1..], key);
      InsertKeepsDistinct(s[0], SortedBy(s[1..], key), key);
    }
  }
}
