// The reports of one instance, stored as they were received or by day: when both leave one row.
module ReportOrder {
  import opened Wrappers
  import opened Sets
  import opened Reports
  import opened ReportHistory

  ghost predicate InOrderOfReception(rs: seq<Report>) {
    forall j, k :: 0 <= j < k < |rs| ==> rs[j].receivedAt < rs[k].receivedAt
  }

  // By day, and those of one day as they were received.
  ghost predicate InOrderOfDays(rs: seq<Report>) {
    forall j, k :: 0 <= j < k < |rs| ==> BeforeByDay(rs[j], rs[k])
  }

  predicate BeforeByDay(a: Report, b: Report) {
    a.day <= b.day && (a.day == b.day ==> a.receivedAt < b.receivedAt)
  }

  ghost predicate IsFirstOfItsDay(rs: seq<Report>, k: int) {
    0 <= k < |rs| && forall j :: 0 <= j < k ==> rs[j].day != rs[k].day
  }

  // The same reports by day, or some of them, the first received of each day among these.
  ghost predicate ByDay(rs: seq<Report>, sorted: seq<Report>) {
    && InOrderOfReception(rs) && InOrderOfDays(sorted)
    && (forall r :: r in sorted ==> r in rs)
    && (forall k :: IsFirstOfItsDay(rs, k) ==> rs[k] in sorted)
  }

  lemma SomeMemberIfAny(rs: seq<Report>)
    ensures rs != [] ==> exists r :: r in rs
  {
    if rs != [] {
      assert rs[0] in rs;
    }
  }

  // ---- The first reports of the days ----

  lemma {:induction false} SomeFirstOfItsDay(rs: seq<Report>, n: int) returns (k: int)
    requires 0 <= n < |rs|
    ensures IsFirstOfItsDay(rs, k) && k <= n && rs[k].day == rs[n].day
    decreases n
  {
    k := n;
    if j :| 0 <= j < n && rs[j].day == rs[n].day {
      k := SomeFirstOfItsDay(rs, j);
    }
  }

  lemma OneFirstOfADay(rs: seq<Report>, k: int, m: int)
    requires IsFirstOfItsDay(rs, k) && IsFirstOfItsDay(rs, m) && rs[k].day == rs[m].day
    ensures k == m
  {
  }

  lemma FirstInBoth(rs: seq<Report>, sorted: seq<Report>, k: int) returns (m: int)
    requires ByDay(rs, sorted) && IsFirstOfItsDay(rs, k)
    ensures IsFirstOfItsDay(sorted, m) && sorted[m] == rs[k]
  {
    hide IsFirstOfItsDay, InOrderOfReception, InOrderOfDays;
    FirstIsThere(rs, k);
    var n :| 0 <= n < |sorted| && sorted[n] == rs[k];
    m := SomeFirstOfItsDay(sorted, n);
    FirstIsThere(sorted, m);
    NotAfterOnItsDay(sorted, m, n);
    assert sorted[m] in rs;
    var j :| 0 <= j < |rs| && rs[j] == sorted[m];
    OfOneReception(rs, k, j);
  }

  lemma FirstIsThere(rs: seq<Report>, k: int)
    requires IsFirstOfItsDay(rs, k)
    ensures 0 <= k < |rs|
  {
  }

  lemma NotAfterOnItsDay(sorted: seq<Report>, m: int, n: int)
    requires InOrderOfDays(sorted) && 0 <= m <= n < |sorted| && sorted[m].day == sorted[n].day
    ensures sorted[m].receivedAt <= sorted[n].receivedAt
  {
  }

  lemma OfOneReception(rs: seq<Report>, k: int, j: int)
    requires InOrderOfReception(rs) && IsFirstOfItsDay(rs, k) && 0 <= j < |rs| && rs[j].day == rs[k].day
    requires rs[j].receivedAt <= rs[k].receivedAt
    ensures j == k
  {
  }

  lemma FirstInBothBack(rs: seq<Report>, sorted: seq<Report>, m: int) returns (k: int)
    requires ByDay(rs, sorted) && IsFirstOfItsDay(sorted, m)
    ensures IsFirstOfItsDay(rs, k) && sorted[m] == rs[k]
  {
    assert sorted[m] in rs;
    var j :| 0 <= j < |rs| && rs[j] == sorted[m];
    k := SomeFirstOfItsDay(rs, j);
    var n := FirstInBoth(rs, sorted, k);
    OneFirstOfADay(sorted, m, n);
  }

  lemma NewsIsFirst(rs: seq<Report>, k: int)
    ensures IsNews(rs, k) ==> IsFirstOfItsDay(rs, k)
    ensures InOrderOfDays(rs) ==> (IsNews(rs, k) <==> IsFirstOfItsDay(rs, k))
  {
  }

  // ---- What the two rows tell ----

  // Once a report of the greatest day has come, none is the first of its day.
  ghost predicate GreatestDayCameLast(rs: seq<Report>) {
    forall k, m :: IsLastNews(rs, k) && IsFirstOfItsDay(rs, m) ==> m <= k
  }

  // Of the first reports of the days, the one of the greatest day among those that say how the
  // instance is installed.
  ghost predicate IsKindOfTheDays(rs: seq<Report>, k: int) {
    && IsFirstOfItsDay(rs, k) && rs[k].installKind.Some?
    && forall m :: IsFirstOfItsDay(rs, m) && rs[k].day < rs[m].day ==> rs[m].installKind.None?
  }

  // It says what the last of the news that says it does.
  ghost predicate KindIsNews(rs: seq<Report>) {
    forall k :: IsKindOfTheDays(rs, k) ==> KindIs(rs, rs[k].installKind)
  }

  lemma SameFirstSeen(rs: seq<Report>, sorted: seq<Report>, a: int, b: int)
    requires ByDay(rs, sorted) && FirstSeenIs(rs, a) && FirstSeenIs(sorted, b)
    ensures a == b
  {
    var m := FirstInBoth(rs, sorted, 0);
    var n :| 0 <= n < |sorted| && sorted[n].receivedAt == b;
    assert sorted[n] in rs;
  }

  lemma SameLatest(rs: seq<Report>, sorted: seq<Report>, k: int, m: int)
    requires ByDay(rs, sorted) && IsLastNews(rs, k) && IsLastNews(sorted, m)
    ensures rs[k] == sorted[m]
  {
    NewsIsFirst(rs, k);
    NewsIsFirst(sorted, m);
    var n := FirstInBoth(rs, sorted, k);
    var j := FirstInBothBack(rs, sorted, m);
    hide ByDay, IsNews;
    assert sorted[n].day <= sorted[m].day && rs[j].day <= rs[k].day;
    OneFirstOfADay(sorted, n, m);
  }

  lemma LastSeenIsOfLatest(rs: seq<Report>, k: int, a: int)
    requires InOrderOfReception(rs) && IsLastNews(rs, k) && LastSeenIs(rs, a)
    ensures a == rs[k].receivedAt
  {
    var n :| IsNews(rs, n) && rs[n].receivedAt == a;
    assert n <= k;
  }

  lemma SeenOfEachDay(rs: seq<Report>, sorted: seq<Report>, h: int, b: int)
    requires ByDay(rs, sorted) && IsFirstOfItsDay(rs, h) && LastSeenIs(sorted, b)
    ensures 0 <= h < |rs| && rs[h].receivedAt <= b
  {
    var i := FirstInBoth(rs, sorted, h);
    NewsIsFirst(sorted, i);
    hide IsNews, IsFirstOfItsDay, InOrderOfDays, InOrderOfReception;
    FirstIsThere(rs, h);
  }

  lemma SeenOnADay(rs: seq<Report>, sorted: seq<Report>, b: int) returns (j: int)
    requires ByDay(rs, sorted) && LastSeenIs(sorted, b)
    ensures IsFirstOfItsDay(rs, j) && 0 <= j < |rs| && rs[j].receivedAt == b
  {
    var n :| IsNews(sorted, n) && sorted[n].receivedAt == b;
    NewsIsFirst(sorted, n);
    j := FirstInBothBack(rs, sorted, n);
    hide IsNews, IsFirstOfItsDay, InOrderOfDays, InOrderOfReception;
    FirstIsThere(rs, j);
  }

  lemma SameLastSeen(rs: seq<Report>, sorted: seq<Report>, k: int, a: int, b: int)
    requires ByDay(rs, sorted) && IsLastNews(rs, k) && LastSeenIs(rs, a) && LastSeenIs(sorted, b)
    ensures a == b <==> GreatestDayCameLast(rs)
  {
    hide IsFirstOfItsDay, IsNews;
    LastSeenIsOfLatest(rs, k, a);
    NewsIsFirst(rs, k);
    var j := SeenOnADay(rs, sorted, b);
    SeenOfEachDay(rs, sorted, k, b);
    if GreatestDayCameLast(rs) {
      assert j <= k;
    }
    if a == b {
      forall g, h | IsLastNews(rs, g) && IsFirstOfItsDay(rs, h) ensures h <= g {
        LastSeenIsOfLatest(rs, g, a);
        NewsIsFirst(rs, g);
        FirstIsThere(rs, g);
        SeenOfEachDay(rs, sorted, h, b);
      }
    }
  }

  lemma OneKind(rs: seq<Report>, x: Option<string>, y: Option<string>)
    requires KindIs(rs, x) && KindIs(rs, y)
    ensures x == y
  {
  }

  lemma KindInBoth(rs: seq<Report>, sorted: seq<Report>, m: int) returns (k: int)
    requires ByDay(rs, sorted) && IsLastKind(sorted, m)
    ensures IsKindOfTheDays(rs, k) && rs[k] == sorted[m]
  {
    NewsIsFirst(sorted, m);
    k := FirstInBothBack(rs, sorted, m);
    forall n | IsFirstOfItsDay(rs, n) && rs[k].day < rs[n].day ensures rs[n].installKind.None? {
      var j := FirstInBoth(rs, sorted, n);
      NewsIsFirst(sorted, j);
      assert m < j;
    }
  }

  lemma OneKindOfTheDays(rs: seq<Report>, k: int, m: int)
    requires IsKindOfTheDays(rs, k) && IsKindOfTheDays(rs, m)
    ensures k == m
  {
  }

  lemma NoKindAtAll(rs: seq<Report>, x: Option<string>)
    requires KindIs(rs, x) && forall n :: IsFirstOfItsDay(rs, n) ==> rs[n].installKind.None?
    ensures x == None
  {
    hide IsFirstOfItsDay;
    forall k ensures IsNews(rs, k) ==> IsFirstOfItsDay(rs, k) {
      NewsIsFirst(rs, k);
    }
  }

  lemma SameKind(rs: seq<Report>, sorted: seq<Report>, x: Option<string>, y: Option<string>)
    requires ByDay(rs, sorted) && KindIs(rs, x) && KindIs(sorted, y)
    ensures x == y <==> KindIsNews(rs)
  {
    if y.Some? {
      var m :| IsLastKind(sorted, m) && sorted[m].installKind == y;
      var k := KindInBoth(rs, sorted, m);
      if KindIsNews(rs) {
        OneKind(rs, x, y);
      }
      if x == y {
        forall n | IsKindOfTheDays(rs, n) ensures KindIs(rs, rs[n].installKind) {
          OneKindOfTheDays(rs, k, n);
        }
      }
    } else {
      forall n | IsFirstOfItsDay(rs, n) ensures rs[n].installKind.None? {
        var j := FirstInBoth(rs, sorted, n);
        NewsIsFirst(sorted, j);
      }
      NoKindAtAll(rs, x);
    }
  }

  // The row of the instance is the same exactly when the greatest day came last and the kind of
  // installation is that of the news.
  lemma SameInstance(rs: seq<Report>, sorted: seq<Report>)
    requires ByDay(rs, sorted)
    ensures InstanceAfter(sorted) == InstanceAfter(rs) <==> GreatestDayCameLast(rs) && KindIsNews(rs)
  {
    if rs == [] {
      SomeMemberIfAny(sorted);
    } else {
      var m := FirstInBoth(rs, sorted, 0);
      InstanceTellsItsNews(rs);
      InstanceTellsItsNews(sorted);
      var a, b := InstanceAfter(rs).value, InstanceAfter(sorted).value;
      hide ByDay, FirstSeenIs, LastSeenIs, KindIs, IsLastNews, GreatestDayCameLast, KindIsNews, InstanceAfter;
      var k :| IsLastNews(rs, k) && rs[k].day == a.lastReportDay && rs[k].version == a.version;
      var n :| IsLastNews(sorted, n) && sorted[n].day == b.lastReportDay && sorted[n].version == b.version;
      SameFirstSeen(rs, sorted, a.firstSeenAt, b.firstSeenAt);
      SameLatest(rs, sorted, k, n);
      SameLastSeen(rs, sorted, k, a.lastSeenAt, b.lastSeenAt);
      SameKind(rs, sorted, a.installKind, b.installKind);
    }
  }

  // ---- The reports of one day ----

  // Some of the reports of a day, the first among them, as they were received.
  ghost predicate SomeOfTheDay(rs: seq<Report>, some: seq<Report>) {
    && InOrderOfReception(rs) && InOrderOfReception(some)
    && (forall r :: r in some ==> r in rs)
    && (rs != [] ==> rs[0] in some)
  }

  // Those left out are of the document of the first.
  ghost predicate NoConflictLeftOut(rs: seq<Report>, some: seq<Report>) {
    forall r :: r in rs && r.document != rs[0].document ==> r in some
  }

  lemma {:induction false} DifferingAre(rs: seq<Report>, document: string)
    ensures forall r :: r in Differing(rs, document) <==> r in rs && r.document != document
  {
    if rs != [] {
      DifferingAre(rs[..|rs| - 1], document);
      assert rs == rs[..|rs| - 1] + [rs[|rs| - 1]];
    }
  }

  lemma OneMoreReception(rs: seq<Report>, r: Report)
    requires InOrderOfReception(rs) && forall k :: 0 <= k < |rs| ==> rs[k].receivedAt < r.receivedAt
    ensures InOrderOfReception(rs + [r])
  {
  }

  lemma LastIsLatest(rs: seq<Report>, some: seq<Report>)
    requires InOrderOfReception(rs) && rs != []
    requires forall r :: r in some ==> r in rs[..|rs| - 1]
    ensures forall k :: 0 <= k < |some| ==> some[k].receivedAt < rs[|rs| - 1].receivedAt
    ensures InOrderOfReception(rs[..|rs| - 1])
  {
    forall k | 0 <= k < |some| ensures some[k].receivedAt < rs[|rs| - 1].receivedAt {
      assert some[k] in some && some[k] in rs[..|rs| - 1];
      var j :| 0 <= j < |rs| - 1 && rs[j] == some[k];
    }
  }

  lemma {:induction false} DifferingInOrder(rs: seq<Report>, document: string)
    requires InOrderOfReception(rs)
    ensures InOrderOfReception(Differing(rs, document))
  {
    if rs != [] {
      hide InOrderOfReception;
      var before := Differing(rs[..|rs| - 1], document);
      DifferingAre(rs[..|rs| - 1], document);
      LastIsLatest(rs, before);
      DifferingInOrder(rs[..|rs| - 1], document);
      OneMoreReception(before, rs[|rs| - 1]);
    } else {
      assert Differing(rs, document) == [];
    }
  }

  ghost function Members(rs: seq<Report>): set<Report> {
    set r | r in rs
  }

  lemma NotAmongBefore(rs: seq<Report>)
    requires InOrderOfReception(rs) && rs != []
    ensures rs[|rs| - 1] !in rs[..|rs| - 1]
  {
  }

  lemma {:induction false} AsManyMembers(rs: seq<Report>)
    requires InOrderOfReception(rs)
    ensures |Members(rs)| == |rs|
  {
    if rs == [] {
      assert Members(rs) == {};
    } else {
      var before, last := rs[..|rs| - 1], rs[|rs| - 1];
      AsManyMembers(before);
      NotAmongBefore(rs);
      hide InOrderOfReception;
      assert rs == before + [last];
      assert Members(rs) == Members(before) + {last};
    }
  }

  lemma AsManyWhenAll(rs: seq<Report>, some: seq<Report>)
    requires InOrderOfReception(rs) && InOrderOfReception(some)
    requires forall r :: r in some ==> r in rs
    ensures |some| == |rs| <==> forall r :: r in rs ==> r in some
  {
    AsManyMembers(rs);
    AsManyMembers(some);
    assert Members(some) <= Members(rs);
    if r :| r in rs && r !in some {
      assert r in Members(rs) && r !in Members(some);
      StrictlySmaller(Members(some), Members(rs));
    } else {
      assert Members(some) == Members(rs);
    }
  }

  lemma SameLatestOf(a: Option<int>, b: Option<int>, rs: seq<Report>, some: seq<Report>)
    requires IsLatestOf(a, rs) && IsLatestOf(b, some)
    requires forall r :: r in some <==> r in rs
    ensures a == b
  {
    if rs == [] {
      SomeMemberIfAny(some);
    } else {
      assert rs[0] in some;
      var k :| 0 <= k < |rs| && rs[k].receivedAt == a.value;
      var m :| 0 <= m < |some| && some[m].receivedAt == b.value;
      assert rs[k] in some && some[m] in rs;
    }
  }

  lemma SameFirst(rs: seq<Report>, some: seq<Report>)
    requires SomeOfTheDay(rs, some) && rs != []
    ensures some != [] && some[0] == rs[0]
  {
    var n :| 0 <= n < |some| && some[n] == rs[0];
    assert some[0] in rs;
  }

  // The row of the day is the same, its conflicts and the last of them included, exactly when no
  // report of another document than the first is left out.
  lemma SameDay(rs: seq<Report>, some: seq<Report>)
    requires SomeOfTheDay(rs, some)
    ensures DayAfter(some) == DayAfter(rs) <==> NoConflictLeftOut(rs, some)
  {
    if rs == [] {
      SomeMemberIfAny(some);
    } else {
      SameFirst(rs, some);
      FirstStaysAndConflictsCount(rs);
      FirstStaysAndConflictsCount(some);
      var document := rs[0].document;
      DifferingAre(rs, document);
      DifferingAre(some, document);
      DifferingInOrder(rs, document);
      DifferingInOrder(some, document);
      hide InOrderOfReception, IsLatestOf, DayAfter;
      AsManyWhenAll(Differing(rs, document), Differing(some, document));
      if NoConflictLeftOut(rs, some) {
        SameLatestOf(DayAfter(rs).value.lastConflictAt, DayAfter(some).value.lastConflictAt,
                     Differing(rs, document), Differing(some, document));
      }
    }
  }
}
