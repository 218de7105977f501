// The rule of the merge, stated of a list of findings and of what it becomes, without a way to
// compute it.
module MergeRule {
  import opened Sets
  import opened Merging

  // The findings a finding is joined to, itself included.
  ghost function Component(found: seq<Found>, i: int): set<int>
    requires In(found, i)
  {
    set j | 0 <= j < |found| && Joined(found, i, j)
  }

  ghost predicate OneChunk(found: seq<Found>, s: set<int>) {
    forall x, y :: x in s && y in s && In(found, x) && In(found, y) ==> found[x].chunk == found[y].chunk
  }

  // The findings that become one with finding i: those it is joined to, unless one chunk returned
  // them all; itself alone then.
  ghost function Unit(found: seq<Found>, i: int): set<int>
    requires In(found, i)
  {
    if OneChunk(found, Component(found, i)) then {i} else Component(found, i)
  }

  // The first given of those it becomes one with.
  ghost predicate Leads(found: seq<Found>, i: int) {
    In(found, i) && forall j :: j in Unit(found, i) ==> i <= j
  }

  // f goes from the smallest start of the findings of s to their largest end.
  ghost predicate Spans(found: seq<Found>, s: set<int>, f: Finding) {
    && (forall x :: x in s ==>
          && In(found, x)
          && found[x].result.entityType == f.entityType
          && f.start <= found[x].result.start && found[x].result.end <= f.end)
    && (exists x :: x in s && In(found, x) && found[x].result.start == f.start)
    && (exists x :: x in s && In(found, x) && found[x].result.end == f.end)
  }

  // Finding b has the highest score of s.
  ghost predicate Best(found: seq<Found>, s: set<int>, b: int) {
    && b in s && In(found, b)
    && (forall x :: x in s && In(found, x) ==> found[x].result.score <= found[b].result.score)
  }

  // Finding b is the first given of those that have the highest score of s.
  ghost predicate FirstBest(found: seq<Found>, s: set<int>, b: int) {
    && Best(found, s, b)
    && (forall x :: x in s && In(found, x) && found[x].result.score == found[b].result.score ==> b <= x)
  }

  // f has the score and the explanation of finding b.
  ghost predicate TakesAfter(found: seq<Found>, b: int, f: Finding) {
    In(found, b) && f.score == found[b].result.score && f.explanation == found[b].result.explanation
  }

  // f is the union of the findings of s, with what one of the highest score says.
  ghost predicate Unites(found: seq<Found>, s: set<int>, f: Finding) {
    Spans(found, s, f) && exists b :: Best(found, s, b) && TakesAfter(found, b, f)
  }

  // And with what the first given of them says.
  ghost predicate UnitesAsFirst(found: seq<Found>, s: set<int>, f: Finding) {
    Spans(found, s, f) && exists b :: FirstBest(found, s, b) && TakesAfter(found, b, f)
  }

  predicate Precedes(a: (int, int), b: (int, int)) {
    a.0 < b.0 || (a.0 == b.0 && a.1 < b.1)
  }

  ghost predicate StrictlySorted(keys: seq<(int, int)>) {
    forall k, l :: 0 <= k < l < |keys| ==> Precedes(keys[k], keys[l])
  }

  ghost function Keys(merged: seq<Finding>, leaders: seq<int>): seq<(int, int)>
    requires |merged| == |leaders|
  {
    seq(|merged|, k requires 0 <= k < |merged| => (merged[k].start, leaders[k]))
  }

  // merged holds one finding per unit, named by the position of its first member, sorted by start and
  // then by that position. Its explanation is that of any member with the score kept.
  ghost predicate IsLooseMerge(found: seq<Found>, merged: seq<Finding>, leaders: seq<int>) {
    && |merged| == |leaders|
    && (forall k :: 0 <= k < |leaders| ==> Leads(found, leaders[k]))
    && (forall i :: Leads(found, i) ==> i in leaders)
    && StrictlySorted(Keys(merged, leaders))
    && (forall k :: 0 <= k < |leaders| ==> Unites(found, Unit(found, leaders[k]), merged[k]))
  }

  // The same, but the member whose explanation is kept is the one of least position among the best.
  ghost predicate IsMerge(found: seq<Found>, merged: seq<Finding>, leaders: seq<int>) {
    && IsLooseMerge(found, merged, leaders)
    && (forall k :: 0 <= k < |leaders| ==> UnitesAsFirst(found, Unit(found, leaders[k]), merged[k]))
  }

  // What a list of findings says, but for the explanations.
  ghost predicate SameButExplanations(a: seq<Finding>, b: seq<Finding>) {
    && |a| == |b|
    && (forall k :: 0 <= k < |a| ==> a[k].(explanation := 0) == b[k].(explanation := 0))
  }

  lemma SpansIsUnique(found: seq<Found>, s: set<int>, a: Finding, b: Finding)
    requires Spans(found, s, a) && Spans(found, s, b)
    ensures a.start == b.start && a.end == b.end && a.entityType == b.entityType
  {
  }

  lemma UnitesIsUnique(found: seq<Found>, s: set<int>, a: Finding, b: Finding)
    requires Unites(found, s, a) && Unites(found, s, b)
    ensures a.(explanation := 0) == b.(explanation := 0)
  {
    SpansIsUnique(found, s, a, b);
    var x :| Best(found, s, x) && TakesAfter(found, x, a);
    var y :| Best(found, s, y) && TakesAfter(found, y, b);
  }

  // No two findings that become one share the highest score of them and differ by what they explain.
  ghost predicate OneExplanation(found: seq<Found>, s: set<int>) {
    forall x, y :: Best(found, s, x) && Best(found, s, y) ==>
      found[x].result.explanation == found[y].result.explanation
  }

  lemma UnitesIsUniqueWithOneExplanation(found: seq<Found>, s: set<int>, a: Finding, b: Finding)
    requires Unites(found, s, a) && Unites(found, s, b) && OneExplanation(found, s)
    ensures a == b
  {
    SpansIsUnique(found, s, a, b);
    var x :| Best(found, s, x) && TakesAfter(found, x, a);
    var y :| Best(found, s, y) && TakesAfter(found, y, b);
  }

  lemma UnitesAsFirstIsUnique(found: seq<Found>, s: set<int>, a: Finding, b: Finding)
    requires UnitesAsFirst(found, s, a) && UnitesAsFirst(found, s, b)
    ensures a == b
  {
    SpansIsUnique(found, s, a, b);
    var x :| FirstBest(found, s, x) && TakesAfter(found, x, a);
    var y :| FirstBest(found, s, y) && TakesAfter(found, y, b);
  }

  lemma HasAMember(a: seq<(int, int)>)
    ensures a == [] || exists x :: x in a
  {
    if a != [] {
      assert a[0] in a;
    }
  }

  lemma {:induction false} StrictlySortedAreEqual(a: seq<(int, int)>, b: seq<(int, int)>)
    requires StrictlySorted(a) && StrictlySorted(b)
    requires (forall x :: x in a ==> x in b) && (forall x :: x in b ==> x in a)
    ensures a == b
  {
    if a == [] {
      HasAMember(b);
    } else {
      assert a[0] in b && (b == [] || b[0] in a);
      HeadsAreEqual(a, b);
      TailsHaveTheSame(a, b);
      TailsHaveTheSame(b, a);
      StrictlySortedAreEqual(a[1..], b[1..]);
    }
  }

  lemma HeadsAreEqual(a: seq<(int, int)>, b: seq<(int, int)>)
    requires StrictlySorted(a) && StrictlySorted(b) && a != [] && b != []
    requires a[0] in b && b[0] in a
    ensures a[0] == b[0]
  {
  }

  lemma TailsHaveTheSame(a: seq<(int, int)>, b: seq<(int, int)>)
    requires StrictlySorted(a) && a != [] && b != [] && a[0] == b[0]
    requires forall x :: x in a ==> x in b
    ensures StrictlySorted(a[1..])
    ensures forall x :: x in a[1..] ==> x in b[1..]
  {
    forall x | x in a[1..] ensures x in b[1..] {
      assert x in a && Precedes(a[0], x);
    }
  }

  // What a merge holds of the k-th finding.
  lemma MergedAt(found: seq<Found>, merged: seq<Finding>, leaders: seq<int>, k: nat)
    requires IsLooseMerge(found, merged, leaders) && k < |leaders|
    ensures |merged| == |leaders| && Leads(found, leaders[k]) && In(found, leaders[k])
    ensures Unites(found, Unit(found, leaders[k]), merged[k])
    ensures Spans(found, Unit(found, leaders[k]), merged[k])
  {
    hide StrictlySorted, Unit, Spans;
  }

  lemma PlaceOfALeader(found: seq<Found>, merged: seq<Finding>, leaders: seq<int>, leader: int) returns (k: nat)
    requires IsLooseMerge(found, merged, leaders) && Leads(found, leader)
    ensures k < |leaders| && |merged| == |leaders| && leaders[k] == leader
  {
    hide StrictlySorted, Leads, Unites, Unit;
    k :| 0 <= k < |leaders| && leaders[k] == leader;
  }

  lemma MergedIsSorted(found: seq<Found>, merged: seq<Finding>, leaders: seq<int>)
    requires IsLooseMerge(found, merged, leaders)
    ensures |merged| == |leaders| && StrictlySorted(Keys(merged, leaders))
  {
    hide StrictlySorted, Leads, Unites;
  }

  lemma KeyIsShared(found: seq<Found>, a: seq<Finding>, la: seq<int>, b: seq<Finding>, lb: seq<int>, k: nat)
    requires IsLooseMerge(found, a, la) && IsLooseMerge(found, b, lb)
    requires |a| == |la| && |b| == |lb| && k < |a|
    ensures Keys(a, la)[k] in Keys(b, lb)
  {
    hide IsLooseMerge, Leads, Unites, Spans, Unit;
    MergedAt(found, a, la, k);
    var l := PlaceOfALeader(found, b, lb, la[k]);
    MergedAt(found, b, lb, l);
    UnitesIsUnique(found, Unit(found, la[k]), a[k], b[l]);
    assert Keys(b, lb)[l] == Keys(a, la)[k];
  }

  lemma KeysAreShared(found: seq<Found>, a: seq<Finding>, la: seq<int>, b: seq<Finding>, lb: seq<int>)
    requires IsLooseMerge(found, a, la) && IsLooseMerge(found, b, lb)
    requires |a| == |la| && |b| == |lb|
    ensures forall x :: x in Keys(a, la) ==> x in Keys(b, lb)
  {
    hide IsLooseMerge;
    forall x | x in Keys(a, la) ensures x in Keys(b, lb) {
      var k :| 0 <= k < |Keys(a, la)| && Keys(a, la)[k] == x;
      KeyIsShared(found, a, la, b, lb, k);
    }
  }

  lemma LeadersAreUnique(found: seq<Found>, a: seq<Finding>, la: seq<int>, b: seq<Finding>, lb: seq<int>)
    requires IsLooseMerge(found, a, la) && IsLooseMerge(found, b, lb)
    ensures |a| == |b| && la == lb
  {
    hide IsLooseMerge, StrictlySorted;
    MergedIsSorted(found, a, la);
    MergedIsSorted(found, b, lb);
    KeysAreShared(found, a, la, b, lb);
    KeysAreShared(found, b, lb, a, la);
    StrictlySortedAreEqual(Keys(a, la), Keys(b, lb));
    SameKeys(a, la, b, lb);
  }

  lemma SameKeys(a: seq<Finding>, la: seq<int>, b: seq<Finding>, lb: seq<int>)
    requires |a| == |la| && |b| == |lb| && Keys(a, la) == Keys(b, lb)
    ensures |a| == |b| && la == lb
  {
    assert |Keys(a, la)| == |Keys(b, lb)|;
    forall k | 0 <= k < |la| ensures la[k] == lb[k] {
      assert Keys(a, la)[k] == Keys(b, lb)[k];
    }
  }

  // Whatever is a merge of a list of findings says the same, but for the explanation kept of
  // equal scores.
  lemma LooseMergesAgree(found: seq<Found>, a: seq<Finding>, la: seq<int>, b: seq<Finding>, lb: seq<int>)
    requires IsLooseMerge(found, a, la) && IsLooseMerge(found, b, lb)
    ensures SameButExplanations(a, b)
  {
    hide IsLooseMerge, Leads, Unites, Spans, Unit;
    LeadersAreUnique(found, a, la, b, lb);
    MergedIsSorted(found, a, la);
    forall k | 0 <= k < |a| ensures a[k].(explanation := 0) == b[k].(explanation := 0) {
      MergedAt(found, a, la, k);
      MergedAt(found, b, lb, k);
      UnitesIsUnique(found, Unit(found, la[k]), a[k], b[k]);
    }
  }

  // And the same explanations too when no two of the best of a unit differ by theirs, so when the
  // scores are distinct.
  lemma LooseMergesAgreeOnExplanations(
    found: seq<Found>, a: seq<Finding>, la: seq<int>, b: seq<Finding>, lb: seq<int>)
    requires IsLooseMerge(found, a, la) && IsLooseMerge(found, b, lb)
    requires forall i :: In(found, i) ==> OneExplanation(found, Unit(found, i))
    ensures a == b
  {
    hide IsLooseMerge, Leads, Unites, Spans, Unit, OneExplanation;
    LeadersAreUnique(found, a, la, b, lb);
    MergedIsSorted(found, a, la);
    forall k | 0 <= k < |a| ensures a[k] == b[k] {
      MergedAt(found, a, la, k);
      MergedAt(found, b, lb, k);
      UnitesIsUniqueWithOneExplanation(found, Unit(found, la[k]), a[k], b[k]);
    }
  }

  // There is one merge of a list of findings.
  lemma MergeIsUnique(found: seq<Found>, a: seq<Finding>, la: seq<int>, b: seq<Finding>, lb: seq<int>)
    requires IsMerge(found, a, la) && IsMerge(found, b, lb)
    ensures a == b
  {
    LeadersAreUnique(found, a, la, b, lb);
    forall k | 0 <= k < |a| ensures a[k] == b[k] {
      UnitesAsFirstIsUnique(found, Unit(found, la[k]), a[k], b[k]);
    }
  }

  // ---- Units ----

  ghost predicate AllJoined(found: seq<Found>, s: set<int>) {
    forall x, y :: x in s && y in s ==> Joined(found, x, y)
  }

  lemma ComponentIsAClass(found: seq<Found>, i: int, j: int)
    requires Joined(found, i, j)
    ensures Component(found, i) == Component(found, j)
  {
    JoinedIsSymmetric(found, i, j);
    forall k | In(found, k) ensures Joined(found, i, k) <==> Joined(found, j, k) {
      if Joined(found, i, k) {
        JoinedIsTransitive(found, j, i, k);
      }
      if Joined(found, j, k) {
        JoinedIsTransitive(found, i, j, k);
      }
    }
  }

  lemma UnitIsAClass(found: seq<Found>, i: int, j: int)
    requires In(found, i) && j in Unit(found, i)
    ensures In(found, j) && Unit(found, j) == Unit(found, i)
  {
    ComponentIsAClass(found, i, j);
  }

  lemma ComponentIsJoined(found: seq<Found>, i: int)
    requires In(found, i)
    ensures AllJoined(found, Component(found, i)) && i in Component(found, i)
  {
    var s := Component(found, i);
    forall x, y | x in s && y in s ensures Joined(found, x, y) {
      JoinedIsSymmetric(found, i, x);
      JoinedIsTransitive(found, x, i, y);
    }
  }

  lemma UnitIsJoined(found: seq<Found>, i: int)
    requires In(found, i)
    ensures AllJoined(found, Unit(found, i)) && i in Unit(found, i)
  {
    ComponentIsJoined(found, i);
  }

  // Every finding has one that leads it.
  lemma LeaderOf(found: seq<Found>, i: int) returns (leader: int)
    requires In(found, i)
    ensures Leads(found, leader) && leader in Unit(found, i) && Unit(found, leader) == Unit(found, i)
  {
    UnitIsJoined(found, i);
    leader := Least(Unit(found, i), i);
    UnitIsAClass(found, i, leader);
  }

  // ---- What a union designates ----

  // What is on one side of a cut goes there whole with what it is joined to.
  lemma UnionStaysLeft(found: seq<Found>, s: set<int>, f: Finding, x: int, p: int)
    requires Spans(found, s, f) && AllJoined(found, s) && x in s
    requires Cut(found, f.entityType, p) && found[x].result.end <= p
    ensures f.end <= p
  {
    var z :| z in s && In(found, z) && found[z].result.end == f.end;
    assert Joined(found, x, z) && !(x != z && Separates(found, p, x, z));
  }

  lemma UnionStaysRight(found: seq<Found>, s: set<int>, f: Finding, x: int, p: int)
    requires Spans(found, s, f) && AllJoined(found, s) && x in s
    requires Cut(found, f.entityType, p) && p <= found[x].result.start
    ensures p <= f.start
  {
    var z :| z in s && In(found, z) && found[z].result.start == f.start;
    assert Joined(found, x, z) && !(x != z && Separates(found, p, x, z));
  }

  // Unions that overlap are of findings that are joined.
  lemma OverlappingUnionsAreJoined(found: seq<Found>, s: set<int>, f: Finding, t: set<int>, g: Finding, x: int, y: int)
    requires Spans(found, s, f) && AllJoined(found, s) && x in s
    requires Spans(found, t, g) && AllJoined(found, t) && y in t
    requires Overlap(f, g)
    ensures Joined(found, x, y)
  {
    forall p ensures !Separates(found, p, x, y) {
      if Separates(found, p, x, y) {
        if Between(found[x].result, p, found[y].result) {
          UnionStaysLeft(found, s, f, x, p);
          UnionStaysRight(found, t, g, y, p);
        } else {
          UnionStaysLeft(found, t, g, y, p);
          UnionStaysRight(found, s, f, x, p);
        }
      }
    }
  }

  predicate Designates(f: Finding, entityType: string, character: int) {
    f.entityType == entityType && f.start <= character < f.end
  }

  ghost predicate Covered(findings: seq<Finding>, entityType: string, character: int) {
    exists k :: 0 <= k < |findings| && Designates(findings[k], entityType, character)
  }

  ghost predicate Given(found: seq<Found>, entityType: string, character: int) {
    exists k :: In(found, k) && Designates(found[k].result, entityType, character)
  }

  // A union adds no character: without a finding that designates it, it would be a cut.
  lemma UnionAddsNothing(found: seq<Found>, s: set<int>, f: Finding, c: int)
    requires Spans(found, s, f) && AllJoined(found, s) && f.start <= c < f.end
    ensures Given(found, f.entityType, c)
  {
    if !Given(found, f.entityType, c) {
      assert Cut(found, f.entityType, c) by {
        forall k | In(found, k) && found[k].result.entityType == f.entityType
          ensures found[k].result.end <= c || c <= found[k].result.start
        {
          assert !Designates(found[k].result, f.entityType, c);
        }
      }
      var z :| z in s && In(found, z) && found[z].result.start == f.start;
      assert !Designates(found[z].result, f.entityType, c);
      UnionStaysLeft(found, s, f, z, c);
    }
  }

  lemma NoneIsAdded(found: seq<Found>, merged: seq<Finding>, leaders: seq<int>, k: nat, c: int)
    requires IsLooseMerge(found, merged, leaders) && |merged| == |leaders| && k < |merged|
    requires merged[k].start <= c < merged[k].end
    ensures Given(found, merged[k].entityType, c)
  {
    hide IsLooseMerge, Leads, Unites, Spans, Unit, AllJoined, Given;
    MergedAt(found, merged, leaders, k);
    UnitIsJoined(found, leaders[k]);
    UnionAddsNothing(found, Unit(found, leaders[k]), merged[k], c);
  }

  lemma NoneIsDropped(found: seq<Found>, merged: seq<Finding>, leaders: seq<int>, i: int, entityType: string, c: int)
    requires IsLooseMerge(found, merged, leaders) && In(found, i) && Designates(found[i].result, entityType, c)
    ensures Covered(merged, entityType, c)
  {
    hide IsLooseMerge, Leads, Unites, Unit, AllJoined, Given;
    var leader := LeaderOf(found, i);
    UnitIsJoined(found, i);
    var k := PlaceOfALeader(found, merged, leaders, leader);
    MergedAt(found, merged, leaders, k);
    assert Designates(merged[k], entityType, c);
  }

  // No character a finding designates is dropped by the merge, and none is added.
  lemma MergeKeepsCharacters(found: seq<Found>, merged: seq<Finding>, leaders: seq<int>, entityType: string, c: int)
    requires IsLooseMerge(found, merged, leaders)
    ensures Covered(merged, entityType, c) <==> Given(found, entityType, c)
  {
    hide IsLooseMerge;
    MergedIsSorted(found, merged, leaders);
    if k :| 0 <= k < |merged| && Designates(merged[k], entityType, c) {
      NoneIsAdded(found, merged, leaders, k, c);
    }
    if i :| In(found, i) && Designates(found[i].result, entityType, c) {
      NoneIsDropped(found, merged, leaders, i, entityType, c);
    }
  }

  // What still overlaps after the merge is two findings of one chunk, as that chunk gave them.
  lemma WhatStillOverlaps(found: seq<Found>, merged: seq<Finding>, leaders: seq<int>, k: int, l: int)
    requires IsMerge(found, merged, leaders)
    requires 0 <= k < l < |merged| && Overlap(merged[k], merged[l])
    ensures exists x, y :: In(found, x) && In(found, y)
                           && found[x].result == merged[k] && found[y].result == merged[l]
                           && found[x].chunk == found[y].chunk
  {
    hide IsLooseMerge, Unites, Spans, Unit, AllJoined, Component, Joined, OneChunk, UnitesAsFirst;
    MergedIsSorted(found, merged, leaders);
    MergedAt(found, merged, leaders, k);
    MergedAt(found, merged, leaders, l);
    var x, y := leaders[k], leaders[l];
    UnitIsJoined(found, x);
    UnitIsJoined(found, y);
    OverlappingUnionsAreJoined(found, Unit(found, x), merged[k], Unit(found, y), merged[l], x, y);
    LeadersDiffer(found, merged, leaders, k, l);
    LeadersOfOneChunk(found, x, y);
    AloneAsItIs(found, x, merged[k]);
    AloneAsItIs(found, y, merged[l]);
  }

  lemma OneLeads(found: seq<Found>, x: int, y: int)
    requires Leads(found, x) && Leads(found, y) && Joined(found, x, y) && !OneChunk(found, Component(found, x))
    ensures x == y
  {
    hide Joined;
    ComponentIsAClass(found, x, y);
    ComponentIsJoined(found, x);
    ComponentIsJoined(found, y);
    assert y in Unit(found, x) && x in Unit(found, y);
  }

  // Two findings that are joined and each lead are of one chunk, and each stays alone.
  lemma LeadersOfOneChunk(found: seq<Found>, x: int, y: int)
    requires Leads(found, x) && Leads(found, y) && Joined(found, x, y) && x != y
    ensures Unit(found, x) == {x} && Unit(found, y) == {y}
    ensures found[x].chunk == found[y].chunk
  {
    hide Joined;
    ComponentIsAClass(found, x, y);
    ComponentIsJoined(found, x);
    ComponentIsJoined(found, y);
    if !OneChunk(found, Component(found, x)) {
      OneLeads(found, x, y);
    }
  }

  lemma AloneAsItIs(found: seq<Found>, x: int, f: Finding)
    requires In(found, x) && Unites(found, {x}, f)
    ensures found[x].result == f
  {
  }

  lemma LeadersDiffer(found: seq<Found>, merged: seq<Finding>, leaders: seq<int>, k: int, l: int)
    requires IsLooseMerge(found, merged, leaders) && 0 <= k < l < |merged|
    ensures leaders[k] != leaders[l]
  {
    assert Precedes(Keys(merged, leaders)[k], Keys(merged, leaders)[l]);
  }
}
