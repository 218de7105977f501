// What becomes of the explanations when the highest scores of a unit are equal.
module TiedScores {
  import opened Merging
  import opened MergeRule
  import opened Pairwise
  import opened PairwiseMerge
  import opened Sorting

  // ---- When every merge keeps the same explanations ----

  lemma BestsAreEqual(found: seq<Found>, s: set<int>, x: int, y: int)
    requires Best(found, s, x) && Best(found, s, y)
    ensures found[x].result.score == found[y].result.score
  {
  }

  // A union may as well take after any other of the best.
  lemma MayTakeAfter(found: seq<Found>, s: set<int>, f: Finding, w: int)
    requires Unites(found, s, f) && Best(found, s, w)
    ensures Unites(found, s, f.(explanation := found[w].result.explanation))
  {
    var b :| Best(found, s, b) && TakesAfter(found, b, f);
    BestsAreEqual(found, s, b, w);
    assert TakesAfter(found, w, f.(explanation := found[w].result.explanation));
  }

  lemma AnotherBest(found: seq<Found>, s: set<int>, explanation: int) returns (w: int)
    requires !OneExplanation(found, s)
    ensures Best(found, s, w) && found[w].result.explanation != explanation
  {
    var x, y :| Best(found, s, x) && Best(found, s, y) && found[x].result.explanation != found[y].result.explanation;
    w := if found[x].result.explanation != explanation then x else y;
  }

  lemma MergedOtherwise(found: seq<Found>, a: seq<Finding>, la: seq<int>, k: nat, f: Finding)
    requires IsLooseMerge(found, a, la) && k < |a| && k < |la|
    requires Unites(found, Unit(found, la[k]), f) && f.start == a[k].start
    ensures IsLooseMerge(found, a[k := f], la)
  {
    hide Leads, Unites, Unit, StrictlySorted;
    assert Keys(a[k := f], la) == Keys(a, la);
  }

  lemma AnotherMerge(found: seq<Found>, a: seq<Finding>, la: seq<int>, i: int) returns (b: seq<Finding>)
    requires IsLooseMerge(found, a, la) && In(found, i) && !OneExplanation(found, Unit(found, i))
    ensures IsLooseMerge(found, b, la) && b != a
  {
    hide IsLooseMerge, Leads, Unites, Unit, OneExplanation, Spans, Best;
    var leader := LeaderOf(found, i);
    var k := PlaceOfALeader(found, a, la, leader);
    MergedAt(found, a, la, k);
    var w := AnotherBest(found, Unit(found, i), a[k].explanation);
    BestIsIn(found, Unit(found, i), w);
    MayTakeAfter(found, Unit(found, i), a[k], w);
    b := a[k := a[k].(explanation := found[w].result.explanation)];
    MergedOtherwise(found, a, la, k, b[k]);
    assert b[k] != a[k];
  }

  lemma BestIsIn(found: seq<Found>, s: set<int>, w: int)
    requires Best(found, s, w)
    ensures In(found, w)
  {
  }

  // Everything that merges a list of findings keeps the same explanations exactly when no unit has two
  // of the highest score that differ by theirs.
  lemma OneMergeExactlyWhen(found: seq<Found>, a: seq<Finding>, la: seq<int>)
    requires IsLooseMerge(found, a, la)
    ensures (forall b, lb :: IsLooseMerge(found, b, lb) ==> b == a) <==>
            (forall i :: In(found, i) ==> OneExplanation(found, Unit(found, i)))
  {
    hide IsLooseMerge, OneExplanation, Unit;
    if forall i :: In(found, i) ==> OneExplanation(found, Unit(found, i)) {
      forall b, lb | IsLooseMerge(found, b, lb)
        ensures b == a
      {
        LooseMergesAgreeOnExplanations(found, b, lb, a, la);
      }
    } else {
      var i :| In(found, i) && !OneExplanation(found, Unit(found, i));
      var b := AnotherMerge(found, a, la, i);
    }
  }

  // ---- A run that keeps another explanation than the sweep ----

  const FIRST := Finding("PERSON", 0, 6, 0.5, 0)
  const SECOND := Finding("PERSON", 8, 12, 0.9, 1)
  const THIRD := Finding("PERSON", 4, 10, 0.9, 2)

  // The second given and the third have the highest score; the first overlaps the third only.
  const TIED := [Found(0, FIRST), Found(1, SECOND), Found(2, THIRD)]

  const TWO_GROUPS := [Group({0, 2}, Finding("PERSON", 0, 10, 0.9, 2)), Group({1}, SECOND)]
  const ONE_GROUP := [Group({0, 1, 2}, Finding("PERSON", 0, 12, 0.9, 2))]

  lemma FirstWithThird()
    ensures IsStep(Initial(TIED), TWO_GROUPS)
  {
    var groups := Initial(TIED);
    assert groups == [Group({0}, FIRST), Group({1}, SECOND), Group({2}, THIRD)];
    assert 0 in {0} + {2} && 2 in {0} + {2} && {0} + {2} == {0, 2};
    assert |{0} + {2}| == 2;
    assert Unite(groups, 0, 2) == TWO_GROUPS;
  }

  lemma ThenWithSecond()
    ensures IsStep(TWO_GROUPS, ONE_GROUP)
  {
    assert {0, 2} + {1} == {0, 1, 2};
    assert |{0, 1, 2}| == 3;
    assert Unite(TWO_GROUPS, 0, 1) == ONE_GROUP;
  }

  lemma TiedIsOneUnit()
    ensures Unit(TIED, 0) == {0, 1, 2} && Leads(TIED, 0)
  {
    OverlapJoins(TIED, 0, 2);
    OverlapJoins(TIED, 2, 1);
    JoinedIsTransitive(TIED, 0, 2, 1);
    assert Component(TIED, 0) == {0, 1, 2};
  }

  lemma SweepKeepsTheSecond(f: Finding)
    requires UnitesAsFirst(TIED, {0, 1, 2}, f)
    ensures f.explanation == 1
  {
    var b :| FirstBest(TIED, {0, 1, 2}, b) && TakesAfter(TIED, b, f);
    assert TIED[0].result.score < TIED[1].result.score == TIED[2].result.score;
  }

  lemma UnitesAsFirstAt(found: seq<Found>, merged: seq<Finding>, leaders: seq<int>, k: nat)
    requires IsMerge(found, merged, leaders) && k < |leaders|
    ensures |merged| == |leaders| && In(found, leaders[k])
    ensures UnitesAsFirst(found, Unit(found, leaders[k]), merged[k])
  {
    hide UnitesAsFirst, Unites, StrictlySorted, Unit;
  }

  // With equal scores the pairwise rule may end on another explanation than the sweep keeps: here it
  // takes the pair of the first and the third before it meets the second.
  lemma ATieMayKeepAnother(merged: seq<Finding>, leaders: seq<int>)
    requires IsMerge(TIED, merged, leaders)
    ensures var run := [Initial(TIED), TWO_GROUPS, ONE_GROUP];
      IsRun(TIED, run) && Stuck(run[2]) && ByStart(run[2]) != merged
  {
    hide IsStep, Unit, Leads, IsLooseMerge, UnitesAsFirst, SortedBy;
    FirstWithThird();
    ThenWithSecond();
    TiedIsOneUnit();
    assert IsLooseMerge(TIED, merged, leaders);
    var k := PlaceOfALeader(TIED, merged, leaders, 0);
    UnitesAsFirstAt(TIED, merged, leaders, k);
    SweepKeepsTheSecond(merged[k]);
    OneGroupByStart();
  }

  lemma OneGroupByStart()
    ensures ByStart(ONE_GROUP) == [ONE_GROUP[0].result]
  {
    var placed := Indexed(ONE_GROUP);
    assert |placed| == 1;
    SortedAlone(placed[0], PlacedKey);
    assert placed == [placed[0]];
  }

  lemma SortedAlone<T>(x: T, key: T -> Key)
    ensures SortedBy([x], key) == [x]
  {
    assert SortedBy([x][1..], key) == [];
  }
}
