// What a merge is made of, told finding by finding.
module MergedFindings {
  import opened Merging
  import opened MergeRule

  // The findings are given by start and, of equal starts, by the position of the first they unite.
  lemma MergedAreInOrder(found: seq<Found>, merged: seq<Finding>, leaders: seq<int>, k: nat, l: nat)
    requires IsLooseMerge(found, merged, leaders) && k < l < |merged|
    ensures merged[k].start <= merged[l].start
    ensures merged[k].start == merged[l].start ==> leaders[k] < leaders[l]
  {
    hide Leads, Unites, Unit;
    assert Precedes(Keys(merged, leaders)[k], Keys(merged, leaders)[l]);
  }

  // Two findings of one type become one: of several chunks, with a finding of each in one chain.
  ghost predicate AreUnited(found: seq<Found>, i: int, j: int) {
    && In(found, i) && In(found, j) && Joined(found, i, j)
    && (i == j || exists x, y :: Joined(found, i, x) && Joined(found, i, y) && In(found, x) && In(found, y)
                                 && found[x].chunk != found[y].chunk)
  }

  lemma UnitIsUnited(found: seq<Found>, i: int, j: int)
    requires In(found, i)
    ensures j in Unit(found, i) <==> AreUnited(found, i, j)
  {
    JoinedToItself(found, i);
    hide Joined;
    var s := Component(found, i);
    if !OneChunk(found, s) {
      var x, y :| x in s && y in s && In(found, x) && In(found, y) && found[x].chunk != found[y].chunk;
      assert Joined(found, i, x) && Joined(found, i, y);
    }
  }

  lemma JoinedToItself(found: seq<Found>, i: int)
    requires In(found, i)
    ensures Joined(found, i, i)
  {
  }

  // Each finding is in one of those given, of its type, that starts no later, ends no earlier and has no
  // lower score; with all the findings it is united with, and no other.
  lemma EachIsInOne(found: seq<Found>, merged: seq<Finding>, leaders: seq<int>, i: int) returns (k: nat)
    requires IsMerge(found, merged, leaders) && In(found, i)
    ensures k < |merged| && k < |leaders| && AreUnited(found, leaders[k], i)
    ensures forall j :: AreUnited(found, leaders[k], j) ==>
              && In(found, j)
              && merged[k].entityType == found[j].result.entityType
              && merged[k].start <= found[j].result.start && found[j].result.end <= merged[k].end
              && found[j].result.score <= merged[k].score
  {
    hide IsLooseMerge, UnitesAsFirst, Unites, Unit, Leads, AreUnited;
    var leader := LeaderOf(found, i);
    k := PlaceOfALeader(found, merged, leaders, leader);
    MergedAt(found, merged, leaders, k);
    UnitIsJoined(found, i);
    UnitIsUnited(found, leader, i);
    forall j | AreUnited(found, leader, j)
      ensures j in Unit(found, leader)
      ensures In(found, j)
    {
      AreIn(found, leader, j);
      UnitIsUnited(found, leader, j);
    }
    TakesThemAll(found, Unit(found, leader), merged[k]);
  }

  lemma AreIn(found: seq<Found>, i: int, j: int)
    requires AreUnited(found, i, j)
    ensures In(found, i) && In(found, j)
  {
    hide Joined;
  }

  lemma TakesThemAll(found: seq<Found>, s: set<int>, f: Finding)
    requires Unites(found, s, f)
    ensures forall x :: x in s ==>
              && In(found, x) && found[x].result.entityType == f.entityType
              && f.start <= found[x].result.start && found[x].result.end <= f.end && found[x].result.score <= f.score
  {
  }

  // A finding given starts where one of those it unites does, ends where one does, and has the score and the
  // explanation of the first given of those of the highest score.
  lemma EachIsOfTheirs(found: seq<Found>, merged: seq<Finding>, leaders: seq<int>, k: nat)
    returns (x: int, y: int, b: int)
    requires IsMerge(found, merged, leaders) && k < |merged|
    ensures k < |leaders| && AreUnited(found, leaders[k], x) && AreUnited(found, leaders[k], y)
    ensures AreUnited(found, leaders[k], b) && In(found, x) && In(found, y) && In(found, b)
    ensures found[x].result.start == merged[k].start && found[y].result.end == merged[k].end
    ensures found[b].result.score == merged[k].score && found[b].result.explanation == merged[k].explanation
    ensures forall j :: 0 <= j < b && AreUnited(found, leaders[k], j) ==> found[j].result.score < merged[k].score
  {
    hide IsLooseMerge, Unit, Leads, AreUnited, Unites;
    MergedIsSorted(found, merged, leaders);
    MergedAt(found, merged, leaders, k);
    var leader, f := leaders[k], merged[k];
    var s := Unit(found, leader);
    x :| x in s && In(found, x) && found[x].result.start == f.start;
    y :| y in s && In(found, y) && found[y].result.end == f.end;
    b :| FirstBest(found, s, b) && TakesAfter(found, b, f);
    UnitIsUnited(found, leader, x);
    UnitIsUnited(found, leader, y);
    UnitIsUnited(found, leader, b);
    forall j | 0 <= j < b && AreUnited(found, leader, j) ensures found[j].result.score < f.score {
      AreIn(found, leader, j);
      UnitIsUnited(found, leader, j);
    }
  }

  // A finding whose chains stay within its chunk is given unchanged.
  lemma OneChunkIsLeftAsItIs(found: seq<Found>, merged: seq<Finding>, leaders: seq<int>, i: int) returns (k: nat)
    requires IsLooseMerge(found, merged, leaders) && In(found, i)
    requires forall j :: In(found, j) && Joined(found, i, j) ==> found[j].chunk == found[i].chunk
    ensures k < |merged| && merged[k] == found[i].result
  {
    hide IsLooseMerge, Unites, Joined;
    assert Unit(found, i) == {i};
    assert Leads(found, i);
    hide Leads, Unit;
    k := PlaceOfALeader(found, merged, leaders, i);
    MergedAt(found, merged, leaders, k);
    AloneAsItIs(found, i, merged[k]);
  }
}
