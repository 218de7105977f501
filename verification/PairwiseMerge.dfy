// Where the rule has no pair left, it gives the merge, whatever order the pairs were taken in.
module PairwiseMerge {
  import opened Sets
  import opened Merging
  import opened MergeRule
  import opened Sorting
  import opened Pairwise
  import Sweep

  // ---- Where no pair is left ----

  // The groups themselves, as a list of findings.
  ghost function AsFound(groups: seq<Group>): seq<Found> {
    seq(|groups|, k requires 0 <= k < |groups| => Found(0, groups[k].result))
  }

  // What no group goes across, no finding does.
  lemma CutOfGroups(found: seq<Found>, groups: seq<Group>, books: seq<Book>, entityType: string, p: int)
    requires Inv(found, groups, books) && Cut(AsFound(groups), entityType, p)
    ensures Cut(found, entityType, p)
  {
    forall x | In(found, x) && found[x].result.entityType == entityType
      ensures found[x].result.end <= p || p <= found[x].result.start
    {
      assert Kept(books, x);
      var k :| 0 <= k < |books| && x in books[k].members;
      assert GroupOk(found, groups[k], books[k]);
      assert In(AsFound(groups), k);
    }
  }

  lemma SeparatedGroups(
    found: seq<Found>, groups: seq<Group>, books: seq<Book>, p: int, k: int, l: int, x: int, y: int)
    requires Inv(found, groups, books) && 0 <= k < |groups| && 0 <= l < |groups|
    requires x in books[k].members && y in books[l].members
    requires Separates(AsFound(groups), p, k, l)
    ensures In(found, x) && In(found, y) && Separates(found, p, x, y)
  {
    CutOfGroups(found, groups, books, groups[k].result.entityType, p);
    hide Cut;
    MemberIsWithin(found, groups[k], books[k], x);
    MemberIsWithin(found, groups[l], books[l], y);
  }

  lemma MemberIsWithin(found: seq<Found>, group: Group, book: Book, x: int)
    requires GroupOk(found, group, book) && x in book.members
    ensures In(found, x) && found[x].result.entityType == group.result.entityType
    ensures group.result.start <= found[x].result.start && found[x].result.end <= group.result.end
  {
  }

  lemma NotSeparated(
    found: seq<Found>, groups: seq<Group>, books: seq<Book>, p: int, k: int, l: int, x: int, y: int)
    requires Inv(found, groups, books) && 0 <= k < |groups| && 0 <= l < |groups|
    requires x in books[k].members && y in books[l].members
    requires Joined(found, x, y) && x != y
    ensures !Separates(AsFound(groups), p, k, l)
  {
    if Separates(AsFound(groups), p, k, l) {
      SeparatedGroups(found, groups, books, p, k, l, x, y);
    }
  }

  lemma SameTypes(found: seq<Found>, groups: seq<Group>, books: seq<Book>, k: int, l: int, x: int, y: int)
    requires Inv(found, groups, books) && 0 <= k < |groups| && 0 <= l < |groups|
    requires x in books[k].members && y in books[l].members && Joined(found, x, y)
    ensures groups[k].result.entityType == groups[l].result.entityType
  {
    assert found[x].result.entityType == found[y].result.entityType;
    MemberIsWithin(found, groups[k], books[k], x);
    MemberIsWithin(found, groups[l], books[l], y);
  }

  lemma GroupsOfJoinedAreJoined(found: seq<Found>, groups: seq<Group>, books: seq<Book>, k: int, l: int, x: int, y: int)
    requires Inv(found, groups, books) && 0 <= k < |groups| && 0 <= l < |groups|
    requires x in books[k].members && y in books[l].members && Joined(found, x, y)
    ensures Joined(AsFound(groups), k, l)
  {
    hide *;
    AsFoundAt(groups, k, l);
    var pieces := AsFound(groups);
    if k == l {
      ItselfIsJoined(pieces, k);
    } else {
      DifferentMembers(books, found, groups, k, l, x, y);
      SameTypes(found, groups, books, k, l, x, y);
      forall p ensures !Separates(pieces, p, k, l) {
        NotSeparated(found, groups, books, p, k, l, x, y);
      }
      NeverSeparated(pieces, k, l);
    }
  }

  lemma AsFoundAt(groups: seq<Group>, k: int, l: int)
    requires 0 <= k < |groups| && 0 <= l < |groups|
    ensures In(AsFound(groups), k) && In(AsFound(groups), l)
    ensures groups[k].result.entityType == groups[l].result.entityType ==>
              |AsFound(groups)| == |groups|
              && AsFound(groups)[k].result.entityType == AsFound(groups)[l].result.entityType
  {
  }

  lemma ItselfIsJoined(found: seq<Found>, k: int)
    requires In(found, k)
    ensures Joined(found, k, k)
  {
  }

  lemma NeverSeparated(found: seq<Found>, k: int, l: int)
    requires In(found, k) && In(found, l) && 0 <= k < |found| && 0 <= l < |found|
    requires found[k].result.entityType == found[l].result.entityType
    requires forall p :: !Separates(found, p, k, l)
    ensures Joined(found, k, l)
  {
  }

  lemma DifferentMembers(books: seq<Book>, found: seq<Found>, groups: seq<Group>, k: int, l: int, x: int, y: int)
    requires Inv(found, groups, books) && 0 <= k < |groups| && 0 <= l < |groups| && k != l
    requires x in books[k].members && y in books[l].members
    ensures x != y
  {
    if k < l {
      assert books[k].members !! books[l].members;
    } else {
      assert books[l].members !! books[k].members;
    }
  }

  // Groups that overlap, and are not to be merged, are both of one chunk, and of the same.
  lemma NotMergeable(a: Group, b: Group)
    requires Overlap(a.result, b.result) && !Mergeable(a, b)
    requires a.chunks != {} && b.chunks != {}
    ensures a.chunks == b.chunks && |a.chunks| == 1
  {
    var x := SomeMember(a.chunks);
    var y := SomeMember(b.chunks);
    OnlyMember(a.chunks + b.chunks, x);
    assert y in a.chunks + b.chunks;
    assert a.chunks == {x} && b.chunks == {x};
  }

  lemma StuckPair(found: seq<Found>, groups: seq<Group>, books: seq<Book>, k: int, l: int)
    requires Inv(found, groups, books) && Stuck(groups) && 0 <= k < |groups| && 0 <= l < |groups| && k != l
    requires Overlap(groups[k].result, groups[l].result)
    ensures groups[k].chunks == groups[l].chunks && |groups[k].chunks| == 1
  {
    ChunksAreSome(found, groups[k], books[k]);
    ChunksAreSome(found, groups[l], books[l]);
    if k < l {
      NotMergeable(groups[k], groups[l]);
    } else {
      NotMergeable(groups[l], groups[k]);
    }
  }

  lemma ChunksAreSome(found: seq<Found>, group: Group, book: Book)
    requires GroupOk(found, group, book)
    ensures group.chunks != {}
  {
    assert In(found, book.first);
    assert found[book.first].chunk as int in group.chunks;
  }

  lemma LastLink(groups: seq<Group>, path: seq<int>, k: int, l: int)
    requires ChainFrom(AsFound(groups), path, k, l) && |path| > 1
    ensures var m := path[|path| - 2];
            && ChainFrom(AsFound(groups), path[..|path| - 1], k, m)
            && 0 <= m < |groups| && 0 <= l < |groups| && Overlap(groups[m].result, groups[l].result)
  {
  }

  lemma {:induction false} StuckChain(
    found: seq<Found>, groups: seq<Group>, books: seq<Book>, path: seq<int>, k: int, l: int)
    requires Inv(found, groups, books) && Stuck(groups) && ChainFrom(AsFound(groups), path, k, l)
    requires 0 <= k < |groups| && 0 <= l < |groups|
    ensures groups[k].chunks == groups[l].chunks && (k != l ==> |groups[k].chunks| == 1)
    decreases |path|
  {
    if |path| > 1 {
      hide *;
      var m := path[|path| - 2];
      LastLink(groups, path, k, l);
      StuckChain(found, groups, books, path[..|path| - 1], k, m);
      if m != l {
        StuckPair(found, groups, books, m, l);
      }
    }
  }

  lemma StuckGroups(found: seq<Found>, groups: seq<Group>, books: seq<Book>, k: int, l: int, x: int, y: int)
    requires Oriented(found) && Inv(found, groups, books) && Stuck(groups)
    requires 0 <= k < |groups| && 0 <= l < |groups| && k != l
    requires x in books[k].members && y in books[l].members && Joined(found, x, y)
    ensures groups[k].chunks == groups[l].chunks && |groups[k].chunks| == 1
  {
    GroupsOfJoinedAreJoined(found, groups, books, k, l, x, y);
    GroupsAreOriented(found, groups, books);
    var path := ChainOfJoined(AsFound(groups), k, l);
    StuckChain(found, groups, books, path, k, l);
  }

  lemma GroupsAreOriented(found: seq<Found>, groups: seq<Group>, books: seq<Book>)
    requires Oriented(found) && Inv(found, groups, books)
    ensures Oriented(AsFound(groups))
  {
    forall k | 0 <= k < |groups| ensures groups[k].result.start <= groups[k].result.end {
      assert GroupOk(found, groups[k], books[k]);
      var x := books[k].first;
      assert found[x].result.start <= found[x].result.end;
    }
  }

  // Where no pair is left, what a finding is joined to comes from the chunks of its own group.
  lemma ChunkOfTheComponent(found: seq<Found>, groups: seq<Group>, books: seq<Book>, k: int, z: int)
    requires Oriented(found) && Inv(found, groups, books) && Stuck(groups) && 0 <= k < |groups|
    requires Joined(found, books[k].first, z)
    ensures found[z].chunk as int in groups[k].chunks
    ensures z in books[k].members || |groups[k].chunks| == 1
  {
    assert Kept(books, z);
    var l :| 0 <= l < |books| && z in books[l].members;
    InTheChunks(found, groups[l], books[l], z);
    FirstIsAMember(found, groups[k], books[k]);
    if l != k {
      StuckGroups(found, groups, books, k, l, books[k].first, z);
    }
  }

  lemma InTheChunks(found: seq<Found>, group: Group, book: Book, z: int)
    requires GroupOk(found, group, book) && z in book.members
    ensures In(found, z) && found[z].chunk as int in group.chunks
  {
  }

  lemma FirstIsAMember(found: seq<Found>, group: Group, book: Book)
    requires GroupOk(found, group, book)
    ensures book.first in book.members && In(found, book.first)
  {
  }

  lemma OneChunkInAll(found: seq<Found>, groups: seq<Group>, books: seq<Book>, k: int)
    requires Oriented(found) && Inv(found, groups, books) && Stuck(groups) && 0 <= k < |groups|
    requires |groups[k].chunks| == 1 && In(found, books[k].first)
    ensures OneChunk(found, Component(found, books[k].first))
  {
    var s := Component(found, books[k].first);
    forall x | x in s ensures In(found, x) && groups[k].chunks == {found[x].chunk as int} {
      ChunkOfTheComponent(found, groups, books, k, x);
      OnlyMember(groups[k].chunks, found[x].chunk as int);
    }
    hide Inv, Stuck, Oriented, Component;
  }

  lemma MembersAreJoined(found: seq<Found>, group: Group, book: Book)
    requires GroupOk(found, group, book)
    ensures In(found, book.first) && book.members <= Component(found, book.first)
    ensures OneChunk(found, Component(found, book.first)) ==> book.members == {book.first}
  {
    FirstIsAMember(found, group, book);
    var s := Component(found, book.first);
    forall x | x in book.members ensures x in s {
      assert Joined(found, book.first, x);
    }
  }

  lemma AllOfTheComponent(found: seq<Found>, groups: seq<Group>, books: seq<Book>, k: int)
    requires Oriented(found) && Inv(found, groups, books) && Stuck(groups) && 0 <= k < |groups|
    requires In(found, books[k].first) && !OneChunk(found, Component(found, books[k].first))
    ensures Component(found, books[k].first) <= books[k].members
  {
    forall z | z in Component(found, books[k].first) ensures z in books[k].members {
      hide Inv, Stuck, OneChunk, Joined, Oriented;
      ChunkOfTheComponent(found, groups, books, k, z);
      if |groups[k].chunks| == 1 {
        OneChunkInAll(found, groups, books, k);
      }
    }
  }

  lemma FirstLeads(found: seq<Found>, group: Group, book: Book)
    requires GroupOk(found, group, book) && In(found, book.first)
    requires Unit(found, book.first) == book.members
    ensures Leads(found, book.first)
  {
  }

  // A group is then all that becomes one with the finding that leads it.
  lemma GroupIsAUnit(found: seq<Found>, groups: seq<Group>, books: seq<Book>, k: int)
    requires Oriented(found) && Inv(found, groups, books) && Stuck(groups) && 0 <= k < |groups|
    ensures Leads(found, books[k].first) && Unit(found, books[k].first) == books[k].members
  {
    hide Stuck, OneChunk, GroupOk, Oriented, Component, Kept, Leads;
    var first := books[k].first;
    MembersAreJoined(found, groups[k], books[k]);
    if !OneChunk(found, Component(found, first)) {
      AllOfTheComponent(found, groups, books, k);
    }
    FirstLeads(found, groups[k], books[k]);
  }

  // ---- The findings left, sorted by start and then by their place in the list ----

  datatype Placed = Placed(index: int, result: Finding)

  function PlacedKey(p: Placed): Key { (p.result.start, p.index, 0) }

  function Indexed(groups: seq<Group>): seq<Placed> {
    seq(|groups|, k requires 0 <= k < |groups| => Placed(k, groups[k].result))
  }

  function ResultsOf(placed: seq<Placed>): seq<Finding> {
    seq(|placed|, k requires 0 <= k < |placed| => placed[k].result)
  }

  // What is left, sorted by start; the sort is stable.
  function ByStart(groups: seq<Group>): seq<Finding> {
    ResultsOf(SortedBy(Indexed(groups), PlacedKey))
  }

  ghost predicate PlacedOf(groups: seq<Group>, placed: seq<Placed>) {
    && (forall n :: 0 <= n < |placed| ==>
          0 <= placed[n].index < |groups| && placed[n].result == groups[placed[n].index].result)
    && (forall k :: 0 <= k < |groups| ==> Placed(k, groups[k].result) in placed)
    && StrictlySortedBy(placed, PlacedKey)
  }

  lemma SortedIsPlaced(groups: seq<Group>)
    ensures PlacedOf(groups, SortedBy(Indexed(groups), PlacedKey))
  {
    var all := Indexed(groups);
    var placed := SortedBy(all, PlacedKey);
    SortKeepsMembers(all, PlacedKey);
    SortSorts(all, PlacedKey);
    forall n | 0 <= n < |placed|
      ensures 0 <= placed[n].index < |groups| && placed[n].result == groups[placed[n].index].result
    {
      assert placed[n] in all;
    }
    forall k | 0 <= k < |groups| ensures Placed(k, groups[k].result) in placed {
      assert all[k] in placed;
    }
  }

  ghost function FirstOf(groups: seq<Group>, books: seq<Book>, placed: seq<Placed>): seq<int>
    requires |groups| == |books| && PlacedOf(groups, placed)
  {
    seq(|placed|, n requires 0 <= n < |placed| => books[placed[n].index].first)
  }

  lemma KeysOfPlaced(found: seq<Found>, groups: seq<Group>, books: seq<Book>, placed: seq<Placed>)
    requires Inv(found, groups, books) && PlacedOf(groups, placed)
    ensures StrictlySorted(Keys(ResultsOf(placed), FirstOf(groups, books, placed)))
  {
    var keys := Keys(ResultsOf(placed), FirstOf(groups, books, placed));
    forall n, m | 0 <= n < m < |keys| ensures Precedes(keys[n], keys[m]) {
      assert KeyLess(PlacedKey(placed[n]), PlacedKey(placed[m]));
    }
  }

  lemma LeaderIsPlaced(found: seq<Found>, groups: seq<Group>, books: seq<Book>, placed: seq<Placed>, i: int)
    requires Oriented(found) && Inv(found, groups, books) && Stuck(groups) && PlacedOf(groups, placed)
    requires Leads(found, i)
    ensures i in FirstOf(groups, books, placed)
  {
    assert Kept(books, i);
    var k :| 0 <= k < |books| && i in books[k].members;
    GroupIsAUnit(found, groups, books, k);
    Sweep.LeadersOfOneUnit(found, i, books[k].first);
    assert Placed(k, groups[k].result) in placed;
    var n :| 0 <= n < |placed| && placed[n] == Placed(k, groups[k].result);
    assert FirstOf(groups, books, placed)[n] == i;
  }

  lemma PlacedUnites(found: seq<Found>, groups: seq<Group>, books: seq<Book>, placed: seq<Placed>, n: int)
    requires Oriented(found) && Inv(found, groups, books) && Stuck(groups) && PlacedOf(groups, placed)
    requires 0 <= n < |placed|
    ensures var first := FirstOf(groups, books, placed)[n];
            Leads(found, first) && Unites(found, Unit(found, first), ResultsOf(placed)[n])
  {
    var k := placed[n].index;
    GroupIsAUnit(found, groups, books, k);
    assert GroupOk(found, groups[k], books[k]);
  }

  lemma PlacedIsAMerge(found: seq<Found>, groups: seq<Group>, books: seq<Book>, placed: seq<Placed>)
    requires Oriented(found) && Inv(found, groups, books) && Stuck(groups)
    requires |groups| == |books| && PlacedOf(groups, placed)
    ensures IsLooseMerge(found, ResultsOf(placed), FirstOf(groups, books, placed))
  {
    hide Inv, PlacedOf, Stuck, Unit, Unites, Oriented, StrictlySorted;
    KeysOfPlaced(found, groups, books, placed);
    var leaders := FirstOf(groups, books, placed);
    forall i | Leads(found, i) ensures i in leaders {
      LeaderIsPlaced(found, groups, books, placed, i);
    }
    forall n | 0 <= n < |leaders|
      ensures Leads(found, leaders[n]) && Unites(found, Unit(found, leaders[n]), ResultsOf(placed)[n])
    {
      PlacedUnites(found, groups, books, placed, n);
    }
  }

  lemma ByStartIsAMerge(found: seq<Found>, groups: seq<Group>, books: seq<Book>)
    requires Oriented(found) && Inv(found, groups, books) && Stuck(groups)
    ensures |groups| == |books| && PlacedOf(groups, SortedBy(Indexed(groups), PlacedKey))
    ensures IsLooseMerge(found, ByStart(groups), FirstOf(groups, books, SortedBy(Indexed(groups), PlacedKey)))
  {
    assert |groups| == |books|;
    hide Inv, Stuck, Oriented, PlacedOf, FirstOf, ResultsOf, SortedBy, Indexed, IsLooseMerge;
    SortedIsPlaced(groups);
    PlacedIsAMerge(found, groups, books, SortedBy(Indexed(groups), PlacedKey));
  }

  lemma StuckIsAMerge(found: seq<Found>, groups: seq<Group>)
    requires Oriented(found) && Holds(found, groups) && Stuck(groups)
    ensures exists leaders :: IsLooseMerge(found, ByStart(groups), leaders)
  {
    var books :| Inv(found, groups, books);
    hide *;
    ByStartIsAMerge(found, groups, books);
  }

  // Whatever order the pairs are taken in, the rule ends on what the sweep gives: the same types,
  // starts, ends and scores, in the same order.
  lemma AnyRunEndsOnTheMerge(found: seq<Found>, run: seq<seq<Group>>, merged: seq<Finding>, leaders: seq<int>)
    requires Oriented(found) && IsMerge(found, merged, leaders)
    requires IsRun(found, run) && Stuck(run[|run| - 1])
    ensures SameButExplanations(ByStart(run[|run| - 1]), merged)
  {
    hide IsLooseMerge, IsRun, Stuck, Oriented;
    RunHolds(found, run);
    StuckIsAMerge(found, run[|run| - 1]);
    var others :| IsLooseMerge(found, ByStart(run[|run| - 1]), others);
    LooseMergesAgree(found, ByStart(run[|run| - 1]), others, merged, leaders);
  }

  // No two findings of one score.
  ghost predicate DistinctScores(found: seq<Found>) {
    forall x, y :: In(found, x) && In(found, y) && x != y ==> found[x].result.score != found[y].result.score
  }

  // With distinct scores, the explanations are the same too.
  lemma AnyRunEndsOnTheMergeItself(found: seq<Found>, run: seq<seq<Group>>, merged: seq<Finding>, leaders: seq<int>)
    requires Oriented(found) && DistinctScores(found) && IsMerge(found, merged, leaders)
    requires IsRun(found, run) && Stuck(run[|run| - 1])
    ensures ByStart(run[|run| - 1]) == merged
  {
    hide IsLooseMerge, IsRun, Stuck, Oriented;
    RunHolds(found, run);
    StuckIsAMerge(found, run[|run| - 1]);
    var others :| IsLooseMerge(found, ByStart(run[|run| - 1]), others);
    LooseMergesAgreeOnExplanations(found, ByStart(run[|run| - 1]), others, merged, leaders);
  }

  // ---- The rule as it is written ----

  // The first pair to unite, in the order of the list.
  method FirstPair(groups: seq<Group>) returns (found: bool, first: nat, second: nat)
    ensures found ==> first < second < |groups| && Mergeable(groups[first], groups[second])
    ensures !found ==> Stuck(groups)
  {
    for i := 0 to |groups|
      invariant forall k, l :: 0 <= k < i && k < l < |groups| ==> !Mergeable(groups[k], groups[l])
    {
      for j := i + 1 to |groups|
        invariant forall l :: i < l < j ==> !Mergeable(groups[i], groups[l])
      {
        if Mergeable(groups[i], groups[j]) {
          return true, i, j;
        }
      }
    }
    return false, 0, 0;
  }

  lemma UniteIsAStep(found: seq<Found>, groups: seq<Group>, i: nat, j: nat)
    requires Holds(found, groups) && i < j < |groups| && Mergeable(groups[i], groups[j])
    ensures Holds(found, Unite(groups, i, j)) && |Unite(groups, i, j)| < |groups|
  {
    assert IsStep(groups, Unite(groups, i, j));
    NextHolds(found, groups, Unite(groups, i, j));
  }

  method ReferenceMerge(found: seq<Found>) returns (merged: seq<Finding>)
    requires Oriented(found)
    ensures exists leaders :: IsLooseMerge(found, merged, leaders)
  {
    hide Holds, Oriented, Mergeable, Union, Stuck, Unite, IsLooseMerge;
    var groups := Initial(found);
    InitialHolds(found);
    var more, first: nat, second: nat := FirstPair(groups);
    while more
      invariant Holds(found, groups)
      invariant more ==> first < second < |groups| && Mergeable(groups[first], groups[second])
      invariant !more ==> Stuck(groups)
      decreases |groups|, more
    {
      UniteIsAStep(found, groups, first, second);
      groups := Unite(groups, first, second);
      more, first, second := FirstPair(groups);
    }
    StuckIsAMerge(found, groups);
    merged := ByStart(groups);
  }
}
