// A nondeterministic form of the merge: a step unites any two entries that may be united, and a run
// takes steps while it can. Every run is finite, and `PairwiseMerge` shows that all end alike.
module Pairwise {
  import opened Merging
  import opened MergeRule

  // A finding and the chunks it comes from.
  datatype Group = Group(chunks: set<int>, result: Finding)

  function Initial(found: seq<Found>): seq<Group> {
    seq(|found|, k requires 0 <= k < |found| => Group({found[k].chunk as int}, found[k].result))
  }

  predicate Mergeable(a: Group, b: Group) {
    Overlap(a.result, b.result) && |a.chunks + b.chunks| > 1
  }

  function Union(a: Group, b: Group): Group {
    var best := if a.result.score >= b.result.score then a.result else b.result;
    var start := if a.result.start <= b.result.start then a.result.start else b.result.start;
    var end := if a.result.end >= b.result.end then a.result.end else b.result.end;
    Group(a.chunks + b.chunks, Finding(best.entityType, start, end, best.score, best.explanation))
  }

  function Without<T>(s: seq<T>, j: nat): seq<T>
    requires j < |s|
  {
    s[..j] + s[j + 1..]
  }

  // The union takes the place of the first of the pair; the second is deleted.
  function Unite(groups: seq<Group>, i: nat, j: nat): seq<Group>
    requires i < j < |groups|
  {
    Without(groups[i := Union(groups[i], groups[j])], j)
  }

  ghost predicate IsStep(before: seq<Group>, after: seq<Group>) {
    exists i: nat, j: nat :: i < j < |before| && Mergeable(before[i], before[j]) && after == Unite(before, i, j)
  }

  ghost predicate Stuck(groups: seq<Group>) {
    forall i, j :: 0 <= i < j < |groups| ==> !Mergeable(groups[i], groups[j])
  }

  // Any run of the rule, the pairs taken in any order.
  ghost predicate IsRun(found: seq<Found>, run: seq<seq<Group>>) {
    && run != [] && run[0] == Initial(found)
    && (forall k, next :: 0 <= k && next == k + 1 < |run| ==> IsStep(run[k], run[next]))
  }

  // ---- What a state of a run holds ----

  // The findings a group unites, and the first given of them.
  datatype Book = Book(members: set<int>, first: int)

  ghost function ChunksOf(found: seq<Found>, s: set<int>): set<int> {
    set x | x in s && In(found, x) :: found[x].chunk as int
  }

  ghost predicate GroupOk(found: seq<Found>, group: Group, book: Book) {
    && Unites(found, book.members, group.result)
    && AllJoined(found, book.members)
    && group.chunks == ChunksOf(found, book.members)
    && book.first in book.members && (forall x :: x in book.members ==> book.first <= x)
    && (book.members == {book.first} || !OneChunk(found, book.members))
  }

  ghost predicate Kept(books: seq<Book>, x: int) {
    exists k :: 0 <= k < |books| && x in books[k].members
  }

  ghost predicate Inv(found: seq<Found>, groups: seq<Group>, books: seq<Book>) {
    && |groups| == |books|
    && (forall k :: 0 <= k < |groups| ==> GroupOk(found, groups[k], books[k]))
    && (forall k, l :: 0 <= k < l < |books| ==>
          books[k].first < books[l].first && books[k].members !! books[l].members)
    && (forall x {:trigger Kept(books, x)} :: In(found, x) ==> Kept(books, x))
  }

  lemma AloneIsOk(found: seq<Found>, k: nat)
    requires k < |found|
    ensures GroupOk(found, Group({found[k].chunk as int}, found[k].result), Book({k}, k))
  {
    assert Best(found, {k}, k) && TakesAfter(found, k, found[k].result);
    assert ChunksOf(found, {k}) == {found[k].chunk as int};
  }

  lemma InitialHolds(found: seq<Found>)
    ensures Holds(found, Initial(found))
  {
    hide GroupOk;
    var books := seq(|found|, k requires 0 <= k < |found| => Book({k}, k));
    forall k | 0 <= k < |found| ensures GroupOk(found, Initial(found)[k], books[k]) {
      AloneIsOk(found, k);
    }
    forall x | In(found, x) ensures Kept(books, x) {
      assert x in books[x].members;
    }
    assert Inv(found, Initial(found), books);
  }

  function UnionBook(a: Book, b: Book): Book {
    Book(a.members + b.members, a.first)
  }

  lemma UnionUnites(found: seq<Found>, a: Group, b: Group, s: set<int>, t: set<int>)
    requires Unites(found, s, a.result) && Unites(found, t, b.result)
    requires a.result.entityType == b.result.entityType
    ensures Unites(found, s + t, Union(a, b).result)
  {
    var x :| Best(found, s, x) && TakesAfter(found, x, a.result);
    var y :| Best(found, t, y) && TakesAfter(found, y, b.result);
    var f := Union(a, b).result;
    UnionSpans(found, a, b, s, t);
    if a.result.score >= b.result.score {
      assert Best(found, s + t, x) && TakesAfter(found, x, f);
    } else {
      assert Best(found, s + t, y) && TakesAfter(found, y, f);
    }
  }

  lemma UnionSpans(found: seq<Found>, a: Group, b: Group, s: set<int>, t: set<int>)
    requires Spans(found, s, a.result) && Spans(found, t, b.result)
    requires a.result.entityType == b.result.entityType
    ensures Spans(found, s + t, Union(a, b).result)
  {
  }

  lemma UnionIsJoined(found: seq<Found>, f: Finding, g: Finding, s: set<int>, t: set<int>)
    requires Spans(found, s, f) && AllJoined(found, s)
    requires Spans(found, t, g) && AllJoined(found, t)
    requires Overlap(f, g)
    ensures AllJoined(found, s + t)
  {
    hide Spans, Joined;
    forall x, y | x in s + t && y in s + t ensures Joined(found, x, y) {
      if x in s && y in t {
        OverlappingUnionsAreJoined(found, s, f, t, g, x, y);
      } else if x in t && y in s {
        OverlappingUnionsAreJoined(found, s, f, t, g, y, x);
        JoinedIsSymmetric(found, y, x);
      }
    }
  }

  lemma SeveralChunks(found: seq<Found>, s: set<int>)
    ensures |ChunksOf(found, s)| > 1 ==> !OneChunk(found, s)
  {
    if OneChunk(found, s) && ChunksOf(found, s) != {} {
      var c :| c in ChunksOf(found, s);
      assert ChunksOf(found, s) == {c};
    }
  }

  lemma UnionHolds(found: seq<Found>, a: Group, b: Group, p: Book, q: Book)
    requires GroupOk(found, a, p) && GroupOk(found, b, q) && p.first < q.first
    requires Mergeable(a, b)
    ensures GroupOk(found, Union(a, b), UnionBook(p, q))
  {
    hide Joined, Best, TakesAfter, Spans, OneChunk;
    var s, t := p.members, q.members;
    UnionUnites(found, a, b, s, t);
    UnionIsJoined(found, a.result, b.result, s, t);
    assert ChunksOf(found, s + t) == ChunksOf(found, s) + ChunksOf(found, t);
    SeveralChunks(found, s + t);
  }

  // Where an entry that is left after the deletion of j stood before.
  function Stood(k: int, j: int): int {
    if k < j then k else k + 1
  }

  function UniteBooks(books: seq<Book>, i: nat, j: nat): seq<Book>
    requires i < j < |books|
  {
    Without(books[i := UnionBook(books[i], books[j])], j)
  }

  lemma BooksStayApart(books: seq<Book>, i: nat, j: nat)
    requires i < j < |books|
    requires forall k, l :: 0 <= k < l < |books| ==>
               books[k].first < books[l].first && books[k].members !! books[l].members
    ensures var after := UniteBooks(books, i, j);
            forall k, l :: 0 <= k < l < |after| ==>
              after[k].first < after[l].first && after[k].members !! after[l].members
  {
    var after := UniteBooks(books, i, j);
    forall k, l | 0 <= k < l < |after|
      ensures after[k].first < after[l].first && after[k].members !! after[l].members
    {
      var x, y := Stood(k, j), Stood(l, j);
      assert books[x].members !! books[y].members;
      assert books[x].members !! books[j].members && books[j].members !! books[y].members;
    }
  }

  lemma BooksStayKept(books: seq<Book>, i: nat, j: nat, x: int)
    requires i < j < |books| && Kept(books, x)
    ensures Kept(UniteBooks(books, i, j), x)
  {
    var after := UniteBooks(books, i, j);
    var k :| 0 <= k < |books| && x in books[k].members;
    if k == i || k == j {
      assert x in after[i].members;
    } else if k < j {
      assert after[k] == books[k];
    } else {
      assert after[k - 1] == books[k];
    }
  }

  lemma StepHolds(found: seq<Found>, groups: seq<Group>, books: seq<Book>, i: nat, j: nat)
    requires Inv(found, groups, books) && i < j < |groups| && Mergeable(groups[i], groups[j])
    ensures Inv(found, Unite(groups, i, j), UniteBooks(books, i, j))
  {
    hide GroupOk, Mergeable, Union, Kept;
    UnionHolds(found, groups[i], groups[j], books[i], books[j]);
    BooksStayApart(books, i, j);
    var after, booksAfter := Unite(groups, i, j), UniteBooks(books, i, j);
    forall k | 0 <= k < |after| ensures GroupOk(found, after[k], booksAfter[k]) {
      assert k != i ==> after[k] == groups[Stood(k, j)] && booksAfter[k] == books[Stood(k, j)];
    }
    forall x | In(found, x) ensures Kept(booksAfter, x) {
      BooksStayKept(books, i, j, x);
    }
  }

  ghost predicate Holds(found: seq<Found>, groups: seq<Group>) {
    exists books :: Inv(found, groups, books)
  }

  lemma NextHolds(found: seq<Found>, before: seq<Group>, after: seq<Group>)
    requires Holds(found, before) && IsStep(before, after)
    ensures Holds(found, after) && |after| == |before| - 1
  {
    hide Inv, Mergeable, Union;
    var books :| Inv(found, before, books);
    var i: nat, j: nat :| i < j < |before| && Mergeable(before[i], before[j]) && after == Unite(before, i, j);
    StepHolds(found, before, books, i, j);
  }

  // A run ends: each step leaves one group less.
  lemma {:induction false} RunHolds(found: seq<Found>, run: seq<seq<Group>>)
    requires IsRun(found, run)
    ensures run != [] && Holds(found, run[|run| - 1])
    ensures |run[|run| - 1]| + |run| == |found| + 1
    decreases |run|
  {
    hide Holds, IsStep;
    if |run| == 1 {
      InitialHolds(found);
    } else {
      var last := |run| - 2;
      var before := run[..last + 1];
      assert forall k :: 0 <= k < |before| ==> before[k] == run[k];
      RunHolds(found, before);
      assert IsStep(run[last], run[last + 1]);
      NextHolds(found, run[last], run[last + 1]);
    }
  }
}
