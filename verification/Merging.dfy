// What merging the findings of different chunks means. Everything here is about a list of
// findings, each given with the chunk it comes from; a finding is named by its position in it.
module Merging {
  import opened Sets

  // A finding of the model. `explanation` stands for what is copied along with it.
  datatype Finding = Finding(entityType: string, start: int, end: int, score: real, explanation: int)

  datatype Found = Found(chunk: nat, result: Finding)

  // Findings end where they start, or after. One that designates no character is allowed.
  ghost predicate Oriented(found: seq<Found>) {
    forall k :: 0 <= k < |found| ==> found[k].result.start <= found[k].result.end
  }

  ghost predicate In(found: seq<Found>, k: int) {
    0 <= k < |found|
  }

  // Two findings that share a character.
  predicate Overlap(a: Finding, b: Finding) {
    a.entityType == b.entityType && a.start < b.end && b.start < a.end
  }

  predicate Between(a: Finding, p: int, b: Finding) {
    a.end <= p <= b.start
  }

  // No finding of the type goes on both sides of p.
  ghost predicate Cut(found: seq<Found>, entityType: string, p: int) {
    forall k :: In(found, k) && found[k].result.entityType == entityType ==>
      found[k].result.end <= p || p <= found[k].result.start
  }

  ghost predicate Separates(found: seq<Found>, p: int, i: int, j: int)
    requires In(found, i) && In(found, j)
  {
    && Cut(found, found[i].result.entityType, p)
    && (Between(found[i].result, p, found[j].result) || Between(found[j].result, p, found[i].result))
  }

  // Two findings of one type that no cut keeps apart: they overlap, directly or through others.
  // `JoinedIsByChains` says so.
  ghost predicate Joined(found: seq<Found>, i: int, j: int) {
    && In(found, i) && In(found, j)
    && (i == j
        || (found[i].result.entityType == found[j].result.entityType && !exists p :: Separates(found, p, i, j)))
  }

  lemma JoinedIsSymmetric(found: seq<Found>, i: int, j: int)
    requires Joined(found, i, j)
    ensures Joined(found, j, i)
  {
    if i != j {
      forall p ensures !Separates(found, p, j, i) {
        assert !Separates(found, p, i, j);
      }
    }
  }

  lemma JoinedIsTransitive(found: seq<Found>, i: int, j: int, k: int)
    requires Joined(found, i, j) && Joined(found, j, k)
    ensures Joined(found, i, k)
  {
    if i != j && j != k && i != k {
      forall p ensures !Separates(found, p, i, k) {
        assert !Separates(found, p, i, j) && !Separates(found, p, j, k);
      }
    }
  }

  lemma OverlapJoins(found: seq<Found>, i: int, j: int)
    requires In(found, i) && In(found, j) && Overlap(found[i].result, found[j].result)
    ensures Joined(found, i, j)
  {
  }

  // The order the findings of one type are read in.
  predicate Before(a: Finding, b: Finding) {
    a.start < b.start || (a.start == b.start && a.end < b.end)
  }

  // The findings of the type of finding i that come before it.
  ghost function Earlier(found: seq<Found>, i: int): set<int>
    requires In(found, i)
  {
    set k | 0 <= k < |found| && found[k].result.entityType == found[i].result.entityType
            && Before(found[k].result, found[i].result)
  }

  lemma FewerAreEarlier(found: seq<Found>, x: int, j: int)
    requires In(found, x) && In(found, j) && found[x].result.entityType == found[j].result.entityType
    requires Before(found[x].result, found[j].result)
    ensures |Earlier(found, x)| < |Earlier(found, j)|
  {
    assert x in Earlier(found, j) && x !in Earlier(found, x);
    StrictlySmaller(Earlier(found, x), Earlier(found, j));
  }

  // A finding joined to one that does not come after it overlaps an earlier one, or that one.
  lemma OverlapsAnEarlierOne(found: seq<Found>, i: int, j: int) returns (x: int)
    requires Oriented(found) && Joined(found, i, j) && i != j
    requires !Before(found[j].result, found[i].result)
    ensures In(found, x) && Overlap(found[x].result, found[j].result)
    ensures x == i || Before(found[x].result, found[j].result)
  {
    if Overlap(found[i].result, found[j].result) {
      return i;
    }
    var p := found[j].result.start;
    if Cut(found, found[j].result.entityType, p) {
      assert Separates(found, p, i, j);
      assert false;
    }
    x :| In(found, x) && found[x].result.entityType == found[j].result.entityType
         && !(found[x].result.end <= p || p <= found[x].result.start);
  }

  // A chain of findings, each overlapping the next.
  ghost predicate Chain(found: seq<Found>, path: seq<int>) {
    && path != []
    && (forall k :: 0 <= k < |path| ==> In(found, path[k]))
    && (forall k, next :: 0 <= k && next == k + 1 < |path| ==>
          Overlap(found[path[k]].result, found[path[next]].result))
  }

  ghost predicate ChainFrom(found: seq<Found>, path: seq<int>, i: int, j: int) {
    Chain(found, path) && path[0] == i && path[|path| - 1] == j
  }

  lemma ChainGrowsRight(found: seq<Found>, path: seq<int>, i: int, x: int, j: int)
    requires ChainFrom(found, path, i, x) && In(found, j) && Overlap(found[x].result, found[j].result)
    ensures ChainFrom(found, path + [j], i, j)
  {
  }

  lemma ChainGrowsLeft(found: seq<Found>, path: seq<int>, i: int, x: int, j: int)
    requires ChainFrom(found, path, x, j) && In(found, i) && Overlap(found[x].result, found[i].result)
    ensures ChainFrom(found, [i] + path, i, j)
  {
    var longer := [i] + path;
    forall k, next | 0 <= k && next == k + 1 < |longer|
      ensures Overlap(found[longer[k]].result, found[longer[next]].result)
    {
      if k > 0 {
        assert longer[k] == path[k - 1] && longer[next] == path[k];
      }
    }
  }

  lemma {:induction false} ChainOfJoined(found: seq<Found>, i: int, j: int) returns (path: seq<int>)
    requires Oriented(found) && Joined(found, i, j)
    ensures ChainFrom(found, path, i, j)
    decreases |Earlier(found, i)| + |Earlier(found, j)|
  {
    if i == j {
      return [i];
    }
    JoinedIsSymmetric(found, i, j);
    if !Before(found[j].result, found[i].result) {
      var x := OverlapsAnEarlierOne(found, i, j);
      path := [i];
      if x != i {
        path := ChainToEarlier(found, i, x, j);
      }
      ChainGrowsRight(found, path, i, x, j);
      path := path + [j];
    } else {
      var x := OverlapsAnEarlierOne(found, j, i);
      path := [j];
      if x != j {
        path := ChainFromEarlier(found, i, x, j);
      }
      ChainGrowsLeft(found, path, i, x, j);
      path := [i] + path;
    }
  }

  lemma {:induction false} ChainToEarlier(found: seq<Found>, i: int, x: int, j: int) returns (path: seq<int>)
    requires Oriented(found) && Joined(found, i, j) && In(found, x)
    requires Overlap(found[x].result, found[j].result) && Before(found[x].result, found[j].result)
    ensures ChainFrom(found, path, i, x)
    decreases |Earlier(found, i)| + |Earlier(found, j)|, 0
  {
    OverlapJoins(found, j, x);
    JoinedIsTransitive(found, i, j, x);
    FewerAreEarlier(found, x, j);
    path := ChainOfJoined(found, i, x);
  }

  lemma {:induction false} ChainFromEarlier(found: seq<Found>, i: int, x: int, j: int) returns (path: seq<int>)
    requires Oriented(found) && Joined(found, i, j) && In(found, x)
    requires Overlap(found[x].result, found[i].result) && Before(found[x].result, found[i].result)
    ensures ChainFrom(found, path, x, j)
    decreases |Earlier(found, i)| + |Earlier(found, j)|, 0
  {
    OverlapJoins(found, x, i);
    JoinedIsTransitive(found, x, i, j);
    FewerAreEarlier(found, x, i);
    path := ChainOfJoined(found, x, j);
  }

  lemma {:induction false} ChainJoins(found: seq<Found>, path: seq<int>, i: int, j: int)
    requires ChainFrom(found, path, i, j)
    ensures Joined(found, i, j)
    decreases |path|
  {
    if |path| > 1 {
      var shorter := path[..|path| - 1];
      var x := shorter[|shorter| - 1];
      ChainJoins(found, shorter, i, x);
      assert path[|path| - 2] == x;
      OverlapJoins(found, x, j);
      JoinedIsTransitive(found, i, x, j);
    }
  }

  // Joined is what overlapping, directly or through others, is.
  lemma JoinedIsByChains(found: seq<Found>, i: int, j: int)
    requires Oriented(found)
    ensures Joined(found, i, j) <==> exists path :: ChainFrom(found, path, i, j)
  {
    if Joined(found, i, j) {
      var path := ChainOfJoined(found, i, j);
    }
    if path :| ChainFrom(found, path, i, j) {
      ChainJoins(found, path, i, j);
    }
  }
}
