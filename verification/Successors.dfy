// The chains of licenses that succeed one another, and the walk to the last of one.
module Successors {
  import opened Licensing
  import opened Registry
  import opened Links

  // How far the walk goes.
  const BOUND := 64

  // x is n successors away from start.
  ghost predicate After(licenses: map<string, License>, start: string, x: string, n: nat)
    decreases n
  {
    if n == 0 then x == start
    else exists y :: After(licenses, start, y, n - 1) && Succeeds(licenses, x, y)
  }

  ghost predicate IsEnd(licenses: map<string, License>, start: string, x: string, n: nat) {
    After(licenses, start, x, n) && !HasSuccessor(licenses, x)
  }

  // The row the query gives: of the successors at most `BOUND` away, the farthest, with whether it has
  // a successor of its own.
  ghost predicate Farthest(licenses: map<string, License>, start: string, n: nat) {
    forall y, m: nat :: 1 <= m <= BOUND && After(licenses, start, y, m) ==> m <= n
  }

  ghost predicate IsLatestAt(licenses: map<string, License>, start: string, x: string, n: nat) {
    1 <= n <= BOUND && After(licenses, start, x, n) && Farthest(licenses, start, n)
  }

  ghost predicate IsLatest(licenses: map<string, License>, start: string, x: string, cutShort: bool) {
    cutShort == HasSuccessor(licenses, x) && exists n: nat :: IsLatestAt(licenses, start, x, n)
  }

  // ---- The shape of a chain ----

  lemma {:induction false} OneEachFar(licenses: map<string, License>, start: string, x: string, y: string, n: nat)
    requires OneSuccessor(licenses) && After(licenses, start, x, n) && After(licenses, start, y, n)
    ensures x == y
    decreases n
  {
    hide Succeeds, OneSuccessor;
    if n == 0 {
    } else {
      var px :| After(licenses, start, px, n - 1) && Succeeds(licenses, x, px);
      var py :| After(licenses, start, py, n - 1) && Succeeds(licenses, y, py);
      OneEachFar(licenses, start, px, py, n - 1);
      TheSuccessor(licenses, x, y, px);
    }
  }

  lemma TheSuccessor(licenses: map<string, License>, x: string, y: string, previous: string)
    requires OneSuccessor(licenses) && Succeeds(licenses, x, previous) && Succeeds(licenses, y, previous)
    ensures x == y
  {
  }

  lemma LinkGoesBack(licenses: map<string, License>, x: string, previous: string)
    requires LinksGoBack(licenses) && Succeeds(licenses, x, previous)
    ensures x in licenses && previous in licenses
    ensures licenses[previous].customer == licenses[x].customer && licenses[previous].rank < licenses[x].rank
  {
  }

  // Each successor was recorded later, for the same customer.
  lemma {:induction false} LaterAndOfTheSame(licenses: map<string, License>, start: string, x: string, n: nat)
    requires LinksGoBack(licenses) && After(licenses, start, x, n) && (n == 0 ==> start in licenses)
    ensures start in licenses && x in licenses
    ensures licenses[x].customer == licenses[start].customer
    ensures licenses[start].rank + n <= licenses[x].rank
    decreases n
  {
    hide Succeeds, LinksGoBack;
    if n == 0 {
    } else {
      var y :| After(licenses, start, y, n - 1) && Succeeds(licenses, x, y);
      LinkGoesBack(licenses, x, y);
      if n == 1 {
      } else {
        LaterAndOfTheSame(licenses, start, y, n - 1);
      }
    }
  }

  lemma {:induction false} FartherOn(licenses: map<string, License>, a: string, b: string, c: string, n: nat, m: nat)
    requires After(licenses, a, b, n) && After(licenses, b, c, m)
    ensures After(licenses, a, c, n + m)
    decreases m
  {
    hide Succeeds;
    if m == 0 {
    } else {
      var y :| After(licenses, b, y, m - 1) && Succeeds(licenses, c, y);
      FartherOn(licenses, a, b, y, n, m - 1);
      assert After(licenses, a, y, n + m - 1);
    }
  }

  // One is as far as any step before another.
  lemma {:induction false} OnTheWay(licenses: map<string, License>, start: string, x: string, n: nat, m: nat)
    returns (y: string)
    requires After(licenses, start, x, n) && m <= n
    ensures After(licenses, start, y, m) && After(licenses, y, x, n - m)
    decreases n
  {
    hide Succeeds;
    if m == n {
      y := x;
    } else {
      var p :| After(licenses, start, p, n - 1) && Succeeds(licenses, x, p);
      y := OnTheWay(licenses, start, p, n - 1, m);
      assert After(licenses, y, p, n - m - 1);
    }
  }

  // Of two licenses that follow one, the farther follows the nearer.
  lemma {:induction false} OneLine(licenses: map<string, License>, start: string, x: string, n: nat, y: string, m: nat)
    requires OneSuccessor(licenses) && After(licenses, start, x, n) && After(licenses, start, y, m) && n <= m
    ensures After(licenses, x, y, m - n)
  {
    hide After, OneSuccessor;
    var z := OnTheWay(licenses, start, y, m, n);
    OneEachFar(licenses, start, x, z, n);
  }

  // Of two licenses that one follows, the nearer follows the farther.
  lemma {:induction false} OneLineBack(licenses: map<string, License>, a: string, n: nat, b: string, m: nat, x: string)
    requires After(licenses, a, x, n) && After(licenses, b, x, m) && n <= m
    ensures After(licenses, b, a, m - n)
    decreases n
  {
    if n == 0 {
    } else {
      var y :| After(licenses, a, y, n - 1) && Succeeds(licenses, x, y);
      var z :| After(licenses, b, z, m - 1) && Succeeds(licenses, x, z);
      OneLineBack(licenses, a, n - 1, b, m - 1, y);
    }
  }

  ghost predicate OnOneChain(licenses: map<string, License>, a: string, b: string) {
    (exists n: nat :: After(licenses, a, b, n)) || (exists n: nat :: After(licenses, b, a, n))
  }

  // In every state the registry reaches, the links form disjoint chains: no license is its own
  // successor however far, a chain is of one customer, and two licenses that share one before them or
  // after them are on one chain.
  lemma ChainsAreLines(s: State, a: string, n: nat, b: string, m: nat, x: string)
    requires Reachable(s)
    ensures n > 0 ==> !After(s.licenses, x, x, n)
    ensures n > 0 && After(s.licenses, a, x, n) ==>
              a in s.licenses && x in s.licenses && s.licenses[a].customer == s.licenses[x].customer
    ensures After(s.licenses, x, a, n) && After(s.licenses, x, b, m) ==> OnOneChain(s.licenses, a, b)
    ensures After(s.licenses, a, x, n) && After(s.licenses, b, x, m) ==> OnOneChain(s.licenses, a, b)
  {
    hide After, Reachable, LinksGoBack, OneSuccessor, CustomersAreDistinct, KeysNameTheirCustomer, KeysAreDistinct;
    RegistryIsLinked(s);
    if n > 0 && After(s.licenses, x, x, n) {
      LaterAndOfTheSame(s.licenses, x, x, n);
    }
    if n > 0 && After(s.licenses, a, x, n) {
      LaterAndOfTheSame(s.licenses, a, x, n);
    }
    ShareOneBefore(s.licenses, a, n, b, m, x);
    ShareOneAfter(s.licenses, a, n, b, m, x);
  }

  lemma ShareOneBefore(licenses: map<string, License>, a: string, n: nat, b: string, m: nat, x: string)
    requires OneSuccessor(licenses)
    ensures After(licenses, x, a, n) && After(licenses, x, b, m) ==> OnOneChain(licenses, a, b)
  {
    hide After, OneSuccessor;
    if After(licenses, x, a, n) && After(licenses, x, b, m) {
      if n <= m {
        OneLine(licenses, x, a, n, b, m);
      } else {
        OneLine(licenses, x, b, m, a, n);
      }
    }
  }

  lemma ShareOneAfter(licenses: map<string, License>, a: string, n: nat, b: string, m: nat, x: string)
    ensures After(licenses, a, x, n) && After(licenses, b, x, m) ==> OnOneChain(licenses, a, b)
  {
    hide After;
    if After(licenses, a, x, n) && After(licenses, b, x, m) {
      if n <= m {
        OneLineBack(licenses, a, n, b, m, x);
      } else {
        OneLineBack(licenses, b, m, a, n, x);
      }
    }
  }

  // ---- The end of a chain ----

  lemma {:induction false} ChainEnds(licenses: map<string, License>, start: string, x: string, n: nat)
    returns (end: string, far: nat)
    requires LinksGoBack(licenses) && After(licenses, start, x, n) && start in licenses
    ensures n <= far && IsEnd(licenses, start, end, far)
    decreases |licenses| - n
  {
    hide Succeeds, LinksGoBack;
    LaterAndOfTheSame(licenses, start, x, n);
    RankIsBelow(licenses, x);
    if HasSuccessor(licenses, x) {
      var next :| Succeeds(licenses, next, x);
      assert After(licenses, start, next, n + 1);
      end, far := ChainEnds(licenses, start, next, n + 1);
    } else {
      end, far := x, n;
    }
  }

  lemma RankIsBelow(licenses: map<string, License>, x: string)
    requires LinksGoBack(licenses) && x in licenses
    ensures licenses[x].rank < |licenses|
  {
  }

  // Nothing is farther than the end.
  lemma EndIsFarthest(licenses: map<string, License>, start: string, end: string, far: nat, y: string, m: nat)
    requires OneSuccessor(licenses) && IsEnd(licenses, start, end, far) && After(licenses, start, y, m)
    ensures m <= far
  {
    hide After, OneSuccessor, Succeeds;
    if far < m {
      var z := OnTheWay(licenses, start, y, m, far + 1);
      NextAfter(licenses, start, end, far, z);
    }
  }

  lemma NextAfter(licenses: map<string, License>, start: string, x: string, n: nat, z: string)
    requires OneSuccessor(licenses) && After(licenses, start, x, n) && After(licenses, start, z, n + 1)
    ensures Succeeds(licenses, z, x)
  {
    hide Succeeds, OneSuccessor;
    var p :| After(licenses, start, p, n) && Succeeds(licenses, z, p);
    OneEachFar(licenses, start, x, p, n);
  }

  lemma LatestIsUnique(licenses: map<string, License>, start: string, x: string, n: nat, y: string, m: nat)
    requires OneSuccessor(licenses) && IsLatestAt(licenses, start, x, n) && IsLatestAt(licenses, start, y, m)
    ensures n == m && x == y
  {
    hide After, OneSuccessor;
    OneEachFar(licenses, start, x, y, n);
  }

  // ---- What the walk gives ----

  lemma WithinTheBound(licenses: map<string, License>, start: string, end: string, far: nat)
    requires OneSuccessor(licenses) && IsEnd(licenses, start, end, far) && 1 <= far <= BOUND
    ensures IsLatestAt(licenses, start, end, far)
  {
    hide After, OneSuccessor, HasSuccessor;
    forall y, m: nat | 1 <= m <= BOUND && After(licenses, start, y, m)
      ensures m <= far
    {
      EndIsFarthest(licenses, start, end, far, y, m);
    }
  }

  lemma PastTheBound(licenses: map<string, License>, start: string, end: string, far: nat) returns (x: string)
    requires OneSuccessor(licenses) && IsEnd(licenses, start, end, far) && BOUND < far
    ensures IsLatestAt(licenses, start, x, BOUND) && HasSuccessor(licenses, x)
  {
    hide After, OneSuccessor, Succeeds;
    x := OnTheWay(licenses, start, end, far, BOUND);
    var z := OnTheWay(licenses, start, end, far, BOUND + 1);
    NextAfter(licenses, start, x, BOUND, z);
  }

  lemma IsLatestMeans(licenses: map<string, License>, start: string, x: string, n: nat, y: string, cutShort: bool)
    requires OneSuccessor(licenses) && IsLatestAt(licenses, start, x, n)
    ensures IsLatest(licenses, start, y, cutShort) <==> y == x && cutShort == HasSuccessor(licenses, x)
  {
    hide IsLatestAt, OneSuccessor, HasSuccessor;
    if IsLatest(licenses, start, y, cutShort) {
      var m: nat :| IsLatestAt(licenses, start, y, m);
      LatestIsUnique(licenses, start, x, n, y, m);
    }
  }

  lemma NoSuccessorNoLatest(licenses: map<string, License>, start: string, x: string, cutShort: bool)
    requires !HasSuccessor(licenses, start)
    ensures !IsLatest(licenses, start, x, cutShort)
  {
    if IsLatest(licenses, start, x, cutShort) {
      var n: nat :| IsLatestAt(licenses, start, x, n);
      var y := OnTheWay(licenses, start, x, n, 1);
    }
  }

  // The end of the chain of a recorded license, in every state the registry reaches.
  lemma EveryChainEnds(s: State, start: string) returns (end: string, far: nat)
    requires Reachable(s) && start in s.licenses
    ensures IsEnd(s.licenses, start, end, far)
    ensures far == 0 <==> !HasSuccessor(s.licenses, start)
  {
    hide Reachable, LinksGoBack, OneSuccessor, CustomersAreDistinct, KeysNameTheirCustomer, KeysAreDistinct, Succeeds;
    RegistryIsLinked(s);
    end, far := ChainEnds(s.licenses, start, start, 0);
    if far > 0 {
      var y := OnTheWay(s.licenses, start, end, far, 1);
    }
  }

  // The latest successor of a license is the end of its chain when that end is within the bound, and
  // the walk is cut short exactly when the chain goes on past the bound: what it gives then is the
  // license `BOUND` away. A license at the end of its chain has none.
  lemma LatestIsTheEnd(s: State, start: string, end: string, far: nat, x: string, cutShort: bool)
    requires Reachable(s) && IsEnd(s.licenses, start, end, far)
    ensures IsLatest(s.licenses, start, x, cutShort) <==>
              if far == 0 then false
              else if far <= BOUND then x == end && !cutShort
              else After(s.licenses, start, x, BOUND) && cutShort
  {
    hide Reachable, LinksGoBack, OneSuccessor, CustomersAreDistinct, KeysNameTheirCustomer, KeysAreDistinct, After,
         Farthest, IsLatest, HasSuccessor;
    RegistryIsLinked(s);
    if far == 0 {
      ItsOwnEnd(s.licenses, start, end);
      NoSuccessorNoLatest(s.licenses, start, x, cutShort);
    } else if far <= BOUND {
      WithinTheBound(s.licenses, start, end, far);
      IsLatestMeans(s.licenses, start, end, far, x, cutShort);
    } else {
      var y := PastTheBound(s.licenses, start, end, far);
      IsLatestMeans(s.licenses, start, y, BOUND, x, cutShort);
      if After(s.licenses, start, x, BOUND) {
        OneEachFar(s.licenses, start, x, y, BOUND);
      }
    }
  }

  lemma ItsOwnEnd(licenses: map<string, License>, start: string, end: string)
    requires After(licenses, start, end, 0)
    ensures start == end
  {
  }

  // Every license of a chain that is not the last, and is at most `BOUND` before it, is given that
  // last one.
  lemma MembersAgree(s: State, a: string, b: string, between: nat, end: string, far: nat)
    requires Reachable(s) && After(s.licenses, a, b, between) && IsEnd(s.licenses, b, end, far)
    requires 1 <= far && between + far <= BOUND
    ensures IsLatest(s.licenses, a, end, false) && IsLatest(s.licenses, b, end, false)
  {
    hide Reachable, After, HasSuccessor, IsLatest;
    FartherOn(s.licenses, a, b, end, between, far);
    LatestIsTheEnd(s, a, end, between + far, end, false);
    LatestIsTheEnd(s, b, end, far, end, false);
  }

  // ---- Asking again ----

  lemma {:induction false} AfterStays(s: State, t: State, start: string, x: string, n: nat)
    requires Stays(s, t) && After(s.licenses, start, x, n)
    ensures After(t.licenses, start, x, n)
    decreases n
  {
    hide HasExternalId, Stays, Succeeds;
    if n == 0 {
    } else {
      var y :| After(s.licenses, start, y, n - 1) && Succeeds(s.licenses, x, y);
      AfterStays(s, t, start, y, n - 1);
      LinkStays(s, t, x, y);
    }
  }

  lemma LinkStays(s: State, t: State, x: string, y: string)
    requires Stays(s, t) && Succeeds(s.licenses, x, y)
    ensures Succeeds(t.licenses, x, y)
  {
  }

  // Whatever the registry does in between, an instance that asks again is given the same license or
  // one that follows it.
  lemma AnswersOnlyAdvance(s: State, ops: seq<Op>, start: string, x: string, cut: bool, y: string, cutAfter: bool)
    requires Reachable(Run(s, ops)) && CanRun(s, ops)
    requires IsLatest(s.licenses, start, x, cut) && IsLatest(Run(s, ops).licenses, start, y, cutAfter)
    ensures exists n: nat :: After(Run(s, ops).licenses, x, y, n)
  {
    hide Reachable, Run, CanRun, After, HasSuccessor, Stays, LinksGoBack, OneSuccessor, CustomersAreDistinct,
         KeysNameTheirCustomer, KeysAreDistinct;
    var t := Run(s, ops);
    RunStays(s, ops);
    RegistryIsLinked(t);
    var n: nat :| IsLatestAt(s.licenses, start, x, n);
    var m: nat :| IsLatestAt(t.licenses, start, y, m);
    AfterStays(s, t, start, x, n);
    OneLine(t.licenses, start, x, n, y, m);
  }
}
