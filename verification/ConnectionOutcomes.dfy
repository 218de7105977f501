// What each operation of the connection manager answers and changes, told of what sessions hold and of
// what connections are mapped to, one by one.
module ConnectionOutcomes {
  import opened Wrappers
  import opened Connections

  // Nothing but what session s holds of c in group g may differ.
  ghost predicate OthersHoldTheSame(p: Pool, q: Pool, g: string, s: string, c: string) {
    forall h, t, d :: !(h == g && t == s && d == c) ==>
      (Holds(q.sessions, h, t, d) <==> Holds(p.sessions, h, t, d))
  }

  // Nothing but the client of c in group g may differ.
  ghost predicate OthersAreMappedTheSame(p: Pool, q: Pool, g: string, c: string) {
    forall h, d, client :: !(h == g && d == c) ==> (MappedTo(q, h, d, client) <==> MappedTo(p, h, d, client))
  }

  // ---- A get ----

  // A connection that is there is answered by its client and none is provided; one that is not by a client
  // never provided before, which is then there; and none exactly when the provider is asked and fails. The
  // session holds what is answered.
  ghost predicate GetTells(
    p: Pool, q: Pool, g: string, s: string, c: string, answers: bool, client: Option<Client>)
  {
    && (client.None? <==> !Mapped(p, g, c) && !answers)
    && (client.None? ==> q == p)
    && (client.Some? ==>
          MappedTo(q, g, c, client.value) && Holds(q.sessions, g, s, c)
          && OthersHoldTheSame(p, q, g, s, c) && OthersAreMappedTheSame(p, q, g, c))
    && (Mapped(p, g, c) && client.Some? ==> MappedTo(p, g, c, client.value) && q.provided == p.provided)
    && (!Mapped(p, g, c) && client.Some? ==> client.value == p.provided && q.provided == p.provided + 1)
    && q.closes == p.closes
  }

  lemma BoundMapsTheSame(p: Pool, q: Pool)
    requires q.conns == p.conns
    ensures forall h, d, client :: MappedTo(q, h, d, client) <==> MappedTo(p, h, d, client)
  {
  }

  lemma GetAnswers(p: Pool, g: string, s: string, c: string, answers: bool)
    ensures GetTells(p, Get(p, g, s, c, answers).0, g, s, c, answers, Get(p, g, s, c, answers).1)
  {
    hide Bound, Holds;
    BoundHolds(p.sessions, g, s, c);
    if Mapped(p, g, c) {
      BoundMapsTheSame(p, Get(p, g, s, c, answers).0);
    } else if answers {
      NewIsMapped(p, g, s, c);
    }
  }

  lemma NewIsMapped(p: Pool, g: string, s: string, c: string)
    requires !Mapped(p, g, c)
    ensures var q := Get(p, g, s, c, true).0;
            MappedTo(q, g, c, p.provided) && OthersAreMappedTheSame(p, q, g, c)
  {
    hide Bound, Holds;
  }

  // ---- What is closed ----

  // Every client that is mapped no longer was passed to close once more, and no other.
  ghost predicate ClosesWhatLeaves(p: Pool, q: Pool) {
    && q.provided == p.provided
    && forall client: Client ::
         q.closes[client] == p.closes[client] + if Leaves(p, q, client) then 1 else 0
  }

  ghost predicate Leaves(p: Pool, q: Pool, client: Client) {
    exists g, c :: MappedTo(p, g, c, client) && !Mapped(q, g, c)
  }

  lemma ClosedTells(p: Pool, doomed: set<(string, string)>)
    ensures ClosesWhatLeaves(p, Closed(p, doomed))
    ensures forall g, c, client ::
              MappedTo(Closed(p, doomed), g, c, client) <==> MappedTo(p, g, c, client) && (g, c) !in doomed
  {
    ClosedIsMapped(p, doomed);
    hide Mapped;
    var q := Closed(p, doomed);
    forall client: Client ensures client in Clients(p, doomed) <==> Leaves(p, q, client) {
      if client in Clients(p, doomed) {
        var d := DoomedOf(p, doomed, client);
        assert (d.0, d.1) in doomed;
      }
      if Leaves(p, q, client) {
        var g, c :| MappedTo(p, g, c, client) && !Mapped(q, g, c);
        IsDoomed(p, doomed, g, c);
      }
    }
  }

  // ---- A release ----

  // A session that holds something is released, and holds nothing any more; all others hold what they
  // held. With closing on release what only it held is closed, and without it nothing is.
  ghost predicate ReleaseTells(p: Pool, q: Pool, g: string, s: string, closeOnRelease: bool, released: bool) {
    && (released <==> exists c :: Holds(p.sessions, g, s, c))
    && (!released ==> q == p)
    && (forall h, t, d :: Holds(q.sessions, h, t, d) <==> Holds(p.sessions, h, t, d) && !(h == g && t == s))
    && (forall h, d, client :: MappedTo(q, h, d, client) <==>
          MappedTo(p, h, d, client) && !(closeOnRelease && h == g && OnlyOneHolds(p, g, s, d)))
    && ClosesWhatLeaves(p, q)
  }

  // The session holds it and no other of the group does.
  ghost predicate OnlyOneHolds(p: Pool, g: string, s: string, c: string) {
    forall t :: Holds(p.sessions, g, t, c) <==> t == s
  }

  lemma OnlyHeldByIt(p: Pool, g: string, s: string, h: string, d: string)
    ensures (h, d) in OnlyHeldBy(p, g, s) <==> h == g && OnlyOneHolds(p, g, s, d)
  {
    WithoutHolds(p.sessions, g, s);
    hide Without;
    assert d in HeldBy(p.sessions, g, s) <==> Holds(p.sessions, g, s, d);
  }

  lemma HoldsSome(p: Pool, g: string, s: string)
    ensures HeldBy(p.sessions, g, s) != {} <==> exists c :: Holds(p.sessions, g, s, c)
  {
    if HeldBy(p.sessions, g, s) != {} {
      var c :| c in HeldBy(p.sessions, g, s);
      assert Holds(p.sessions, g, s, c);
    }
  }

  lemma NothingLeaves(p: Pool, q: Pool)
    requires q.conns == p.conns && q.provided == p.provided && q.closes == p.closes
    ensures ClosesWhatLeaves(p, q)
  {
  }

  lemma ReleaseAnswers(p: Pool, g: string, s: string, closeOnRelease: bool)
    ensures ReleaseTells(p, Release(p, g, s, closeOnRelease).0, g, s, closeOnRelease,
                         Release(p, g, s, closeOnRelease).1)
  {
    hide Holds, Without, HeldBy, OnlyHeldBy, OnlyOneHolds, Mapped, ClosesWhatLeaves, Closed;
    HoldsSome(p, g, s);
    WithoutHolds(p.sessions, g, s);
    forall h, d ensures (h, d) in OnlyHeldBy(p, g, s) <==> h == g && OnlyOneHolds(p, g, s, d) {
      OnlyHeldByIt(p, g, s, h, d);
    }
    if HeldBy(p.sessions, g, s) == {} {
      NothingLeaves(p, p);
      NothingHeldAlone(p, g, s);
    } else {
      var without := p.(sessions := Without(p.sessions, g, s));
      SameMaps(p, without);
      NothingLeaves(p, without);
      ClosedTells(without, OnlyHeldBy(p, g, s));
      ClosedKeepsSessions(without, OnlyHeldBy(p, g, s));
      LeavesTheSame(p, without, Closed(without, OnlyHeldBy(p, g, s)));
    }
  }

  lemma NothingHeldAlone(p: Pool, g: string, s: string)
    requires forall c :: !Holds(p.sessions, g, s, c)
    ensures forall c :: !OnlyOneHolds(p, g, s, c)
  {
    forall c ensures !OnlyOneHolds(p, g, s, c) {
      assert !Holds(p.sessions, g, s, c);
    }
  }

  lemma SameMaps(p: Pool, q: Pool)
    requires q.conns == p.conns
    ensures forall h, d, client :: MappedTo(q, h, d, client) <==> MappedTo(p, h, d, client)
  {
  }

  lemma LeavesTheSame(p: Pool, without: Pool, q: Pool)
    requires without.conns == p.conns && without.provided == p.provided && without.closes == p.closes
    requires ClosesWhatLeaves(without, q)
    ensures ClosesWhatLeaves(p, q)
  {
    forall client: Client ensures Leaves(p, q, client) <==> Leaves(without, q, client) {
      if g, c :| MappedTo(p, g, c, client) && !Mapped(q, g, c) {
        assert MappedTo(without, g, c, client);
      }
      if g, c :| MappedTo(without, g, c, client) && !Mapped(q, g, c) {
        assert MappedTo(p, g, c, client);
      }
    }
  }

  // ---- The reaper and the hard close ----

  // Exactly what no session holds is closed.
  ghost predicate ReapTells(p: Pool, q: Pool) {
    && q.sessions == p.sessions && ClosesWhatLeaves(p, q)
    && forall g, c, client ::
         MappedTo(q, g, c, client) <==> MappedTo(p, g, c, client) && exists s :: Holds(p.sessions, g, s, c)
  }

  lemma UnusedAre(p: Pool, g: string, c: string)
    ensures (g, c) in Unused(p) <==> Mapped(p, g, c) && !exists s :: Holds(p.sessions, g, s, c)
  {
    hide Holds;
    assert (g, c) in AllMapped(p) <==> Mapped(p, g, c);
  }

  lemma ReapAnswers(p: Pool)
    ensures ReapTells(p, Reaped(p))
  {
    hide Holds, Unused, Closed, ClosesWhatLeaves;
    ClosedTells(p, Unused(p));
    ClosedKeepsSessions(p, Unused(p));
    forall g, c ensures (g, c) in Unused(p) <==> Mapped(p, g, c) && !exists s :: Holds(p.sessions, g, s, c) {
      UnusedAre(p, g, c);
    }
  }

  // Nothing is held nor mapped, and what was mapped was closed.
  ghost predicate HardCloseTells(p: Pool, q: Pool) {
    && (forall g, s, c :: !Holds(q.sessions, g, s, c)) && (forall g, c :: !Mapped(q, g, c))
    && ClosesWhatLeaves(p, q)
  }

  lemma HardCloseAnswers(p: Pool)
    ensures HardCloseTells(p, HardClosed(p))
  {
    hide Closed, ClosesWhatLeaves;
    var closed := Closed(p, AllMapped(p));
    ClosedTells(p, AllMapped(p));
    forall g, c ensures !Mapped(closed, g, c) {
      assert (g, c) in AllMapped(p) <==> Mapped(p, g, c);
      assert Mapped(closed, g, c) ==> MappedTo(closed, g, c, closed.conns[g][c]);
    }
    SameMaps(closed, HardClosed(p));
    SameLeft(p, closed, HardClosed(p));
  }

  lemma SameLeft(p: Pool, q: Pool, r: Pool)
    requires r.conns == q.conns && r.provided == q.provided && r.closes == q.closes && ClosesWhatLeaves(p, q)
    ensures ClosesWhatLeaves(p, r)
    ensures forall g, c :: Mapped(r, g, c) <==> Mapped(q, g, c)
  {
    forall client: Client ensures Leaves(p, r, client) <==> Leaves(p, q, client) {
      if g, c :| MappedTo(p, g, c, client) && !Mapped(r, g, c) {
        assert !Mapped(q, g, c);
      }
      if g, c :| MappedTo(p, g, c, client) && !Mapped(q, g, c) {
        assert !Mapped(r, g, c);
      }
    }
  }
}
