// The connection manager. Each method is one critical section: it holds the mutex from its first
// line to its last.
module ConnectionManager {
  import opened Wrappers
  import opened Connections
  import opened ConnectionOutcomes

  ghost function Pairs(g: string, cs: set<string>): set<(string, string)> {
    set c | c in cs :: (g, c)
  }

  // ---- Closing the connections of one group, one after the other ----

  // Some connections of a group closed, the group itself still there.
  ghost function Partly(p: Pool, g: string, done: set<string>): Pool
    requires g in p.conns
  {
    p.(conns := p.conns[g := p.conns[g] - done],
       closes := p.closes + multiset(Clients(p, Pairs(g, done))))
  }

  lemma PartlyStarts(p: Pool, g: string)
    requires g in p.conns
    ensures Partly(p, g, {}) == p
  {
    assert p.conns[g] - {} == p.conns[g];
    assert p.conns[g := p.conns[g]] == p.conns;
    assert Clients(p, Pairs(g, {})) == {};
  }

  lemma ClientsOfOneMore(p: Pool, g: string, done: set<string>, c: string)
    requires MappedAreOpen(p) && Mapped(p, g, c) && c !in done
    ensures p.conns[g][c] !in Clients(p, Pairs(g, done))
    ensures Clients(p, Pairs(g, done + {c})) == Clients(p, Pairs(g, done)) + {p.conns[g][c]}
  {
    var client := p.conns[g][c];
    if client in Clients(p, Pairs(g, done)) {
      var d := DoomedOf(p, Pairs(g, done), client);
    }
    assert Pairs(g, done + {c}) == Pairs(g, done) + {(g, c)};
    IsDoomed(p, Pairs(g, done + {c}), g, c);
  }

  lemma PartlyStep(p: Pool, g: string, done: set<string>, c: string)
    requires MappedAreOpen(p) && Mapped(p, g, c) && c !in done
    ensures Partly(p, g, done + {c}).conns == p.conns[g := p.conns[g] - done - {c}]
    ensures Partly(p, g, done + {c}).closes == Partly(p, g, done).closes + multiset{p.conns[g][c]}
  {
    PartlyStepCloses(p, g, done, c);
    assert p.conns[g] - (done + {c}) == p.conns[g] - done - {c};
    hide MappedAreOpen, Pairs, Clients;
  }

  lemma PartlyStepCloses(p: Pool, g: string, done: set<string>, c: string)
    requires MappedAreOpen(p) && Mapped(p, g, c) && c !in done
    ensures Partly(p, g, done + {c}).closes == Partly(p, g, done).closes + multiset{p.conns[g][c]}
  {
    ClientsOfOneMore(p, g, done, c);
    AddedOnce(Clients(p, Pairs(g, done)), p.conns[g][c]);
    hide MappedAreOpen, Pairs, Clients;
  }

  lemma OneMoreClosed(p: Pool, g: string, done: set<string>, c: string, before: Pool, after: Pool)
    requires MappedAreOpen(p) && g in p.conns && c !in done
    requires before == Partly(p, g, done) && Mapped(before, g, c)
    requires after == before.(conns := before.conns[g := before.conns[g] - {c}],
                              closes := before.closes + multiset{before.conns[g][c]})
    ensures after == Partly(p, g, done + {c})
  {
    PartlyStep(p, g, done, c);
    var left := p.conns[g] - done;
    assert before.conns == p.conns[g := left];
    SetTwice(p.conns, g, left, left - {c});
    hide MappedAreOpen, Pairs, Clients;
  }

  lemma SetTwice(conns: Conns, g: string, first: map<string, Client>, second: map<string, Client>)
    ensures conns[g := first][g := second] == conns[g := second]
  {
  }

  // The candidates dealt with so far, one more of them, and all of them.
  ghost function Dealt(candidates: set<string>, todo: set<string>, remaining: set<string>): set<string> {
    (candidates - todo) - remaining
  }

  lemma OneMoreDealt(candidates: set<string>, todo: set<string>, remaining: set<string>, c: string)
    requires todo <= candidates && c in todo
    ensures Dealt(candidates, todo - {c}, remaining) ==
            if c in remaining then Dealt(candidates, todo, remaining) else Dealt(candidates, todo, remaining) + {c}
    ensures c !in Dealt(candidates, todo, remaining)
  {
  }

  lemma AllDealt(candidates: set<string>, remaining: set<string>)
    ensures Dealt(candidates, {}, remaining) == candidates - remaining
    ensures Dealt(candidates, candidates, remaining) == {}
  {
  }

  lemma AddedOnce(clients: set<Client>, client: Client)
    requires client !in clients
    ensures multiset(clients + {client}) == multiset(clients) + multiset{client}
  {
  }

  lemma PartlyOfAbsent(p: Pool, g: string, done: set<string>, c: string)
    requires g in p.conns && !Mapped(p, g, c)
    ensures Partly(p, g, done + {c}) == Partly(p, g, done)
  {
    assert p.conns[g] - (done + {c}) == p.conns[g] - done;
    var all, before := Pairs(g, done + {c}), Pairs(g, done);
    assert forall d :: d in all && Mapped(p, d.0, d.1) ==> d in before;
    assert forall d :: d in before ==> d in all;
    assert Clients(p, all) == Clients(p, before);
  }

  // What is left of each group, and the groups left without a connection removed.
  lemma ConnsOfClosed(p: Pool, doomed: set<(string, string)>, conns: Conns)
    requires forall g :: g in conns <==> g in p.conns && LeftOf(p, g, doomed) != map[]
    requires forall g :: g in conns ==> conns[g] == LeftOf(p, g, doomed)
    ensures Closed(p, doomed).conns == conns
  {
    hide LeftOf;
  }

  // The group removed when it is left without a connection.
  lemma PartlyEnds(p: Pool, g: string, done: set<string>)
    requires NothingEmpty(p) && g in p.conns
    ensures var q := Partly(p, g, done);
            Closed(p, Pairs(g, done)) == if q.conns[g] == map[] then q.(conns := q.conns - {g}) else q
  {
    hide LeftOf, Pairs, Clients;
    var q := Partly(p, g, done);
    var conns := if q.conns[g] == map[] then q.conns - {g} else q.conns;
    forall h | h in p.conns
      ensures LeftOf(p, h, Pairs(g, done)) == q.conns[h]
    {
      if h == g {
        LeftOfTheGroup(p, g, done);
      } else {
        LeftOfAnother(p, g, done, h);
      }
    }
    ConnsOfClosed(p, Pairs(g, done), conns);
  }

  lemma LeftOfTheGroup(p: Pool, g: string, done: set<string>)
    requires g in p.conns
    ensures LeftOf(p, g, Pairs(g, done)) == p.conns[g] - done
  {
    forall c ensures (g, c) in Pairs(g, done) <==> c in done {
    }
  }

  lemma LeftOfAnother(p: Pool, g: string, done: set<string>, h: string)
    requires h in p.conns && h != g
    ensures LeftOf(p, h, Pairs(g, done)) == p.conns[h]
  {
  }

  lemma NothingToClose(p: Pool, g: string, done: set<string>)
    requires NothingEmpty(p) && g !in p.conns
    ensures Closed(p, Pairs(g, done)) == p
  {
    forall h | h in p.conns ensures LeftOf(p, h, Pairs(g, done)) == p.conns[h] {
      LeftOfAnother(p, g, done, h);
    }
    assert Clients(p, Pairs(g, done)) == {};
    hide LeftOf;
    assert Closed(p, Pairs(g, done)).conns == p.conns;
  }

  // ---- Closing in several times ----

  lemma ClientsOfTwo(p: Pool, a: set<(string, string)>, b: set<(string, string)>)
    requires MappedAreOpen(p) && a !! b
    ensures Clients(p, a) !! Clients(p, b) && Clients(p, a + b) == Clients(p, a) + Clients(p, b)
  {
    forall client | client in Clients(p, a) ensures client !in Clients(p, b) {
      var d := DoomedOf(p, a, client);
      if client in Clients(p, b) {
        var e := DoomedOf(p, b, client);
      }
    }
  }

  lemma ClientsOfTheRest(p: Pool, a: set<(string, string)>, b: set<(string, string)>)
    requires a !! b
    ensures Clients(Closed(p, a), b) == Clients(p, b)
  {
    ClosedIsMapped(p, a);
    hide Closed;
    var q := Closed(p, a);
    forall client | client in Clients(p, b) ensures client in Clients(q, b) {
      var d := DoomedOf(p, b, client);
      IsDoomed(q, b, d.0, d.1);
    }
  }

  lemma ClosedTwice(p: Pool, a: set<(string, string)>, b: set<(string, string)>)
    requires MappedAreOpen(p) && a !! b
    ensures Closed(Closed(p, a), b) == Closed(p, a + b)
  {
    ClientsOfTwo(p, a, b);
    ClientsOfTheRest(p, a, b);
    assert multiset(Clients(p, a) + Clients(p, b)) == multiset(Clients(p, a)) + multiset(Clients(p, b));
    SameConns(p, a, b);
  }

  // What is left of a group after closing twice.
  lemma LeftTwice(p: Pool, a: set<(string, string)>, b: set<(string, string)>, g: string)
    requires g in Closed(p, a).conns
    ensures g in p.conns && LeftOf(Closed(p, a), g, b) == LeftOf(p, g, a + b)
  {
    assert Closed(p, a).conns[g] == LeftOf(p, g, a);
  }

  lemma NothingLeftOnce(p: Pool, a: set<(string, string)>, b: set<(string, string)>, g: string)
    requires g in p.conns && g !in Closed(p, a).conns
    ensures LeftOf(p, g, a + b) == map[]
  {
    assert LeftOf(p, g, a) == map[];
    assert LeftOf(p, g, a + b).Keys <= LeftOf(p, g, a).Keys;
  }

  lemma SameConns(p: Pool, a: set<(string, string)>, b: set<(string, string)>)
    ensures Closed(Closed(p, a), b).conns == Closed(p, a + b).conns
  {
    hide LeftOf, Clients;
    var q := Closed(p, a);
    var conns := Closed(q, b).conns;
    forall g | g in q.conns
      ensures g in p.conns && LeftOf(q, g, b) == LeftOf(p, g, a + b)
    {
      LeftTwice(p, a, b, g);
    }
    forall g | g in p.conns && g !in q.conns
      ensures LeftOf(p, g, a + b) == map[]
    {
      NothingLeftOnce(p, a, b, g);
    }
    ConnsOfClosed(p, a + b, conns);
  }

  // ---- The manager ----

  lemma MappedOpen(p: Pool)
    requires Inv(p)
    ensures MappedAreOpen(p) && NothingEmpty(p)
  {
  }

  lemma MappedIsThere(p: Pool, g: string, c: string)
    ensures Mapped(p, g, c) <==> g in p.conns && c in p.conns[g]
  {
  }

  lemma GetFails(p: Pool, g: string, s: string, c: string)
    requires !Mapped(p, g, c)
    ensures Get(p, g, s, c, false) == (p, None)
  {
  }

  class Manager {
    const closeOnRelease: bool

    // Per group and session, the connections held.
    var groupSessionMap: Sessions

    // Per group and connection, the client.
    var groupConnMap: Conns

    // How many clients the provider has returned, which names the next one.
    var provided: nat

    // How many times each client was passed to close.
    ghost var closes: multiset<Client>

    ghost function State(): Pool
      reads this
    {
      Pool(groupSessionMap, groupConnMap, provided, closes)
    }

    ghost predicate Valid()
      reads this
    {
      Inv(State())
    }

    constructor (closeOnRelease: bool)
      ensures this.closeOnRelease == closeOnRelease
      ensures Valid() && State() == Empty
    {
      this.closeOnRelease := closeOnRelease;
      groupSessionMap := map[];
      groupConnMap := map[];
      provided := 0;
      closes := multiset{};
    }

    // The provider is asked for a client, and returns one unless it fails.
    method GetConnectionClient(answers: bool) returns (client: Option<Client>)
      modifies this`provided
      ensures answers ==> client == Some(old(provided)) && provided == old(provided) + 1
      ensures !answers ==> client == None && provided == old(provided)
    {
      if !answers {
        return None;
      }
      client := Some(provided);
      provided := provided + 1;
    }

    // Closing may fail: the error is logged, and changes nothing here.
    method CloseClientConnection(client: Client)
      modifies this`closes
      ensures closes == old(closes) + multiset{client}
    {
      closes := closes + multiset{client};
    }

    method EnsureSessionMapsExist(g: string, s: string)
      modifies this`groupSessionMap
      ensures g in groupSessionMap && s in groupSessionMap[g]
      ensures groupSessionMap ==
              old(groupSessionMap)[g := SessionsOf(old(groupSessionMap), g)[s := HeldBy(old(groupSessionMap), g, s)]]
    {
      if g !in groupSessionMap {
        groupSessionMap := groupSessionMap[g := map[]];
      }
      if s !in groupSessionMap[g] {
        groupSessionMap := groupSessionMap[g := groupSessionMap[g][s := {}]];
      }
      assert groupSessionMap[g] == SessionsOf(old(groupSessionMap), g)[s := HeldBy(old(groupSessionMap), g, s)];
    }

    // A session is bound to a connection.
    method Bind(g: string, s: string, c: string)
      modifies this`groupSessionMap
      ensures groupSessionMap == Bound(old(groupSessionMap), g, s, c)
    {
      ghost var before := groupSessionMap;
      EnsureSessionMapsExist(g, s);
      groupSessionMap := groupSessionMap[g := groupSessionMap[g][s := groupSessionMap[g][s] + {c}]];
      BoundInSteps(before, groupSessionMap, g, s, c);
    }

    // The connection is there: its client is shared.
    method ShareConnection(g: string, s: string, c: string, ghost answers: bool) returns (client: Option<Client>)
      requires g in groupConnMap && c in groupConnMap[g]
      modifies this`groupSessionMap
      ensures (State(), client) == Get(old(State()), g, s, c, answers)
    {
      hide Bound, ConnsOf;
      Bind(g, s, c);
      client := Some(groupConnMap[g][c]);
    }

    // The connection is new: it is there from the moment the provider returns its client.
    method AddConnection(g: string, s: string, c: string, ghost p: Pool, client: Client)
      requires !Mapped(p, g, c) && client == p.provided && State() == p.(provided := p.provided + 1)
      modifies this`groupSessionMap, this`groupConnMap
      ensures (State(), Some(client)) == Get(p, g, s, c, true)
    {
      hide Mapped, Bound, ConnsOf;
      Bind(g, s, c);
      Store(g, c, client);
    }

    // The client of a connection in the group of the session: the one that is there, or a new one.
    method GetConnection(g: string, s: string, c: string, answers: bool) returns (client: Option<Client>)
      requires Valid()
      modifies this
      ensures (State(), client) == Get(old(State()), g, s, c, answers)
      ensures GetTells(old(State()), State(), g, s, c, answers, client)
      ensures Valid()
    {
      hide Inv, Get, Mapped, GetTells;
      ghost var before := State();
      GetAnswers(before, g, s, c, answers);
      GetKeeps(before, g, s, c, answers);
      MappedIsThere(before, g, c);
      if g in groupConnMap {
        if c in groupConnMap[g] {
          client := ShareConnection(g, s, c, answers);
          return;
        }
      }
      client := GetConnectionClient(answers);
      if client.None? {
        GetFails(before, g, s, c);
        return;
      }
      AddConnection(g, s, c, before, client.value);
    }

    method Store(g: string, c: string, client: Client)
      modifies this`groupConnMap
      ensures groupConnMap == old(groupConnMap)[g := ConnsOf(old(groupConnMap), g)[c := client]]
    {
      if g !in groupConnMap {
        groupConnMap := groupConnMap[g := map[]];
      }
      var groupConns: map<string, Client> := groupConnMap[g];
      groupConns := groupConns[c := client];
      groupConnMap := groupConnMap[g := groupConns];
    }

    // ---- Release ----

    // The connections held by the sessions of a group.
    method UniqueConnectionIds(sessions: map<string, set<string>>) returns (ids: set<string>)
      ensures forall c :: c in ids <==> exists s :: s in sessions && c in sessions[s]
    {
      ids := {};
      var todo := sessions.Keys;
      while todo != {}
        invariant todo <= sessions.Keys
        invariant forall c :: c in ids <==> exists s :: s in sessions && s !in todo && c in sessions[s]
      {
        var s :| s in todo;
        todo := todo - {s};
        ids := ids + sessions[s];
      }
    }

    // Closes the candidates of a group that are not among the connections that remain.
    method CloseSpecificGroupConnections(g: string, candidates: set<string>, remaining: set<string>)
      requires MappedAreOpen(State()) && NothingEmpty(State())
      modifies this`groupConnMap, this`closes
      ensures State() == Closed(old(State()), Pairs(g, candidates - remaining))
    {
      hide MappedAreOpen, NothingEmpty, Closed, Partly, Pairs, Dealt;
      ghost var p := State();
      AllDealt(candidates, remaining);
      if g !in groupConnMap {
        NothingToClose(p, g, candidates - remaining);
        return;
      }
      PartlyStarts(p, g);
      var todo := candidates;
      while todo != {}
        invariant todo <= candidates && g in p.conns && g in groupConnMap
        invariant State() == Partly(p, g, Dealt(candidates, todo, remaining))
        modifies this`groupConnMap, this`closes
      {
        var c :| c in todo;
        OneMoreDealt(candidates, todo, remaining, c);
        if c !in remaining {
          CloseIfThere(g, c, p, Dealt(candidates, todo, remaining));
        }
        todo := todo - {c};
      }
      RemoveIfEmpty(g, p, candidates - remaining);
    }

    // An empty map is not kept under the group.
    method RemoveIfEmpty(g: string, ghost p: Pool, ghost done: set<string>)
      requires NothingEmpty(p) && g in p.conns && g in groupConnMap && State() == Partly(p, g, done)
      modifies this`groupConnMap
      ensures State() == Closed(p, Pairs(g, done))
    {
      PartlyEnds(p, g, done);
      hide NothingEmpty, Closed, Pairs, Partly;
      if groupConnMap[g] == map[] {
        groupConnMap := groupConnMap - {g};
      }
    }

    // A connection of the group is closed and deleted, if it is there.
    method CloseIfThere(g: string, c: string, ghost p: Pool, ghost done: set<string>)
      requires MappedAreOpen(p) && g in p.conns && c !in done
      requires State() == Partly(p, g, done) && g in groupConnMap
      modifies this`groupConnMap, this`closes
      ensures State() == Partly(p, g, done + {c}) && g in groupConnMap
    {
      ghost var before := State();
      if c in groupConnMap[g] {
        hide MappedAreOpen, Partly;
        CloseClientConnection(groupConnMap[g][c]);
        groupConnMap := groupConnMap[g := groupConnMap[g] - {c}];
        OneMoreClosed(p, g, done, c, before, State());
      } else {
        PartlyOfAbsent(p, g, done, c);
      }
    }

    // A session is released: it holds nothing any more. With closing on release, what no other
    // session of the group holds is closed.
    method ReleaseSession(g: string, s: string) returns (released: bool)
      requires Valid()
      modifies this
      ensures (State(), released) == Release(old(State()), g, s, closeOnRelease)
      ensures ReleaseTells(old(State()), State(), g, s, closeOnRelease, released)
      ensures Valid()
    {
      hide ReleaseTells;
      ghost var p := State();
      ReleaseAnswers(p, g, s, closeOnRelease);
      ReleaseKeeps(p, g, s, closeOnRelease);
      WithoutKeeps(p, g, s);
      MappedOpen(p.(sessions := Without(p.sessions, g, s)));
      hide Inv, MappedAreOpen, NothingEmpty, Closed, Pairs, OnlyHeldBy;
      if g !in groupSessionMap {
        return false;
      }
      var groupSessions := groupSessionMap[g];
      if s !in groupSessions || groupSessions[s] == {} {
        return false;
      }
      var sessionConnIds := groupSessions[s];
      groupSessions := groupSessions - {s};
      groupSessionMap := groupSessionMap[g := groupSessions];
      if groupSessions == map[] {
        groupSessionMap := groupSessionMap - {g};
      }
      WithoutInSteps(p.sessions, groupSessionMap, g, s);
      if closeOnRelease {
        var remainingConns := UniqueConnectionIds(groupSessions);
        RemainingAreUsed(p, g, s, groupSessions, remainingConns);
        CloseSpecificGroupConnections(g, sessionConnIds, remainingConns);
      }
      return true;
    }

    // ---- The reaper ----

    // What the sessions of each group hold.
    method ConnectionsOfSessions() returns (held: map<string, set<string>>)
      ensures held.Keys == groupSessionMap.Keys
      ensures forall g, c :: g in held ==> (c in held[g] <==> Used(groupSessionMap, g, c))
    {
      held := map[];
      var todo := groupSessionMap.Keys;
      while todo != {}
        invariant todo <= groupSessionMap.Keys && held.Keys == groupSessionMap.Keys - todo
        invariant forall g, c :: g in held ==> (c in held[g] <==> Used(groupSessionMap, g, c))
      {
        var g :| g in todo;
        todo := todo - {g};
        var ids := UniqueConnectionIds(groupSessionMap[g]);
        IdsAreUsed(groupSessionMap, g, ids);
        held := held[g := ids];
      }
    }

    // The connections of a group that its sessions do not hold are closed.
    method CleanGroup(g: string, sessionConns: set<string>, ghost p: Pool, ghost done: set<string>)
      requires Inv(p) && g in p.conns && g !in done
      requires forall c :: c in sessionConns <==> Used(p.sessions, g, c)
      requires State() == Closed(p, UnusedOf(p, done))
      modifies this`groupConnMap, this`closes
      ensures State() == Closed(p, UnusedOf(p, done + {g}))
    {
      UnusedOfOneMore(p, done, g, sessionConns);
      hide Inv, MappedAreOpen, NothingEmpty, Closed, Pairs, UnusedOf;
      CloseSpecificGroupConnections(g, groupConnMap[g].Keys, sessionConns);
    }

    // A cycle of the reaper: what no session holds is closed.
    method CleanUnusedConnections()
      requires Valid()
      modifies this
      ensures State() == Reaped(old(State())) && ReapTells(old(State()), State())
      ensures Valid() && NoneIsUnused(State())
    {
      hide ReapTells, Inv, Closed, UnusedOf, Reaped, NoneIsUnused, Used;
      ghost var p := State();
      ReapKeeps(p);
      ReapAnswers(p);
      var held := ConnectionsOfSessions();
      NoneUsedElsewhere(p.sessions);
      var todo := groupConnMap.Keys;
      ghost var done: set<string> := {};
      UnusedOfNone(p);
      while todo != {}
        invariant todo !! done && todo + done == p.conns.Keys
        invariant State() == Closed(p, UnusedOf(p, done))
        modifies this`groupConnMap, this`closes
      {
        var g :| g in todo;
        todo := todo - {g};
        var sessionConns := if g in held then held[g] else {};
        CleanGroup(g, sessionConns, p, done);
        done := done + {g};
      }
      UnusedOfAll(p, done);
    }

    // ---- The hard close ----

    // Every connection of a group is closed.
    method CloseGroup(g: string, ghost p: Pool, ghost done: set<string>)
      requires Inv(p) && g in p.conns && g !in done
      requires State() == Closed(p, MappedOf(p, done))
      modifies this`groupConnMap, this`closes
      ensures State() == Closed(p, MappedOf(p, done + {g}))
    {
      MappedOfOneMore(p, done, g);
      hide Inv, MappedAreOpen, NothingEmpty, Closed, Pairs, MappedOf;
      CloseSpecificGroupConnections(g, groupConnMap[g].Keys, {});
    }

    // Everything is closed, and no session is left.
    method HardClose()
      requires Valid()
      modifies this
      ensures State() == HardClosed(old(State())) && HardCloseTells(old(State()), State())
      ensures Valid() && groupSessionMap == map[] && groupConnMap == map[]
    {
      hide HardCloseTells, Inv, Closed, MappedOf, HardClosed;
      ghost var p := State();
      HardCloseClosesAll(p);
      HardCloseAnswers(p);
      var todo := groupConnMap.Keys;
      ghost var done: set<string> := {};
      MappedOfNone(p);
      while todo != {}
        invariant todo !! done && todo + done == p.conns.Keys
        invariant State() == Closed(p, MappedOf(p, done))
        modifies this`groupConnMap, this`closes
      {
        var g :| g in todo;
        todo := todo - {g};
        CloseGroup(g, p, done);
        done := done + {g};
      }
      MappedOfAll(p, done);
      groupSessionMap := map[];
    }
  }

  lemma NoneUsedElsewhere(sessions: Sessions)
    ensures forall g, c :: Used(sessions, g, c) ==> g in sessions
  {
  }

  lemma BoundInSteps(before: Sessions, after: Sessions, g: string, s: string, c: string)
    requires var ensured := before[g := SessionsOf(before, g)[s := HeldBy(before, g, s)]];
             after == ensured[g := ensured[g][s := ensured[g][s] + {c}]]
    ensures after == Bound(before, g, s, c)
  {
    var held := SessionsOf(before, g);
    assert held[s := HeldBy(before, g, s)][s := HeldBy(before, g, s) + {c}] == held[s := HeldBy(before, g, s) + {c}];
  }

  lemma WithoutInSteps(before: Sessions, after: Sessions, g: string, s: string)
    requires g in before && s in before[g]
    requires var left := before[g] - {s};
             after == if left == map[] then before[g := left] - {g} else before[g := left]
    ensures after == Without(before, g, s)
  {
    var left := before[g] - {s};
    assert before[g := left] - {g} == before - {g};
  }

  lemma RemainingAreUsed(p: Pool, g: string, s: string, left: map<string, set<string>>, remaining: set<string>)
    requires g in p.sessions && s in p.sessions[g] && left == p.sessions[g] - {s}
    requires forall c :: c in remaining <==> exists t :: t in left && c in left[t]
    ensures Pairs(g, p.sessions[g][s] - remaining) == OnlyHeldBy(p, g, s)
  {
    WithoutHolds(p.sessions, g, s);
    var after := Without(p.sessions, g, s);
    forall c ensures c in remaining <==> Used(after, g, c) {
      if c in remaining {
        var t :| t in left && c in left[t];
        assert Holds(after, g, t, c);
      }
      if Used(after, g, c) {
        var t :| Holds(after, g, t, c);
        assert t in left && c in left[t];
      }
    }
    hide Used, Without;
  }

  lemma IdsAreUsed(sessions: Sessions, g: string, ids: set<string>)
    requires g in sessions
    requires forall c :: c in ids <==> exists s :: s in sessions[g] && c in sessions[g][s]
    ensures forall c :: c in ids <==> Used(sessions, g, c)
  {
    forall c ensures c in ids <==> Used(sessions, g, c) {
      if c in ids {
        var s :| s in sessions[g] && c in sessions[g][s];
        assert Holds(sessions, g, s, c);
      }
      if Used(sessions, g, c) {
        var s :| Holds(sessions, g, s, c);
      }
    }
  }

  // ---- The groups dealt with so far ----

  ghost function UnusedOf(p: Pool, groups: set<string>): set<(string, string)> {
    set d | d in Unused(p) && d.0 in groups
  }

  ghost function MappedOf(p: Pool, groups: set<string>): set<(string, string)> {
    set d | d in AllMapped(p) && d.0 in groups
  }

  lemma ClosedOfNone(p: Pool)
    requires NothingEmpty(p)
    ensures Closed(p, {}) == p
  {
    forall g | g in p.conns ensures LeftOf(p, g, {}) == p.conns[g] {
    }
    assert Clients(p, {}) == {};
    hide LeftOf;
    assert Closed(p, {}).conns == p.conns;
  }

  lemma UnusedOfNone(p: Pool)
    requires Inv(p)
    ensures p == Closed(p, UnusedOf(p, {}))
  {
    assert UnusedOf(p, {}) == {};
    ClosedOfNone(p);
  }

  lemma MappedOfNone(p: Pool)
    requires Inv(p)
    ensures p == Closed(p, MappedOf(p, {}))
  {
    assert MappedOf(p, {}) == {};
    ClosedOfNone(p);
  }

  // A group none of whose connections was closed is as it was.
  lemma UntouchedGroup(p: Pool, doomed: set<(string, string)>, g: string)
    requires NothingEmpty(p) && g in p.conns && forall d :: d in doomed ==> d.0 != g
    ensures g in Closed(p, doomed).conns && Closed(p, doomed).conns[g] == p.conns[g]
  {
    assert LeftOf(p, g, doomed) == p.conns[g];
  }

  lemma UnusedOfOneMore(p: Pool, groups: set<string>, g: string, held: set<string>)
    requires Inv(p) && g in p.conns && g !in groups
    requires forall c :: c in held <==> Used(p.sessions, g, c)
    ensures var q := Closed(p, UnusedOf(p, groups));
            && MappedAreOpen(q) && NothingEmpty(q) && g in q.conns
            && Closed(q, Pairs(g, q.conns[g].Keys - held)) == Closed(p, UnusedOf(p, groups + {g}))
  {
    var doomed, more := UnusedOf(p, groups), Pairs(g, p.conns[g].Keys - held);
    ClosedClients(p, doomed);
    ClosedIsNotEmpty(p, doomed);
    UntouchedGroup(p, doomed, g);
    UnusedOfAGroup(p, groups, g, held);
    hide Closed, UnusedOf, Pairs, NothingEmpty, NoneIsLost, HeldAreMapped, MappedAreOpen;
    ClosedTwice(p, doomed, more);
  }

  lemma UnusedOfAGroup(p: Pool, groups: set<string>, g: string, held: set<string>)
    requires g in p.conns && g !in groups
    requires forall c :: c in held <==> Used(p.sessions, g, c)
    ensures var more := Pairs(g, p.conns[g].Keys - held);
            UnusedOf(p, groups) !! more && UnusedOf(p, groups + {g}) == UnusedOf(p, groups) + more
  {
    hide Used;
    var more := Pairs(g, p.conns[g].Keys - held);
    forall d ensures d in more <==> d in Unused(p) && d.0 == g {
      if d in Unused(p) && d.0 == g {
        assert d == (g, d.1) && d.1 in p.conns[g].Keys - held;
      }
    }
  }

  lemma MappedOfOneMore(p: Pool, groups: set<string>, g: string)
    requires Inv(p) && g in p.conns && g !in groups
    ensures var q := Closed(p, MappedOf(p, groups));
            && MappedAreOpen(q) && NothingEmpty(q) && g in q.conns
            && Closed(q, Pairs(g, q.conns[g].Keys - {})) == Closed(p, MappedOf(p, groups + {g}))
  {
    var doomed, more := MappedOf(p, groups), Pairs(g, p.conns[g].Keys - {});
    ClosedClients(p, doomed);
    ClosedIsNotEmpty(p, doomed);
    UntouchedGroup(p, doomed, g);
    MappedOfAGroup(p, groups, g);
    hide Closed, MappedOf, Pairs, NothingEmpty, NoneIsLost, HeldAreMapped, MappedAreOpen;
    ClosedTwice(p, doomed, more);
  }

  lemma MappedOfAGroup(p: Pool, groups: set<string>, g: string)
    requires g in p.conns && g !in groups
    ensures var more := Pairs(g, p.conns[g].Keys - {});
            MappedOf(p, groups) !! more && MappedOf(p, groups + {g}) == MappedOf(p, groups) + more
  {
    var more := Pairs(g, p.conns[g].Keys - {});
    forall d ensures d in more <==> d in AllMapped(p) && d.0 == g {
      if d in AllMapped(p) && d.0 == g {
        assert d == (g, d.1) && d.1 in p.conns[g].Keys - {};
      }
    }
  }

  lemma UnusedOfAll(p: Pool, groups: set<string>)
    requires groups == p.conns.Keys
    ensures Closed(p, UnusedOf(p, groups)) == Reaped(p)
  {
    assert UnusedOf(p, groups) == Unused(p);
  }

  lemma MappedOfAll(p: Pool, groups: set<string>)
    requires groups == p.conns.Keys
    ensures Closed(p, MappedOf(p, groups)).(sessions := map[]) == HardClosed(p)
  {
    assert MappedOf(p, groups) == AllMapped(p);
  }
}
