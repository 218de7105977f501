// What the connection manager does to what it holds, as functions of a value.
module Connections {
  import opened Wrappers

  // A client, named by the call of the provider that returned it.
  type Client = nat

  // Per group: the connections each session holds, and the client of each connection.
  type Sessions = map<string, map<string, set<string>>>
  type Conns = map<string, map<string, Client>>

  // `provided` clients were returned by the provider; `closes` counts how many times each was passed
  // to close, whether closing worked or not.
  datatype Pool = Pool(sessions: Sessions, conns: Conns, provided: nat, closes: multiset<Client>)

  const Empty := Pool(map[], map[], 0, multiset{})

  // A session holds a connection in a group.
  ghost predicate Holds(sessions: Sessions, g: string, s: string, c: string) {
    g in sessions && s in sessions[g] && c in sessions[g][s]
  }

  ghost predicate Used(sessions: Sessions, g: string, c: string) {
    exists s :: Holds(sessions, g, s, c)
  }

  ghost predicate Mapped(p: Pool, g: string, c: string) {
    g in p.conns && c in p.conns[g]
  }

  ghost predicate MappedTo(p: Pool, g: string, c: string, client: Client) {
    Mapped(p, g, c) && p.conns[g][c] == client
  }

  // ---- The invariant ----

  // No empty session, no empty group of sessions, no empty group of connections.
  ghost predicate NothingEmpty(p: Pool) {
    && (forall g :: g in p.sessions ==> p.sessions[g] != map[])
    && (forall g, s :: g in p.sessions && s in p.sessions[g] ==> p.sessions[g][s] != {})
    && (forall g :: g in p.conns ==> p.conns[g] != map[])
  }

  // What a session holds is there.
  ghost predicate HeldAreMapped(p: Pool) {
    forall g, s, c :: Holds(p.sessions, g, s, c) ==> Mapped(p, g, c)
  }

  // A client that is there was opened, was not closed, and is there once.
  ghost predicate MappedAreOpen(p: Pool) {
    && (forall g, c :: Mapped(p, g, c) ==> p.conns[g][c] < p.provided && p.closes[p.conns[g][c]] == 0)
    && (forall g, c, h, d :: Mapped(p, g, c) && Mapped(p, h, d) && p.conns[g][c] == p.conns[h][d] ==>
          g == h && c == d)
  }

  // A client that was opened is there, or was passed to close exactly once.
  ghost predicate NoneIsLost(p: Pool) {
    && (forall client :: client in p.closes ==> client < p.provided && p.closes[client] == 1)
    && (forall client: nat :: client < p.provided && client !in p.closes ==>
          exists g, c :: MappedTo(p, g, c, client))
  }

  ghost predicate Inv(p: Pool) {
    NothingEmpty(p) && HeldAreMapped(p) && MappedAreOpen(p) && NoneIsLost(p)
  }

  // What is there is what the sessions hold.
  ghost predicate NoneIsUnused(p: Pool) {
    forall g, c :: Mapped(p, g, c) ==> Used(p.sessions, g, c)
  }

  // ---- The operations ----

  function SessionsOf(sessions: Sessions, g: string): map<string, set<string>> {
    if g in sessions then sessions[g] else map[]
  }

  function ConnsOf(conns: Conns, g: string): map<string, Client> {
    if g in conns then conns[g] else map[]
  }

  function HeldBy(sessions: Sessions, g: string, s: string): set<string> {
    var ofGroup := SessionsOf(sessions, g);
    if s in ofGroup then ofGroup[s] else {}
  }

  function Bound(sessions: Sessions, g: string, s: string, c: string): Sessions {
    sessions[g := SessionsOf(sessions, g)[s := HeldBy(sessions, g, s) + {c}]]
  }

  ghost function Get(p: Pool, g: string, s: string, c: string, answers: bool): (Pool, Option<Client>) {
    if Mapped(p, g, c) then
      (p.(sessions := Bound(p.sessions, g, s, c)), Some(p.conns[g][c]))
    else if !answers then
      (p, None)
    else
      (p.(sessions := Bound(p.sessions, g, s, c),
          conns := p.conns[g := ConnsOf(p.conns, g)[c := p.provided]],
          provided := p.provided + 1),
       Some(p.provided))
  }

  // The clients of some connections.
  ghost function Clients(p: Pool, doomed: set<(string, string)>): set<Client> {
    set d | d in doomed && Mapped(p, d.0, d.1) :: p.conns[d.0][d.1]
  }

  ghost function LeftOf(p: Pool, g: string, doomed: set<(string, string)>): map<string, Client>
    requires g in p.conns
  {
    map c | c in p.conns[g] && (g, c) !in doomed :: p.conns[g][c]
  }

  // Some connections closed; a group left without one is removed.
  ghost function Closed(p: Pool, doomed: set<(string, string)>): Pool {
    p.(conns := map g | g in p.conns && LeftOf(p, g, doomed) != map[] :: LeftOf(p, g, doomed),
       closes := p.closes + multiset(Clients(p, doomed)))
  }

  function Without(sessions: Sessions, g: string, s: string): Sessions {
    var left := SessionsOf(sessions, g) - {s};
    if left == map[] then sessions - {g} else sessions[g := left]
  }

  // What the session alone held.
  ghost function OnlyHeldBy(p: Pool, g: string, s: string): set<(string, string)> {
    set c | c in HeldBy(p.sessions, g, s) && !Used(Without(p.sessions, g, s), g, c) :: (g, c)
  }

  ghost function Release(p: Pool, g: string, s: string, closeOnRelease: bool): (Pool, bool) {
    if HeldBy(p.sessions, g, s) == {} then (p, false)
    else
      var released := p.(sessions := Without(p.sessions, g, s));
      (if closeOnRelease then Closed(released, OnlyHeldBy(p, g, s)) else released, true)
  }

  ghost function AllMapped(p: Pool): set<(string, string)> {
    set g, c | g in p.conns && c in p.conns[g] :: (g, c)
  }

  ghost function Unused(p: Pool): set<(string, string)> {
    set d | d in AllMapped(p) && !Used(p.sessions, d.0, d.1)
  }

  ghost function Reaped(p: Pool): Pool {
    Closed(p, Unused(p))
  }

  ghost function HardClosed(p: Pool): Pool {
    Closed(p, AllMapped(p)).(sessions := map[])
  }

  // ---- What they keep ----

  lemma BoundHolds(sessions: Sessions, g: string, s: string, c: string)
    ensures forall h, t, d :: Holds(Bound(sessions, g, s, c), h, t, d) <==>
                              Holds(sessions, h, t, d) || (h == g && t == s && d == c)
  {
  }

  lemma BoundIsNotEmpty(p: Pool, g: string, s: string, c: string)
    requires NothingEmpty(p)
    ensures NothingEmpty(p.(sessions := Bound(p.sessions, g, s, c)))
  {
    assert c in HeldBy(p.sessions, g, s) + {c};
    assert s in SessionsOf(p.sessions, g)[s := HeldBy(p.sessions, g, s) + {c}];
  }

  // A pool with one connection more, of a new client.
  ghost predicate OneMoreMapped(p: Pool, q: Pool, g: string, c: string) {
    && q.provided == p.provided + 1 && q.closes == p.closes
    && (forall h, d :: Mapped(q, h, d) <==> Mapped(p, h, d) || (h == g && d == c))
    && (forall h, d :: Mapped(p, h, d) ==> MappedTo(q, h, d, p.conns[h][d]))
    && MappedTo(q, g, c, p.provided)
  }

  lemma MappedMore(p: Pool, g: string, c: string)
    requires !Mapped(p, g, c)
    ensures var q := p.(conns := p.conns[g := ConnsOf(p.conns, g)[c := p.provided]], provided := p.provided + 1);
            OneMoreMapped(p, q, g, c)
  {
  }

  lemma ClientOfOneMore(p: Pool, q: Pool, g: string, c: string, h: string, d: string)
    requires MappedAreOpen(p) && OneMoreMapped(p, q, g, c) && !Mapped(p, g, c) && Mapped(q, h, d)
    ensures if h == g && d == c then q.conns[h][d] == p.provided
            else Mapped(p, h, d) && q.conns[h][d] == p.conns[h][d] && p.conns[h][d] < p.provided
                 && p.closes[p.conns[h][d]] == 0
  {
    if !(h == g && d == c) {
      assert MappedTo(q, h, d, p.conns[h][d]);
    }
  }

  lemma SameClientIsOnce(p: Pool, g: string, c: string, h: string, d: string)
    requires MappedAreOpen(p) && Mapped(p, g, c) && Mapped(p, h, d) && p.conns[g][c] == p.conns[h][d]
    ensures g == h && c == d
  {
  }

  lemma OneMoreIsOpen(p: Pool, q: Pool, g: string, c: string)
    requires MappedAreOpen(p) && OneMoreMapped(p, q, g, c) && !Mapped(p, g, c) && p.provided !in p.closes
    ensures MappedAreOpen(q)
  {
    hide MappedTo, OneMoreMapped;
    CountsOfOneMore(p, q, g, c);
    forall h, d | Mapped(q, h, d)
      ensures q.conns[h][d] < q.provided && q.closes[q.conns[h][d]] == 0
    {
      ClientOfOneMore(p, q, g, c, h, d);
    }
    forall h, d, i, e | Mapped(q, h, d) && Mapped(q, i, e) && q.conns[h][d] == q.conns[i][e]
      ensures h == i && d == e
    {
      ClientOfOneMore(p, q, g, c, h, d);
      ClientOfOneMore(p, q, g, c, i, e);
      if !(h == g && d == c) && !(i == g && e == c) {
        SameClientIsOnce(p, h, d, i, e);
      }
    }
  }

  lemma CountsOfOneMore(p: Pool, q: Pool, g: string, c: string)
    requires OneMoreMapped(p, q, g, c)
    ensures q.provided == p.provided + 1 && q.closes == p.closes
  {
  }

  lemma NoneOfOneMoreIsLost(p: Pool, q: Pool, g: string, c: string)
    requires NoneIsLost(p) && OneMoreMapped(p, q, g, c)
    ensures NoneIsLost(q)
  {
    hide Mapped;
    forall client: nat | client < q.provided && client !in q.closes
      ensures exists h, d :: MappedTo(q, h, d, client)
    {
      if client == p.provided {
        assert MappedTo(q, g, c, client);
      } else {
        var h, d :| MappedTo(p, h, d, client);
        assert MappedTo(q, h, d, client);
      }
    }
  }

  lemma NewClientIsOpen(p: Pool, q: Pool, g: string, c: string)
    requires MappedAreOpen(p) && NoneIsLost(p) && !Mapped(p, g, c)
    requires OneMoreMapped(p, q, g, c)
    ensures MappedAreOpen(q) && NoneIsLost(q)
  {
    hide Mapped, MappedAreOpen, OneMoreMapped;
    assert p.provided !in p.closes;
    hide NoneIsLost;
    OneMoreIsOpen(p, q, g, c);
    NoneOfOneMoreIsLost(p, q, g, c);
  }

  lemma GetKeeps(p: Pool, g: string, s: string, c: string, answers: bool)
    requires Inv(p)
    ensures Inv(Get(p, g, s, c, answers).0)
  {
    hide MappedAreOpen, NoneIsLost, NothingEmpty, Bound;
    BoundHolds(p.sessions, g, s, c);
    BoundIsNotEmpty(p, g, s, c);
    if !Mapped(p, g, c) && answers {
      MappedMore(p, g, c);
      NewGroupIsNotEmpty(p, g, s, c);
      NewClientIsOpen(p, Get(p, g, s, c, answers).0, g, c);
    } else {
      SameClients(p, Get(p, g, s, c, answers).0);
    }
  }

  lemma NewGroupIsNotEmpty(p: Pool, g: string, s: string, c: string)
    requires NothingEmpty(p) && !Mapped(p, g, c)
    ensures NothingEmpty(Get(p, g, s, c, true).0)
  {
    BoundIsNotEmpty(p, g, s, c);
    assert c in ConnsOf(p.conns, g)[c := p.provided];
  }

  // What is opened and closed does not depend on the sessions.
  lemma SameClients(p: Pool, q: Pool)
    requires MappedAreOpen(p) && NoneIsLost(p)
    requires q.conns == p.conns && q.provided == p.provided && q.closes == p.closes
    ensures MappedAreOpen(q) && NoneIsLost(q)
  {
    forall g, c ensures Mapped(q, g, c) <==> Mapped(p, g, c) {
    }
    forall client: nat | client < q.provided && client !in q.closes
      ensures exists g, c :: MappedTo(q, g, c, client)
    {
      var g, c :| MappedTo(p, g, c, client);
      assert MappedTo(q, g, c, client);
    }
  }

  lemma ClosedIsMapped(p: Pool, doomed: set<(string, string)>)
    ensures forall g, c :: Mapped(Closed(p, doomed), g, c) <==> Mapped(p, g, c) && (g, c) !in doomed
    ensures forall g, c :: Mapped(Closed(p, doomed), g, c) ==> Closed(p, doomed).conns[g][c] == p.conns[g][c]
  {
    var q := Closed(p, doomed);
    forall g, c ensures Mapped(q, g, c) <==> Mapped(p, g, c) && (g, c) !in doomed {
      if Mapped(p, g, c) && (g, c) !in doomed {
        assert c in LeftOf(p, g, doomed);
      }
    }
  }

  lemma ClosedIsNotEmpty(p: Pool, doomed: set<(string, string)>)
    requires NothingEmpty(p)
    ensures NothingEmpty(Closed(p, doomed))
  {
  }

  lemma ClosedClients(p: Pool, doomed: set<(string, string)>)
    requires MappedAreOpen(p) && NoneIsLost(p)
    ensures MappedAreOpen(Closed(p, doomed)) && NoneIsLost(Closed(p, doomed))
  {
    ClosedIsMapped(p, doomed);
    ClosedStayOpen(p, Closed(p, doomed), doomed);
    ClosedAreNotLost(p, Closed(p, doomed), doomed);
  }

  lemma DoomedOf(p: Pool, doomed: set<(string, string)>, client: Client) returns (d: (string, string))
    requires client in Clients(p, doomed)
    ensures d in doomed && MappedTo(p, d.0, d.1, client)
  {
    d :| d in doomed && Mapped(p, d.0, d.1) && p.conns[d.0][d.1] == client;
  }

  lemma IsDoomed(p: Pool, doomed: set<(string, string)>, g: string, c: string)
    requires Mapped(p, g, c) && (g, c) in doomed
    ensures p.conns[g][c] in Clients(p, doomed)
  {
    var d := (g, c);
    assert p.conns[d.0][d.1] in Clients(p, doomed);
  }

  lemma ClosedStayOpen(p: Pool, q: Pool, doomed: set<(string, string)>)
    requires MappedAreOpen(p)
    requires q.provided == p.provided && q.closes == p.closes + multiset(Clients(p, doomed))
    requires forall g, c :: Mapped(q, g, c) <==> Mapped(p, g, c) && (g, c) !in doomed
    requires forall g, c :: Mapped(q, g, c) ==> q.conns[g][c] == p.conns[g][c]
    ensures MappedAreOpen(q)
  {
    forall g, c | Mapped(q, g, c) ensures q.conns[g][c] !in Clients(p, doomed) {
      if q.conns[g][c] in Clients(p, doomed) {
        var d := DoomedOf(p, doomed, q.conns[g][c]);
      }
    }
  }

  lemma ClosedAreNotLost(p: Pool, q: Pool, doomed: set<(string, string)>)
    requires MappedAreOpen(p) && NoneIsLost(p)
    requires q.provided == p.provided && q.closes == p.closes + multiset(Clients(p, doomed))
    requires forall g, c :: Mapped(q, g, c) <==> Mapped(p, g, c) && (g, c) !in doomed
    requires forall g, c :: Mapped(q, g, c) ==> q.conns[g][c] == p.conns[g][c]
    ensures NoneIsLost(q)
  {
    forall client | client in Clients(p, doomed) ensures client < p.provided && p.closes[client] == 0 {
      var d := DoomedOf(p, doomed, client);
    }
    forall client: nat | client < q.provided && client !in q.closes
      ensures exists g, c :: MappedTo(q, g, c, client)
    {
      assert client !in p.closes && client !in Clients(p, doomed);
      var g, c :| MappedTo(p, g, c, client);
      if (g, c) in doomed {
        IsDoomed(p, doomed, g, c);
      }
      assert MappedTo(q, g, c, client);
    }
  }

  // Closing what no session holds keeps what the sessions hold.
  lemma CloseKeeps(p: Pool, doomed: set<(string, string)>)
    requires Inv(p)
    requires forall d :: d in doomed ==> !Used(p.sessions, d.0, d.1)
    ensures Inv(Closed(p, doomed))
  {
    ClosedIsMapped(p, doomed);
    ClosedIsNotEmpty(p, doomed);
    ClosedClients(p, doomed);
    hide NothingEmpty, MappedAreOpen, NoneIsLost;
    var q := Closed(p, doomed);
    forall g, s, c | Holds(q.sessions, g, s, c) ensures Mapped(q, g, c) {
      assert Used(p.sessions, g, c);
      assert (g, c) in doomed ==> !Used(p.sessions, (g, c).0, (g, c).1);
    }
  }

  lemma WithoutHolds(sessions: Sessions, g: string, s: string)
    ensures forall h, t, c :: Holds(Without(sessions, g, s), h, t, c) <==>
                              Holds(sessions, h, t, c) && !(h == g && t == s)
  {
    var left := SessionsOf(sessions, g) - {s};
    forall t | t in SessionsOf(sessions, g) && t != s ensures t in left {
    }
  }

  lemma WithoutIsNotEmpty(p: Pool, g: string, s: string)
    requires NothingEmpty(p)
    ensures NothingEmpty(p.(sessions := Without(p.sessions, g, s)))
  {
  }

  lemma WithoutKeeps(p: Pool, g: string, s: string)
    requires Inv(p)
    ensures Inv(p.(sessions := Without(p.sessions, g, s)))
  {
    var q := p.(sessions := Without(p.sessions, g, s));
    WithoutHolds(p.sessions, g, s);
    WithoutIsNotEmpty(p, g, s);
    hide NothingEmpty, MappedAreOpen, NoneIsLost, Without;
    SameClients(p, q);
    forall h, t, c | Holds(q.sessions, h, t, c) ensures Mapped(q, h, c) {
      assert Holds(p.sessions, h, t, c);
    }
  }

  lemma ReleaseKeeps(p: Pool, g: string, s: string, closeOnRelease: bool)
    requires Inv(p)
    ensures Inv(Release(p, g, s, closeOnRelease).0)
  {
    hide Inv;
    if HeldBy(p.sessions, g, s) != {} {
      var released := p.(sessions := Without(p.sessions, g, s));
      WithoutKeeps(p, g, s);
      if closeOnRelease {
        CloseKeeps(released, OnlyHeldBy(p, g, s));
      }
    }
  }

  lemma ReapKeeps(p: Pool)
    requires Inv(p)
    ensures Inv(Reaped(p)) && NoneIsUnused(Reaped(p))
  {
    hide Inv;
    CloseKeeps(p, Unused(p));
    ClosedIsMapped(p, Unused(p));
    hide Closed;
    forall g, c | Mapped(Reaped(p), g, c) ensures Used(Reaped(p).sessions, g, c) {
      assert (g, c) in AllMapped(p) && (g, c) !in Unused(p);
    }
    ClosedKeepsSessions(p, Unused(p));
  }

  lemma ClosedKeepsSessions(p: Pool, doomed: set<(string, string)>)
    ensures Closed(p, doomed).sessions == p.sessions && Closed(p, doomed).provided == p.provided
  {
  }

  // After a hard close nothing is left, and every client that was opened was closed once.
  lemma HardCloseClosesAll(p: Pool)
    requires Inv(p)
    ensures var q := HardClosed(p);
            && q.sessions == map[] && q.conns == map[]
            && (forall client: nat :: q.closes[client] == if client < p.provided then 1 else 0)
    ensures Inv(HardClosed(p))
  {
    var q := Closed(p, AllMapped(p));
    ClosedIsMapped(p, AllMapped(p));
    ClosedClients(p, AllMapped(p));
    ClosedIsNotEmpty(p, AllMapped(p));
    forall g, c ensures !Mapped(q, g, c) {
      assert Mapped(p, g, c) ==> (g, c) in AllMapped(p);
    }
    NothingIsMapped(q);
    AllWereClosed(q);
    hide Closed;
    SameClients(q, HardClosed(p));
  }

  lemma NothingIsMapped(p: Pool)
    requires NothingEmpty(p) && forall g, c :: !Mapped(p, g, c)
    ensures p.conns == map[]
  {
    if g :| g in p.conns {
      var c :| c in p.conns[g];
      assert Mapped(p, g, c);
    }
  }

  lemma AllWereClosed(p: Pool)
    requires NoneIsLost(p) && p.conns == map[]
    ensures forall client: nat :: p.closes[client] == if client < p.provided then 1 else 0
  {
  }

  // ---- Closing on release ----

  lemma GetUsesAll(p: Pool, g: string, s: string, c: string, answers: bool)
    requires NoneIsUnused(p)
    ensures NoneIsUnused(Get(p, g, s, c, answers).0)
  {
    BoundHolds(p.sessions, g, s, c);
    var q := Get(p, g, s, c, answers).0;
    if Mapped(p, g, c) || answers {
      assert Holds(q.sessions, g, s, c);
      forall h, d | Mapped(q, h, d) ensures Used(q.sessions, h, d) {
        if (h, d) != (g, c) {
          GetMapsOne(p, g, s, c, answers, h, d);
          var t :| Holds(p.sessions, h, t, d);
          assert Holds(q.sessions, h, t, d);
        }
      }
    }
  }

  lemma GetMapsOne(p: Pool, g: string, s: string, c: string, answers: bool, h: string, d: string)
    requires Mapped(Get(p, g, s, c, answers).0, h, d) && (h, d) != (g, c)
    ensures Mapped(p, h, d)
  {
  }

  lemma ReleaseUsesAll(p: Pool, g: string, s: string)
    requires NoneIsUnused(p)
    ensures NoneIsUnused(Release(p, g, s, true).0)
  {
    if HeldBy(p.sessions, g, s) != {} {
      var released := p.(sessions := Without(p.sessions, g, s));
      var q := Closed(released, OnlyHeldBy(p, g, s));
      ClosedIsMapped(released, OnlyHeldBy(p, g, s));
      ClosedKeepsSessions(released, OnlyHeldBy(p, g, s));
      hide Closed;
      forall h, d | Mapped(q, h, d) ensures Used(q.sessions, h, d) {
        StillUsed(p, g, s, h, d);
      }
    }
  }

  // What was used, and was not held by the released session alone, is used still.
  lemma StillUsed(p: Pool, g: string, s: string, h: string, d: string)
    requires Used(p.sessions, h, d) && (h, d) !in OnlyHeldBy(p, g, s)
    ensures Used(Without(p.sessions, g, s), h, d)
  {
    WithoutHolds(p.sessions, g, s);
    var t :| Holds(p.sessions, h, t, d);
    if h == g && t == s {
      assert d in HeldBy(p.sessions, g, s);
    } else {
      assert Holds(Without(p.sessions, g, s), h, t, d);
    }
  }

  // ---- Every run ----

  datatype Op =
    | GetConnection(group: string, session: string, connection: string, answers: bool)
    | ReleaseSession(group: string, session: string)
    | Reap
    | HardClose

  ghost function Apply(p: Pool, op: Op, closeOnRelease: bool): Pool {
    match op
    case GetConnection(g, s, c, answers) => Get(p, g, s, c, answers).0
    case ReleaseSession(g, s) => Release(p, g, s, closeOnRelease).0
    case Reap => Reaped(p)
    case HardClose => HardClosed(p)
  }

  ghost function Run(ops: seq<Op>, closeOnRelease: bool): Pool {
    if ops == [] then Empty else Apply(Run(ops[..|ops| - 1], closeOnRelease), ops[|ops| - 1], closeOnRelease)
  }

  lemma ApplyKeeps(p: Pool, op: Op, closeOnRelease: bool)
    requires Inv(p)
    ensures Inv(Apply(p, op, closeOnRelease))
  {
    hide Inv, Get, Release, Reaped, HardClosed;
    match op
    case GetConnection(g, s, c, answers) => GetKeeps(p, g, s, c, answers);
    case ReleaseSession(g, s) => ReleaseKeeps(p, g, s, closeOnRelease);
    case Reap => ReapKeeps(p);
    case HardClose => HardCloseClosesAll(p);
  }

  lemma {:induction false} RunKeeps(ops: seq<Op>, closeOnRelease: bool)
    ensures Inv(Run(ops, closeOnRelease))
  {
    if ops != [] {
      hide Inv;
      RunKeeps(ops[..|ops| - 1], closeOnRelease);
      ApplyKeeps(Run(ops[..|ops| - 1], closeOnRelease), ops[|ops| - 1], closeOnRelease);
    }
  }

  // In every run, a client the provider returned is held under one group and connection and was
  // never closed, or is held nowhere and was closed once.
  lemma HeldOnceOrClosedOnce(ops: seq<Op>, closeOnRelease: bool, client: Client)
    requires client < Run(ops, closeOnRelease).provided
    ensures var p := Run(ops, closeOnRelease);
            if p.closes[client] == 0
            then exists g, c :: MappedTo(p, g, c, client)
                                && forall h, d :: MappedTo(p, h, d, client) ==> h == g && d == c
            else p.closes[client] == 1 && forall g, c :: !MappedTo(p, g, c, client)
  {
    RunKeeps(ops, closeOnRelease);
    var p := Run(ops, closeOnRelease);
    OnceInAll(p, client);
  }

  lemma MappedOnce(p: Pool, client: Client, g: string, c: string)
    requires MappedAreOpen(p) && MappedTo(p, g, c, client)
    ensures p.closes[client] == 0
    ensures forall h, d :: MappedTo(p, h, d, client) ==> h == g && d == c
  {
    forall h, d | MappedTo(p, h, d, client)
      ensures h == g && d == c
    {
      SameClientIsOnce(p, g, c, h, d);
    }
  }

  lemma OnceInAll(p: Pool, client: Client)
    requires Inv(p) && client < p.provided
    ensures if p.closes[client] == 0
            then exists g, c :: MappedTo(p, g, c, client)
                                && forall h, d :: MappedTo(p, h, d, client) ==> h == g && d == c
            else p.closes[client] == 1 && forall g, c :: !MappedTo(p, g, c, client)
  {
    hide MappedTo, MappedAreOpen, NothingEmpty, HeldAreMapped;
    forall g, c | MappedTo(p, g, c, client)
      ensures p.closes[client] == 0
      ensures forall h, d :: MappedTo(p, h, d, client) ==> h == g && d == c
    {
      MappedOnce(p, client, g, c);
    }
  }

  // When connections are closed on release, what a group holds is what its sessions hold, after
  // every operation.
  lemma {:induction false} CloseOnReleaseLeavesNoneUnused(ops: seq<Op>)
    ensures var p := Run(ops, true); forall g, c :: Mapped(p, g, c) <==> Used(p.sessions, g, c)
  {
    RunUsesAll(ops);
    RunKeeps(ops, true);
    UsedAreMapped(Run(ops, true));
  }

  lemma UsedAreMapped(p: Pool)
    requires Inv(p)
    ensures forall g, c :: Used(p.sessions, g, c) ==> Mapped(p, g, c)
  {
  }

  lemma {:induction false} RunUsesAll(ops: seq<Op>)
    ensures NoneIsUnused(Run(ops, true))
  {
    if ops != [] {
      var before, last := Run(ops[..|ops| - 1], true), ops[|ops| - 1];
      RunUsesAll(ops[..|ops| - 1]);
      RunKeeps(ops[..|ops| - 1], true);
      hide Inv, NoneIsUnused, Get, Release, Reaped, HardClosed;
      match last
      case GetConnection(g, s, c, answers) => GetUsesAll(before, g, s, c, answers);
      case ReleaseSession(g, s) => ReleaseUsesAll(before, g, s);
      case Reap => ReapKeeps(before);
      case HardClose => HardCloseUsesAll(before);
    }
  }

  lemma HardCloseUsesAll(p: Pool)
    requires Inv(p)
    ensures NoneIsUnused(HardClosed(p))
  {
    HardCloseClosesAll(p);
  }

  // Without it, the same holds after every cycle of the reaper.
  lemma ReaperLeavesNoneUnused(ops: seq<Op>, closeOnRelease: bool)
    requires ops != [] && ops[|ops| - 1] == Reap
    ensures var p := Run(ops, closeOnRelease); forall g, c :: Mapped(p, g, c) <==> Used(p.sessions, g, c)
  {
    RunKeeps(ops[..|ops| - 1], closeOnRelease);
    ReapKeeps(Run(ops[..|ops| - 1], closeOnRelease));
    UsedAreMapped(Run(ops, closeOnRelease));
  }
}
