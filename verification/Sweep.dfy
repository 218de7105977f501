// The merge as the recognizer computes it, type after type: a sort by start, then a loop that closes a
// group when a finding starts past its largest end.
module Sweep {
  import opened Sets
  import opened Merging
  import opened MergeRule
  import opened Sorting

  // A finding as the sweep reads it: its start, its end, its position among those given, its chunk.
  datatype Item = Item(start: int, end: int, position: int, chunk: nat, result: Finding)

  // What a group of findings becomes.
  datatype Entry = Entry(start: int, position: int, result: Finding)

  function ItemKey(item: Item): Key { (item.start, item.end, item.position) }

  function EntryKey(entry: Entry): Key { (entry.start, entry.position, 0) }

  // ---- What the sweep reads ----

  function ItemAt(found: seq<Found>, i: int): Item
    requires 0 <= i < |found|
  {
    Item(found[i].result.start, found[i].result.end, i, found[i].chunk, found[i].result)
  }

  ghost predicate IsItem(found: seq<Found>, entityType: string, item: Item) {
    && In(found, item.position) && item == ItemAt(found, item.position)
    && found[item.position].result.entityType == entityType
  }

  ghost predicate Stands(items: seq<Item>, i: int) {
    exists k :: 0 <= k < |items| && items[k].position == i
  }

  // The findings of a type among the n first, each once.
  ghost predicate ItemsUpTo(found: seq<Found>, n: int, entityType: string, items: seq<Item>) {
    && (forall k :: 0 <= k < |items| ==> IsItem(found, entityType, items[k]) && items[k].position < n)
    && (forall i :: In(found, i) && i < n && found[i].result.entityType == entityType ==> Stands(items, i))
    && (forall k, l :: 0 <= k < l < |items| ==> items[k].position != items[l].position)
  }

  ghost predicate ItemsOf(found: seq<Found>, entityType: string, items: seq<Item>) {
    ItemsUpTo(found, |found|, entityType, items) && items != []
  }

  ghost predicate SortedItems(found: seq<Found>, entityType: string, items: seq<Item>) {
    ItemsOf(found, entityType, items) && StrictlySortedBy(items, ItemKey)
  }

  lemma OneMoreItem(found: seq<Found>, n: nat, entityType: string, items: seq<Item>)
    requires n < |found| && ItemsUpTo(found, n, entityType, items)
    ensures found[n].result.entityType == entityType ==>
              ItemsUpTo(found, n + 1, entityType, items + [ItemAt(found, n)])
    ensures found[n].result.entityType != entityType ==> ItemsUpTo(found, n + 1, entityType, items)
  {
    if found[n].result.entityType == entityType {
      var longer := items + [ItemAt(found, n)];
      assert longer[|items|] == ItemAt(found, n);
      forall i | In(found, i) && i < n + 1 && found[i].result.entityType == entityType ensures Stands(longer, i) {
        if i < n {
          var k :| 0 <= k < |items| && items[k].position == i;
          assert longer[k] == items[k];
        }
      }
    }
  }

  lemma NoItemYet(found: seq<Found>, n: nat, entityType: string)
    requires forall i :: In(found, i) && i < n ==> found[i].result.entityType != entityType
    ensures ItemsUpTo(found, n, entityType, [])
  {
  }

  // The n first findings, by type.
  ghost predicate Grouped(found: seq<Found>, n: int, byType: map<string, seq<Item>>) {
    && (forall t :: t in byType ==> ItemsUpTo(found, n, t, byType[t]) && byType[t] != [])
    && (forall i :: In(found, i) && i < n ==> found[i].result.entityType in byType)
  }

  function Appended(byType: map<string, seq<Item>>, t: string, item: Item): map<string, seq<Item>> {
    byType[t := (if t in byType then byType[t] else []) + [item]]
  }

  lemma GroupedGrows(found: seq<Found>, n: nat, byType: map<string, seq<Item>>)
    requires n < |found| && Grouped(found, n, byType)
    ensures Grouped(found, n + 1, Appended(byType, found[n].result.entityType, ItemAt(found, n)))
  {
    hide ItemsUpTo, ItemAt;
    var t := found[n].result.entityType;
    if t !in byType {
      NoItemYet(found, n, t);
    }
    OneMoreItem(found, n, t, if t in byType then byType[t] else []);
    forall u | u in byType && u != t ensures ItemsUpTo(found, n + 1, u, byType[u]) {
      OneMoreItem(found, n, u, byType[u]);
    }
  }

  method GroupByType(found: seq<Found>) returns (byType: map<string, seq<Item>>)
    ensures Grouped(found, |found|, byType)
  {
    byType := map[];
    for position := 0 to |found|
      invariant Grouped(found, position, byType)
    {
      hide Grouped;
      GroupedGrows(found, position, byType);
      byType := Appended(byType, found[position].result.entityType, ItemAt(found, position));
    }
  }

  lemma SortedItemsOf(found: seq<Found>, entityType: string, items: seq<Item>)
    requires ItemsOf(found, entityType, items)
    ensures SortedItems(found, entityType, SortedBy(items, ItemKey))
  {
    var sorted := SortedBy(items, ItemKey);
    SortKeepsMembers(items, ItemKey);
    SortSorts(items, ItemKey);
    forall k | 0 <= k < |sorted| ensures sorted[k] in items {
      assert sorted[k] in sorted;
    }
    forall i | In(found, i) && found[i].result.entityType == entityType ensures Stands(sorted, i) {
      var k :| 0 <= k < |items| && items[k].position == i;
      assert items[k] in sorted;
    }
  }

  // ---- What a group becomes ----

  ghost function Positions(items: seq<Item>): set<int> {
    set k | 0 <= k < |items| :: items[k].position
  }

  // The findings of a component, each once.
  ghost predicate IsGroup(found: seq<Found>, entityType: string, group: seq<Item>) {
    && group != []
    && (forall k :: 0 <= k < |group| ==> IsItem(found, entityType, group[k]))
    && (forall k, l :: 0 <= k < l < |group| ==> group[k].position != group[l].position)
    && Positions(group) == Component(found, group[0].position)
  }

  // By score, the position breaking ties: no two members of a group are equally good.
  predicate Better(a: Item, b: Item) {
    a.result.score > b.result.score || (a.result.score == b.result.score && a.position < b.position)
  }

  function BestItem(group: seq<Item>): Item
    requires group != []
  {
    if |group| == 1 then group[0]
    else
      var rest := BestItem(group[1..]);
      if Better(rest, group[0]) then rest else group[0]
  }

  function Min(s: seq<int>): (least: int)
    requires s != []
    ensures least in s && forall k :: 0 <= k < |s| ==> least <= s[k]
  {
    if |s| == 1 then s[0]
    else
      var rest := Min(s[1..]);
      if rest < s[0] then rest else s[0]
  }

  function Max(s: seq<int>): (greatest: int)
    requires s != []
    ensures greatest in s && forall k :: 0 <= k < |s| ==> s[k] <= greatest
  {
    if |s| == 1 then s[0]
    else
      var rest := Max(s[1..]);
      if rest > s[0] then rest else s[0]
  }

  function Starts(group: seq<Item>): seq<int> {
    seq(|group|, k requires 0 <= k < |group| => group[k].start)
  }

  function Ends(group: seq<Item>): seq<int> {
    seq(|group|, k requires 0 <= k < |group| => group[k].end)
  }

  function Places(group: seq<Item>): seq<int> {
    seq(|group|, k requires 0 <= k < |group| => group[k].position)
  }

  // Only the bounds change.
  function Span(f: Finding, start: int, end: int): Finding {
    Finding(f.entityType, start, end, f.score, f.explanation)
  }

  // What a closed group emits: one entry, or its members when their chunk is the same.
  function United(group: seq<Item>): seq<Entry>
    requires group != []
  {
    var chunks := set k | 0 <= k < |group| :: group[k].chunk;
    if |chunks| == 1 then
      seq(|group|, k requires 0 <= k < |group| => Entry(group[k].start, group[k].position, group[k].result))
    else
      var best := BestItem(group).result;
      var start := Min(Starts(group));
      [Entry(start, Min(Places(group)), Span(best, start, Max(Ends(group))))]
  }

  lemma {:induction false} BestItemIsBest(group: seq<Item>)
    requires group != []
    ensures BestItem(group) in group
    ensures forall k :: 0 <= k < |group| ==> group[k] == BestItem(group) || !Better(group[k], BestItem(group))
  {
    if |group| > 1 {
      BestItemIsBest(group[1..]);
      assert group == [group[0]] + group[1..];
    }
  }

  // What is given for the unit a finding leads.
  ghost predicate EntryOk(found: seq<Found>, entry: Entry) {
    && Leads(found, entry.position)
    && UnitesAsFirst(found, Unit(found, entry.position), entry.result)
    && entry.start == entry.result.start
  }

  ghost predicate Told(entries: seq<Entry>, i: int) {
    exists k :: 0 <= k < |entries| && entries[k].position == i
  }

  // The entries of the units that some of the findings make up.
  ghost predicate Emitted(found: seq<Found>, entries: seq<Entry>, done: set<int>) {
    && (forall k :: 0 <= k < |entries| ==> EntryOk(found, entries[k]) && entries[k].position in done)
    && (forall i :: i in done && Leads(found, i) ==> Told(entries, i))
    && (forall k, l :: 0 <= k < l < |entries| ==> entries[k].position != entries[l].position)
  }

  lemma EmittedAppends(found: seq<Found>, a: seq<Entry>, done: set<int>, b: seq<Entry>, more: set<int>)
    requires Emitted(found, a, done) && Emitted(found, b, more) && done !! more
    ensures Emitted(found, a + b, done + more)
  {
    var both := a + b;
    forall i | i in done + more && Leads(found, i) ensures Told(both, i) {
      if i in done {
        var k :| 0 <= k < |a| && a[k].position == i;
        assert both[k] == a[k];
      } else {
        var k :| 0 <= k < |b| && b[k].position == i;
        assert both[|a| + k] == b[k];
      }
    }
    forall k, l | 0 <= k < l < |both| ensures both[k].position != both[l].position {
      if k < |a| <= l {
        assert both[k].position in done && both[l].position in more;
      }
    }
  }

  lemma ChunksOfAGroup(found: seq<Found>, entityType: string, group: seq<Item>)
    requires IsGroup(found, entityType, group)
    ensures |set k | 0 <= k < |group| :: group[k].chunk| == 1 <==> OneChunk(found, Positions(group))
  {
    var chunks := set k | 0 <= k < |group| :: group[k].chunk;
    assert group[0].chunk in chunks;
    if |chunks| == 1 {
      OnlyMember(chunks, group[0].chunk);
      forall x | x in Positions(group) ensures found[x].chunk in chunks {
        var k :| 0 <= k < |group| && group[k].position == x;
        assert group[k].chunk in chunks;
      }
    }
    if OneChunk(found, Positions(group)) {
      forall x | x in chunks ensures x == group[0].chunk {
        var k :| 0 <= k < |group| && group[k].chunk == x;
        assert group[k].position in Positions(group) && group[0].position in Positions(group);
      }
      assert chunks == {group[0].chunk};
    }
  }

  // A finding of a group that one chunk returned whole is given as it is.
  lemma KeptAsItIs(found: seq<Found>, entityType: string, group: seq<Item>, k: nat)
    requires IsGroup(found, entityType, group) && OneChunk(found, Positions(group)) && k < |group|
    ensures EntryOk(found, Entry(group[k].start, group[k].position, group[k].result))
  {
    var i := group[k].position;
    assert i in Positions(group);
    ComponentIsAClass(found, group[0].position, i);
    assert Unit(found, i) == {i};
    assert FirstBest(found, {i}, i) && TakesAfter(found, i, group[k].result);
  }

  lemma UnionSpans(found: seq<Found>, entityType: string, group: seq<Item>, f: Finding)
    requires IsGroup(found, entityType, group)
    requires f.entityType == entityType && f.start == Min(Starts(group)) && f.end == Max(Ends(group))
    ensures Spans(found, Positions(group), f)
  {
    var x :| 0 <= x < |group| && Starts(group)[x] == f.start;
    var y :| 0 <= y < |group| && Ends(group)[y] == f.end;
    assert group[x].position in Positions(group) && group[y].position in Positions(group);
    forall i | i in Positions(group)
      ensures In(found, i) && found[i].result.entityType == entityType
      ensures f.start <= found[i].result.start && found[i].result.end <= f.end
    {
      var k :| 0 <= k < |group| && group[k].position == i;
      assert f.start <= Starts(group)[k] && Ends(group)[k] <= f.end;
    }
  }

  lemma BestOfAGroup(found: seq<Found>, entityType: string, group: seq<Item>)
    requires IsGroup(found, entityType, group)
    ensures FirstBest(found, Positions(group), BestItem(group).position)
    ensures IsItem(found, entityType, BestItem(group))
  {
    var best := BestItem(group);
    BestItemIsBest(group);
    assert best.position in Positions(group);
    forall i | i in Positions(group)
      ensures In(found, i) && found[i].result.score <= best.result.score
      ensures found[i].result.score == best.result.score ==> best.position <= i
    {
      var k :| 0 <= k < |group| && group[k].position == i;
    }
  }

  lemma LeaderOfAGroup(found: seq<Found>, entityType: string, group: seq<Item>)
    requires IsGroup(found, entityType, group) && !OneChunk(found, Positions(group))
    ensures Leads(found, Min(Places(group)))
    ensures Unit(found, Min(Places(group))) == Positions(group)
    ensures Min(Places(group)) in Positions(group)
  {
    var leader := Min(Places(group));
    var l :| 0 <= l < |group| && Places(group)[l] == leader;
    assert group[l].position in Positions(group);
    ComponentIsAClass(found, group[0].position, leader);
    forall i | i in Positions(group) ensures leader <= i {
      var k :| 0 <= k < |group| && group[k].position == i;
      assert leader <= Places(group)[k];
    }
  }

  lemma UnitedAsOne(found: seq<Found>, entityType: string, group: seq<Item>)
    requires IsGroup(found, entityType, group) && !OneChunk(found, Positions(group))
    ensures Emitted(found, United(group), Positions(group))
  {
    hide Min, Max, BestItem, IsGroup, Positions, Spans, OneChunk, Starts, Ends, Places;
    GroupIsSome(found, entityType, group);
    ChunksOfAGroup(found, entityType, group);
    LeaderOfAGroup(found, entityType, group);
    BestOfAGroup(found, entityType, group);
    var entry := United(group)[0];
    UnionSpans(found, entityType, group, entry.result);
    assert TakesAfter(found, BestItem(group).position, entry.result);
    forall i | i in Positions(group) && Leads(found, i) ensures Told(United(group), i) {
      LeadersOfOneUnit(found, i, entry.position);
    }
  }

  lemma LeadersOfOneUnit(found: seq<Found>, i: int, j: int)
    requires Leads(found, i) && Leads(found, j) && i in Unit(found, j)
    ensures i == j
  {
    UnitIsAClass(found, j, i);
    UnitIsJoined(found, j);
  }

  lemma GroupIsSome(found: seq<Found>, entityType: string, group: seq<Item>)
    requires IsGroup(found, entityType, group)
    ensures group != []
  {
  }

  lemma GroupIsDistinct(found: seq<Found>, entityType: string, group: seq<Item>)
    requires IsGroup(found, entityType, group)
    ensures forall k, l :: 0 <= k < l < |group| ==> group[k].position != group[l].position
  {
  }

  lemma PositionIsOne(group: seq<Item>, k: nat)
    requires k < |group|
    ensures group[k].position in Positions(group)
  {
  }

  // Given one by one, each finding is told at its own position.
  lemma AllAreTold(group: seq<Item>, entries: seq<Entry>)
    requires |entries| == |group| && forall k :: 0 <= k < |group| ==> entries[k].position == group[k].position
    ensures forall i :: i in Positions(group) ==> Told(entries, i)
  {
    forall i | i in Positions(group)
      ensures Told(entries, i)
    {
      var k :| 0 <= k < |group| && group[k].position == i;
      assert entries[k].position == i;
    }
  }

  lemma UnitedOfOneChunk(found: seq<Found>, entityType: string, group: seq<Item>)
    requires IsGroup(found, entityType, group) && OneChunk(found, Positions(group))
    ensures group != [] && |United(group)| == |group|
    ensures forall k :: 0 <= k < |group| ==>
              United(group)[k] == Entry(group[k].start, group[k].position, group[k].result)
  {
    hide IsGroup, OneChunk, Positions, BestItem, Min, Max, Starts, Ends, Places, Span;
    GroupIsSome(found, entityType, group);
    ChunksOfAGroup(found, entityType, group);
  }

  lemma UnitedAsTheyAre(found: seq<Found>, entityType: string, group: seq<Item>)
    requires IsGroup(found, entityType, group) && OneChunk(found, Positions(group))
    ensures Emitted(found, United(group), Positions(group))
  {
    hide IsGroup, OneChunk, EntryOk, Leads, Positions, Told, Component, United;
    GroupIsSome(found, entityType, group);
    UnitedOfOneChunk(found, entityType, group);
    GroupIsDistinct(found, entityType, group);
    var entries := United(group);
    forall k | 0 <= k < |entries|
      ensures EntryOk(found, entries[k]) && entries[k].position in Positions(group)
    {
      KeptAsItIs(found, entityType, group, k);
      PositionIsOne(group, k);
    }
    AllAreTold(group, entries);
  }

  lemma UnitedIsEmitted(found: seq<Found>, entityType: string, group: seq<Item>)
    requires IsGroup(found, entityType, group)
    ensures Emitted(found, United(group), Positions(group))
  {
    if OneChunk(found, Positions(group)) {
      UnitedAsTheyAre(found, entityType, group);
    } else {
      UnitedAsOne(found, entityType, group);
    }
  }

  // ---- The pass over the sorted findings of a type ----

  // Everything read before a ends where the finding at a starts, or before.
  ghost predicate ClosedBefore(items: seq<Item>, a: int) {
    0 <= a < |items| && forall x :: 0 <= x < a ==> items[x].end <= items[a].start
  }

  // The group being read goes from a to k, and its largest end is groupEnd.
  ghost predicate Grown(items: seq<Item>, a: int, k: int, groupEnd: int) {
    && 0 <= a < k <= |items|
    && (forall x :: a <= x < k ==> items[x].end <= groupEnd)
    && (exists x :: a <= x < k && items[x].end == groupEnd)
  }

  ghost predicate JoinedWithin(found: seq<Found>, items: seq<Item>, a: int, k: int) {
    0 <= a <= k <= |items|
    && forall x, y :: a <= x < k && a <= y < k ==> Joined(found, items[x].position, items[y].position)
  }

  lemma CutBefore(found: seq<Found>, entityType: string, items: seq<Item>, m: int)
    requires SortedItems(found, entityType, items) && ClosedBefore(items, m)
    ensures Cut(found, entityType, items[m].start)
  {
    forall i | In(found, i) && found[i].result.entityType == entityType
      ensures found[i].result.end <= items[m].start || items[m].start <= found[i].result.start
    {
      assert Stands(items, i);
      var k :| 0 <= k < |items| && items[k].position == i;
      assert m < k ==> KeyLess(ItemKey(items[m]), ItemKey(items[k]));
    }
  }

  lemma NotJoinedAcross(found: seq<Found>, entityType: string, items: seq<Item>, m: int, x: int, y: int)
    requires SortedItems(found, entityType, items) && ClosedBefore(items, m)
    requires 0 <= x < m <= y < |items|
    ensures !Joined(found, items[x].position, items[y].position)
  {
    CutBefore(found, entityType, items, m);
    assert m < y ==> KeyLess(ItemKey(items[m]), ItemKey(items[y]));
    assert Separates(found, items[m].start, items[x].position, items[y].position);
  }

  lemma ClosesBefore(items: seq<Item>, a: int, k: int, groupEnd: int)
    requires StrictlySortedBy(items, ItemKey) && ClosedBefore(items, a) && Grown(items, a, k, groupEnd)
    requires k < |items| && groupEnd <= items[k].start
    ensures ClosedBefore(items, k)
  {
    assert KeyLess(ItemKey(items[a]), ItemKey(items[k]));
  }

  // A finding that starts before the end of the group overlaps the one that ends there.
  lemma OverlapsTheGroup(found: seq<Found>, entityType: string, items: seq<Item>, z: int, k: int)
    requires Oriented(found) && SortedItems(found, entityType, items)
    requires 0 <= z < k < |items| && items[k].start < items[z].end
    ensures Joined(found, items[z].position, items[k].position)
  {
    assert KeyLess(ItemKey(items[z]), ItemKey(items[k]));
    OverlapJoins(found, items[z].position, items[k].position);
  }

  lemma JoinsTheGroup(found: seq<Found>, entityType: string, items: seq<Item>, a: int, k: int, groupEnd: int)
    requires Oriented(found) && SortedItems(found, entityType, items)
    requires Grown(items, a, k, groupEnd) && JoinedWithin(found, items, a, k)
    requires k < |items| && items[k].start < groupEnd
    ensures JoinedWithin(found, items, a, k + 1)
  {
    hide SortedItems, Joined;
    var z :| a <= z < k && items[z].end == groupEnd;
    OverlapsTheGroup(found, entityType, items, z, k);
    forall x | a <= x < k
      ensures Joined(found, items[x].position, items[k].position)
      ensures Joined(found, items[k].position, items[x].position)
    {
      JoinedIsTransitive(found, items[x].position, items[z].position, items[k].position);
      JoinedIsSymmetric(found, items[x].position, items[k].position);
    }
    JoinedToItself(found, items[z].position, items[k].position);
  }

  lemma JoinedToItself(found: seq<Found>, i: int, j: int)
    requires Joined(found, i, j)
    ensures Joined(found, j, j)
  {
  }

  lemma InTheGroup(found: seq<Found>, entityType: string, items: seq<Item>, a: int, k: int, j: int)
    requires SortedItems(found, entityType, items) && ClosedBefore(items, a) && a < k <= |items|
    requires k < |items| ==> ClosedBefore(items, k)
    requires Joined(found, items[a].position, j)
    ensures j in Positions(items[a..k])
  {
    assert Stands(items, j);
    var y :| 0 <= y < |items| && items[y].position == j;
    if y < a {
      JoinedIsSymmetric(found, items[a].position, j);
      NotJoinedAcross(found, entityType, items, a, y, a);
    } else if k <= y {
      NotJoinedAcross(found, entityType, items, k, a, y);
    } else {
      assert items[a..k][y - a] == items[y];
    }
  }

  lemma ComponentIsInTheGroup(found: seq<Found>, entityType: string, items: seq<Item>, a: int, k: int)
    requires 0 <= a < k <= |items| && In(found, items[a].position)
    requires SortedItems(found, entityType, items) && ClosedBefore(items, a)
    requires k < |items| ==> ClosedBefore(items, k)
    ensures Component(found, items[a].position) <= Positions(items[a..k])
  {
    hide SortedItems, ClosedBefore, Joined, Positions;
    forall j | j in Component(found, items[a].position)
      ensures j in Positions(items[a..k])
    {
      InTheGroup(found, entityType, items, a, k, j);
    }
  }

  lemma GroupIsInTheComponent(found: seq<Found>, items: seq<Item>, a: int, k: int)
    requires 0 <= a < k <= |items| && In(found, items[a].position)
    requires JoinedWithin(found, items, a, k)
    ensures Positions(items[a..k]) <= Component(found, items[a].position)
  {
    hide Separates;
    forall j | j in Positions(items[a..k])
      ensures j in Component(found, items[a].position)
    {
      var y :| 0 <= y < k - a && items[a..k][y].position == j;
      assert items[a + y].position == j;
    }
  }

  lemma ItemsOfAGroup(found: seq<Found>, entityType: string, items: seq<Item>, a: int, k: int)
    requires ItemsOf(found, entityType, items) && 0 <= a < k <= |items|
    ensures var group := items[a..k];
      && (forall x :: 0 <= x < |group| ==> IsItem(found, entityType, group[x]))
      && (forall x, y :: 0 <= x < y < |group| ==> group[x].position != group[y].position)
    ensures In(found, items[a].position)
  {
    hide Stands, ItemAt;
  }

  // A group between two closings is a component.
  lemma GroupIsComponent(found: seq<Found>, entityType: string, items: seq<Item>, a: int, k: int)
    requires SortedItems(found, entityType, items) && ClosedBefore(items, a) && a < k <= |items|
    requires k < |items| ==> ClosedBefore(items, k)
    requires JoinedWithin(found, items, a, k)
    ensures IsGroup(found, entityType, items[a..k])
  {
    hide SortedItems, ItemsOf, JoinedWithin, IsItem, Positions, Component, ClosedBefore, In;
    ItemsAreSorted(found, entityType, items);
    AfterTheClosing(items, a);
    ItemsOfAGroup(found, entityType, items, a, k);
    ComponentIsInTheGroup(found, entityType, items, a, k);
    GroupIsInTheComponent(found, items, a, k);
    assert items[a..k][0] == items[a];
  }

  lemma AfterTheClosing(items: seq<Item>, a: int)
    requires ClosedBefore(items, a)
    ensures 0 <= a
  {
  }

  lemma ItemsAreSorted(found: seq<Found>, entityType: string, items: seq<Item>)
    requires SortedItems(found, entityType, items)
    ensures ItemsOf(found, entityType, items)
  {
  }

  lemma PositionsOfTwo(left: seq<Item>, right: seq<Item>)
    ensures Positions(left + right) == Positions(left) + Positions(right)
  {
    var both := left + right;
    forall k | 0 <= k < |left|
      ensures left[k].position in Positions(both)
    {
      assert both[k] == left[k];
    }
    forall k | 0 <= k < |right|
      ensures right[k].position in Positions(both)
    {
      assert both[|left| + k] == right[k];
    }
  }

  lemma ApartIsDisjoint(items: seq<Item>, a: nat, k: nat)
    requires a <= k <= |items|
    requires forall x, y :: 0 <= x < y < |items| ==> items[x].position != items[y].position
    ensures Positions(items[..a]) !! Positions(items[a..k])
  {
    forall i | i in Positions(items[..a])
      ensures i !in Positions(items[a..k])
    {
      var x :| 0 <= x < a && items[..a][x].position == i;
      assert forall y :: 0 <= y < k - a ==> items[a..k][y] == items[a + y];
    }
  }

  lemma GroupIsApart(found: seq<Found>, entityType: string, items: seq<Item>, a: int, k: int)
    requires ItemsOf(found, entityType, items) && 0 <= a <= k <= |items|
    ensures Positions(items[..a]) !! Positions(items[a..k])
    ensures Positions(items[..k]) == Positions(items[..a]) + Positions(items[a..k])
  {
    hide Positions, IsItem, Stands;
    ApartIsDisjoint(items, a, k);
    PositionsOfTwo(items[..a], items[a..k]);
    assert items[..a] + items[a..k] == items[..k];
  }

  // The state of the pass: what is closed was emitted, what is being read is joined.
  ghost predicate Reading(
    found: seq<Found>, entityType: string, items: seq<Item>, entries: seq<Entry>, a: int, k: int, groupEnd: int)
  {
    && ClosedBefore(items, a) && Grown(items, a, k, groupEnd) && JoinedWithin(found, items, a, k)
    && Emitted(found, entries, Positions(items[..a]))
  }

  lemma GroupIsEmitted(
    found: seq<Found>, entityType: string, items: seq<Item>, entries: seq<Entry>, a: int, k: int, groupEnd: int)
    requires SortedItems(found, entityType, items)
    requires Reading(found, entityType, items, entries, a, k, groupEnd)
    requires k < |items| ==> ClosedBefore(items, k)
    ensures Emitted(found, entries + United(items[a..k]), Positions(items[..k]))
  {
    GroupIsComponent(found, entityType, items, a, k);
    UnitedIsEmitted(found, entityType, items[a..k]);
    GroupIsApart(found, entityType, items, a, k);
    EmittedAppends(found, entries, Positions(items[..a]), United(items[a..k]), Positions(items[a..k]));
  }

  lemma NewGroup(
    found: seq<Found>, entityType: string, items: seq<Item>, entries: seq<Entry>, a: int, k: int, groupEnd: int)
    requires SortedItems(found, entityType, items)
    requires Reading(found, entityType, items, entries, a, k, groupEnd)
    requires k < |items| && groupEnd <= items[k].start
    ensures Reading(found, entityType, items, entries + United(items[a..k]), k, k + 1, items[k].end)
  {
    hide Emitted, United, ItemsOf, ItemsUpTo;
    ClosesBefore(items, a, k, groupEnd);
    GroupIsEmitted(found, entityType, items, entries, a, k, groupEnd);
    AloneIsJoined(found, entityType, items, k);
  }

  lemma AloneIsJoined(found: seq<Found>, entityType: string, items: seq<Item>, k: int)
    requires ItemsOf(found, entityType, items) && 0 <= k < |items|
    ensures JoinedWithin(found, items, k, k + 1)
  {
  }

  lemma SameGroup(
    found: seq<Found>, entityType: string, items: seq<Item>, entries: seq<Entry>, a: int, k: int, groupEnd: int)
    requires Oriented(found) && SortedItems(found, entityType, items)
    requires Reading(found, entityType, items, entries, a, k, groupEnd)
    requires k < |items| && items[k].start < groupEnd
    ensures Reading(found, entityType, items, entries, a, k + 1,
                    if items[k].end > groupEnd then items[k].end else groupEnd)
  {
    hide Emitted, SortedItems;
    JoinsTheGroup(found, entityType, items, a, k, groupEnd);
    var z :| a <= z < k && items[z].end == groupEnd;
  }

  lemma ReadingStarts(found: seq<Found>, entityType: string, items: seq<Item>)
    requires SortedItems(found, entityType, items)
    ensures Reading(found, entityType, items, [], 0, 1, items[0].end)
  {
    assert Positions(items[..0]) == {};
  }

  // The findings of one type, merged in one pass over them in the order of their starts.
  method SweepType(ghost found: seq<Found>, ghost entityType: string, items: seq<Item>) returns (entries: seq<Entry>)
    requires Oriented(found) && SortedItems(found, entityType, items)
    ensures Emitted(found, entries, Positions(items))
  {
    hide *;
    ReadingStarts(found, entityType, items);
    SortedItemsAreSome(found, entityType, items);
    var group := [items[0]];
    var groupEnd := items[0].end;
    entries := [];
    ghost var a := 0;
    for k := 1 to |items|
      invariant 0 <= a < k
      invariant group == items[a..k]
      invariant Reading(found, entityType, items, entries, a, k, groupEnd)
    {
      var item := items[k];
      if item.start >= groupEnd {
        NewGroup(found, entityType, items, entries, a, k, groupEnd);
        entries := entries + United(group);
        group := [];
        groupEnd := item.end;
        a := k;
      } else {
        SameGroup(found, entityType, items, entries, a, k, groupEnd);
      }
      group := group + [item];
      groupEnd := if item.end > groupEnd then item.end else groupEnd;
    }
    GroupIsEmitted(found, entityType, items, entries, a, |items|, groupEnd);
    assert items[..|items|] == items;
    entries := entries + United(group);
  }

  lemma SortedItemsAreSome(found: seq<Found>, entityType: string, items: seq<Item>)
    requires SortedItems(found, entityType, items)
    ensures items != []
  {
  }

  // ---- The merge ----

  // The findings of the types already swept.
  ghost function OfTypes(found: seq<Found>, types: set<string>): set<int> {
    set i | 0 <= i < |found| && found[i].result.entityType in types
  }

  lemma PositionsOfAType(found: seq<Found>, entityType: string, items: seq<Item>)
    requires ItemsOf(found, entityType, items)
    ensures Positions(items) == OfTypes(found, {entityType})
  {
    forall i | i in OfTypes(found, {entityType}) ensures i in Positions(items) {
      assert Stands(items, i);
    }
  }

  lemma OneMoreType(found: seq<Found>, entries: seq<Entry>, types: set<string>, t: string,
                    items: seq<Item>, more: seq<Entry>)
    requires Emitted(found, entries, OfTypes(found, types)) && t !in types
    requires ItemsOf(found, t, items) && Emitted(found, more, Positions(items))
    ensures Emitted(found, entries + more, OfTypes(found, types + {t}))
  {
    PositionsOfAType(found, t, items);
    EmittedAppends(found, entries, OfTypes(found, types), more, OfTypes(found, {t}));
    assert OfTypes(found, types + {t}) == OfTypes(found, types) + OfTypes(found, {t});
  }

  function Results(entries: seq<Entry>): seq<Finding> {
    seq(|entries|, k requires 0 <= k < |entries| => entries[k].result)
  }

  lemma SortedEntriesAreEmitted(found: seq<Found>, entries: seq<Entry>, done: set<int>)
    requires Emitted(found, entries, done)
    ensures Emitted(found, SortedBy(entries, EntryKey), done)
    ensures StrictlySortedBy(SortedBy(entries, EntryKey), EntryKey)
  {
    hide EntryOk, SortedBy;
    var sorted := SortedBy(entries, EntryKey);
    SortKeepsMembers(entries, EntryKey);
    SortSorts(entries, EntryKey);
    forall k | 0 <= k < |sorted| ensures EntryOk(found, sorted[k]) && sorted[k].position in done {
      assert sorted[k] in entries;
    }
    forall i | i in done && Leads(found, i) ensures Told(sorted, i) {
      var k :| 0 <= k < |entries| && entries[k].position == i;
      assert entries[k] in sorted;
    }
    forall k, l | 0 <= k < l < |sorted| ensures sorted[k].position != sorted[l].position {
      DifferentEntries(found, sorted, k, l);
    }
  }

  lemma DifferentEntries(found: seq<Found>, sorted: seq<Entry>, k: int, l: int)
    requires StrictlySortedBy(sorted, EntryKey) && 0 <= k < l < |sorted|
    requires EntryOk(found, sorted[k]) && EntryOk(found, sorted[l])
    ensures sorted[k].position != sorted[l].position
  {
    assert KeyLess(EntryKey(sorted[k]), EntryKey(sorted[l]));
  }

  ghost function Leaders(entries: seq<Entry>): seq<int> {
    seq(|entries|, k requires 0 <= k < |entries| => entries[k].position)
  }

  lemma KeysOfEntries(found: seq<Found>, entries: seq<Entry>, done: set<int>)
    requires Emitted(found, entries, done) && StrictlySortedBy(entries, EntryKey)
    ensures StrictlySorted(Keys(Results(entries), Leaders(entries)))
  {
    var keys := Keys(Results(entries), Leaders(entries));
    forall k, l | 0 <= k < l < |keys| ensures Precedes(keys[k], keys[l]) {
      assert KeyLess(EntryKey(entries[k]), EntryKey(entries[l]));
      assert EntryOk(found, entries[k]) && EntryOk(found, entries[l]);
    }
  }

  lemma EntriesAreAMerge(found: seq<Found>, entries: seq<Entry>, done: set<int>)
    requires Emitted(found, entries, done) && StrictlySortedBy(entries, EntryKey)
    requires forall i :: In(found, i) ==> i in done
    ensures IsMerge(found, Results(entries), Leaders(entries))
  {
    hide Unit, Spans, FirstBest, Best;
    var merged, leaders := Results(entries), Leaders(entries);
    KeysOfEntries(found, entries, done);
    forall i | Leads(found, i) ensures i in leaders {
      assert Told(entries, i);
      var k :| 0 <= k < |entries| && entries[k].position == i;
      assert leaders[k] == i;
    }
    forall k | 0 <= k < |leaders|
      ensures Leads(found, leaders[k]) && UnitesAsFirst(found, Unit(found, leaders[k]), merged[k])
      ensures Unites(found, Unit(found, leaders[k]), merged[k])
    {
      assert EntryOk(found, entries[k]);
      FirstIsOne(found, Unit(found, leaders[k]), merged[k]);
    }
  }

  lemma FirstIsOne(found: seq<Found>, s: set<int>, f: Finding)
    requires UnitesAsFirst(found, s, f)
    ensures Unites(found, s, f)
  {
    var b :| FirstBest(found, s, b) && TakesAfter(found, b, f);
    assert Best(found, s, b);
  }

  // The merge of all the types, each swept once; `todo` gives them in any order.
  method MergeAcrossChunks(found: seq<Found>) returns (merged: seq<Finding>)
    requires Oriented(found)
    ensures exists leaders :: IsMerge(found, merged, leaders)
  {
    hide ItemsOf, Emitted, OfTypes, Positions, SortedBy, StrictlySortedBy, IsMerge, Oriented;
    var byType := GroupByType(found);
    var entries: seq<Entry> := [];
    var types := byType.Keys;
    NothingEmitted(found);
    while types != {}
      invariant types <= byType.Keys
      invariant Emitted(found, entries, OfTypes(found, byType.Keys - types))
    {
      var t :| t in types;
      SortedItemsOf(found, t, byType[t]);
      var items := SortedBy(byType[t], ItemKey);
      var ofType := SweepType(found, t, items);
      SortedItemsAreItems(found, t, items);
      OneMoreType(found, entries, byType.Keys - types, t, items, ofType);
      assert byType.Keys - types + {t} == byType.Keys - (types - {t});
      entries := entries + ofType;
      types := types - {t};
    }
    assert byType.Keys - {} == byType.Keys;
    var sorted := SortedBy(entries, EntryKey);
    SortedEntriesAreEmitted(found, entries, OfTypes(found, byType.Keys));
    AllTypesAreAll(found, byType.Keys);
    EntriesAreAMerge(found, sorted, OfTypes(found, byType.Keys));
    merged := Results(sorted);
  }

  lemma NothingEmitted(found: seq<Found>)
    ensures forall types :: types == {} ==> Emitted(found, [], OfTypes(found, types))
  {
  }

  lemma SortedItemsAreItems(found: seq<Found>, t: string, items: seq<Item>)
    requires SortedItems(found, t, items)
    ensures ItemsOf(found, t, items)
  {
  }

  lemma AllTypesAreAll(found: seq<Found>, types: set<string>)
    requires forall i :: In(found, i) ==> found[i].result.entityType in types
    ensures forall i :: In(found, i) ==> i in OfTypes(found, types)
  {
  }
}
