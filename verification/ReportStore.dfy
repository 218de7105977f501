// The store of the usage reports and the intake, each method one transaction or a sequence of them.
module ReportStore {
  import opened Wrappers
  import opened Reports
  import opened Intake
  import opened Sorting

  class Store {
    var licenses: map<string, License>
    var instances: map<InstanceKey, Instance>
    var reports: map<ReportKey, ReportRow>
    var pending: map<PendingKey, PendingRow>
    var rejections: map<(string, int), Rejections>

    // How the database orders the ids of instances.
    const collate: string -> int

    ghost function View(): Tables
      reads this
    {
      Tables(licenses, instances, reports, pending, rejections)
    }

    constructor (collate: string -> int)
      ensures View() == Tables(map[], map[], map[], map[], map[])
    {
      licenses, instances, reports, pending, rejections := map[], map[], map[], map[], map[];
      this.collate := collate;
    }

    // Adds the row of a key that has none. A row that is there is not changed.
    method InsertUsageReport(report: Report) returns (inserted: bool)
      modifies this`reports
      ensures inserted <==> KeyOfReport(report) !in old(reports)
      ensures reports == if inserted
                         then old(reports)[KeyOfReport(report) :=
                                ReportRow(report.document, report.seal, report.receivedAt, 0, None)]
                         else old(reports)
    {
      var key := KeyOfReport(report);
      if key in reports {
        return false;
      }
      reports := reports[key := ReportRow(report.document, report.seal, report.receivedAt, 0, None)];
      return true;
    }

    // Adds one to the conflicts of the row when the document is not the one in it.
    method CountUsageReportConflict(report: Report) returns (differing: bool)
      requires KeyOfReport(report) in reports
      modifies this`reports
      ensures differing <==> old(reports)[KeyOfReport(report)].document != report.document
      ensures reports == old(reports)[KeyOfReport(report) :=
                           RowAfter(Some(old(reports)[KeyOfReport(report)]), report)]
    {
      var key := KeyOfReport(report);
      var row := reports[key];
      if row.document == report.document {
        assert reports == reports[key := row];
        return false;
      }
      var at := match row.lastConflictAt
                case None => report.receivedAt
                case Some(last) => Later(last, report.receivedAt);
      reports := reports[key := row.(conflicts := row.conflicts + 1, lastConflictAt := Some(at))];
      return true;
    }

    // Writes the row of the instance, then the row of the day; writes neither past the cap.
    method StoreReport(report: Report, limit: InstanceCap) returns (outcome: ReportOutcome)
      modifies this`instances, this`reports
      ensures (View(), outcome) == Reports.StoreReport(old(View()), report, limit)
    {
      hide Upserted, SeenLately, RowAfter;
      var lately := SeenLately(instances, report.license, limit.since);
      if report.instance !in lately && |lately| >= limit.max {
        return ReportTooManyInstances;
      }
      var seen := (report.license, report.instance);
      instances := instances[seen := Upserted(Lookup(instances, seen), report)];
      ghost var before := reports;
      var inserted := InsertUsageReport(report);
      InsertedRow(before, report);
      if inserted {
        return ReportStored;
      }
      var differing := CountUsageReportConflict(report);
      return if differing then ReportConflict else ReportRepeat;
    }

    method CountSealRejection(license: string, day: int, at: int)
      modifies this`rejections
      ensures View() == Reports.CountSealRejection(old(View()), license, day, at)
    {
      var key := (license, day);
      var count := if key in rejections then rejections[key].count else 0;
      rejections := rejections[key := Rejections(count + 1, at)];
    }

    // Adds the pending row of a key that has none, while there are fewer rows than the caps.
    method KeepPending(key: PendingKey, row: PendingRow, caps: PendingCaps) returns (kept: bool)
      modifies this`pending
      ensures (View(), kept) == Reports.KeepPending(old(View()), key, row, caps)
    {
      if key in pending {
        return true;
      }
      if |PendingOf(pending, key.fingerprint)| >= caps.perFingerprint {
        return false;
      }
      if |pending| >= caps.total {
        return false;
      }
      pending := pending[key := row];
      return true;
    }

    // The keys are gathered in any order, then their rows are sorted.
    method PendingReports(fingerprint: string) returns (list: seq<Listed>)
      ensures IsPendingList(View(), fingerprint, list)
    {
      var rows: seq<Listed> := [];
      var todo := PendingOf(pending, fingerprint);
      while todo != {}
        invariant todo <= PendingOf(pending, fingerprint)
        invariant ListsAllBut(pending, fingerprint, rows, todo)
      {
        var key :| key in todo;
        OneMoreListed(pending, fingerprint, rows, todo, key);
        rows := rows + [Listed(key, pending[key])];
        todo := todo - {key};
      }
      var listKey := (p: Listed) => (p.key.day, collate(p.key.instance), p.row.receivedAt);
      list := SortedBy(rows, listKey);
      SortedListIsAList(View(), fingerprint, rows, collate, listKey);
    }

    method DeletePending(key: PendingKey) returns (deleted: bool)
      modifies this`pending
      ensures deleted <==> key in old(pending)
      ensures View() == Reports.Discard(old(View()), key)
    {
      deleted := key in pending;
      pending := pending - {key};
    }

    // `StoreReport`, after which no row is left under the key even when nothing was stored.
    method PromotePendingReport(key: PendingKey, report: Report, limit: InstanceCap) returns (outcome: ReportOutcome)
      modifies this`instances, this`reports, this`pending
      ensures (View(), outcome) == Reports.PromoteReport(old(View()), key, report, limit)
    {
      outcome := StoreReport(report, limit);
      var _ := DeletePending(key);
    }

    // A key that has no row leaves the rejections as they are.
    method DiscardPendingReportForItsSeal(key: PendingKey, license: string, day: int, at: int)
      modifies this`pending, this`rejections
      ensures View() == Reports.DiscardForItsSeal(old(View()), key, license, day, at)
    {
      var deleted := DeletePending(key);
      if !deleted {
        assert pending == old(pending);
        return;
      }
      CountSealRejection(license, day, at);
    }
  }

  lemma InsertedRow(before: map<ReportKey, ReportRow>, report: Report)
    ensures var key := KeyOfReport(report);
            key !in before ==> RowAfter(Lookup(before, key), report) ==
                               ReportRow(report.document, report.seal, report.receivedAt, 0, None)
  {
  }

  // ---- The list ----

  ghost predicate ListsAllBut(
    pending: map<PendingKey, PendingRow>, fingerprint: string, rows: seq<Listed>, todo: set<PendingKey>)
  {
    && (forall n :: 0 <= n < |rows| ==>
          && rows[n].key in PendingOf(pending, fingerprint) && rows[n].key !in todo
          && rows[n].row == pending[rows[n].key])
    && (forall k :: k in PendingOf(pending, fingerprint) && k !in todo ==> IsListed(rows, k))
    && (forall n, m :: 0 <= n < m < |rows| ==> rows[n].key != rows[m].key)
  }

  lemma OneMoreListed(
    pending: map<PendingKey, PendingRow>, fingerprint: string, rows: seq<Listed>, todo: set<PendingKey>, key: PendingKey)
    requires ListsAllBut(pending, fingerprint, rows, todo)
    requires todo <= PendingOf(pending, fingerprint) && key in todo
    ensures ListsAllBut(pending, fingerprint, rows + [Listed(key, pending[key])], todo - {key})
  {
    var longer := rows + [Listed(key, pending[key])];
    forall k | k in PendingOf(pending, fingerprint) && k !in todo - {key} ensures IsListed(longer, k) {
      if k == key {
        assert longer[|rows|].key == k;
      } else {
        var n :| 0 <= n < |rows| && rows[n].key == k;
        assert longer[n].key == k;
      }
    }
  }

  lemma ListedAsTheyAre(
    t: Tables, fingerprint: string, rows: seq<Listed>, list: seq<Listed>, n: nat)
    requires ListsAllBut(t.pending, fingerprint, rows, {}) && n < |list| && list[n] in rows
    ensures list[n].key in t.pending && list[n].key.fingerprint == fingerprint
    ensures list[n].row == t.pending[list[n].key]
  {
  }

  lemma NoneIsLeftOut(t: Tables, fingerprint: string, rows: seq<Listed>, list: seq<Listed>, k: PendingKey)
    requires ListsAllBut(t.pending, fingerprint, rows, {}) && k in t.pending && k.fingerprint == fingerprint
    requires forall p :: p in rows ==> p in list
    ensures IsListed(list, k)
  {
    assert IsListed(rows, k);
    var n :| 0 <= n < |rows| && rows[n].key == k;
    assert rows[n] in list;
  }

  lemma RowsAreDistinct(t: Tables, fingerprint: string, rows: seq<Listed>)
    requires ListsAllBut(t.pending, fingerprint, rows, {})
    ensures Distinct(rows)
    ensures forall p, q :: p in rows && q in rows && p != q ==> p.key != q.key
  {
    hide IsListed;
  }

  lemma InOrderOfKeys(a: Listed, b: Listed, collate: string -> int, listKey: Listed -> Key)
    requires forall p: Listed :: listKey(p) == (p.key.day, collate(p.key.instance), p.row.receivedAt)
    requires !KeyLess(listKey(b), listKey(a)) && a.key != b.key
    ensures InListOrder(a, b)
  {
  }

  lemma SortedListIsAList(
    t: Tables, fingerprint: string, rows: seq<Listed>, collate: string -> int, listKey: Listed -> Key)
    requires ListsAllBut(t.pending, fingerprint, rows, {})
    requires forall p: Listed :: listKey(p) == (p.key.day, collate(p.key.instance), p.row.receivedAt)
    ensures IsPendingList(t, fingerprint, SortedBy(rows, listKey))
  {
    hide SortedBy, ListsAllBut, InListOrder, IsListed, KeyLess;
    var list := SortedBy(rows, listKey);
    SortKeepsMembers(rows, listKey);
    SortSortsLoosely(rows, listKey);
    RowsAreDistinct(t, fingerprint, rows);
    SortKeepsDistinct(rows, listKey);
    forall n | 0 <= n < |list|
      ensures list[n].key in t.pending && list[n].key.fingerprint == fingerprint
      ensures list[n].row == t.pending[list[n].key]
    {
      assert list[n] in rows;
      ListedAsTheyAre(t, fingerprint, rows, list, n);
    }
    forall k | k in t.pending && k.fingerprint == fingerprint
      ensures IsListed(list, k)
    {
      NoneIsLeftOut(t, fingerprint, rows, list, k);
    }
    forall n, m | 0 <= n < m < |list|
      ensures InListOrder(list[n], list[m])
    {
      assert list[n] in rows && list[m] in rows;
      InOrderOfKeys(list[n], list[m], collate, listKey);
    }
  }

  // ---- The intake ----

  class Receiver {
    const store: Store
    const w: World

    constructor (store: Store, w: World)
      ensures this.store == store && this.w == w
    {
      this.store := store;
      this.w := w;
    }

    // The shapes are looked at first, then the document, then the license; only then the seal.
    method Receive(document: string, seal: string, fingerprint: string, at: int) returns (outcome: Outcome)
      modifies store
      ensures (store.View(), outcome) == Intake.Receive(w, old(store.View()), Sent(document, seal, fingerprint, at))
    {
      hide HexShaped, Read, Says, Reports.StoreReport, Reports.KeepPending;
      if !HexShaped(seal) || !HexShaped(fingerprint) {
        return Refused;
      }
      var told := Read(w, document, at);
      if told.None? || told.value.fingerprint != fingerprint {
        return Refused;
      }
      if fingerprint !in store.licenses {
        var key := PendingKey(fingerprint, told.value.instance, told.value.day, seal);
        var kept := store.KeepPending(key, PendingRow(document, at), PENDING_CAPS);
        return if kept then Pending else Full;
      }
      var issued := store.licenses[fingerprint];
      if !w.sealed(issued.encoded, document, seal) {
        store.CountSealRejection(issued.id, UtcDay(at), at);
        return Refused;
      }
      if !Says(w, told.value, issued) {
        return Refused;
      }
      var stored := store.StoreReport(ReportOf(told.value, issued, document, seal, at), CapAt(at));
      return Answer(stored);
    }

    // Every path removes the row of `p`; `kept` tells whether it was stored, a repeat or a conflict.
    method Promote(issued: License, p: Listed, now: int) returns (kept: bool)
      modifies store
      ensures (store.View(), kept) == Intake.Promote(w, old(store.View()), issued, p, now)
    {
      hide HexShaped, Read, Says, Reports.StoreReport, Reports.KeepPending, Reports.Discard;
      var told := Read(w, p.row.document, p.row.receivedAt);
      if told.None? || told.value.fingerprint != p.key.fingerprint {
        var _ := store.DeletePending(p.key);
        return false;
      }
      if !w.sealed(issued.encoded, p.row.document, p.key.seal) {
        store.DiscardPendingReportForItsSeal(p.key, issued.id, UtcDay(now), now);
        return false;
      }
      if !Says(w, told.value, issued) {
        var _ := store.DeletePending(p.key);
        return false;
      }
      var outcome := store.PromotePendingReport(
        p.key, ReportOf(told.value, issued, p.row.document, p.key.seal, p.row.receivedAt),
        CapAt(p.row.receivedAt));
      return outcome != ReportTooManyInstances;
    }

    // `Promote` for each row of the list, which is read before the first of them changes the tables.
    method PromotePending(fingerprint: string, now: int) returns (stored: nat, discarded: nat)
      modifies store
      ensures fingerprint !in old(store.licenses) ==> store.View() == old(store.View()) && stored == 0 && discarded == 0
      ensures fingerprint in old(store.licenses) ==>
                exists list :: IsPendingList(old(store.View()), fingerprint, list)
                  && (store.View(), stored, discarded) ==
                     PromoteAll(w, old(store.View()), old(store.licenses[fingerprint]), list, now)
    {
      hide Intake.Promote;
      if fingerprint !in store.licenses {
        return 0, 0;
      }
      var issued := store.licenses[fingerprint];
      ghost var before := store.View();
      var list := store.PendingReports(fingerprint);
      stored, discarded := 0, 0;
      assert list[..0] == [];
      for n := 0 to |list|
        invariant (store.View(), stored, discarded) == PromoteAll(w, before, issued, list[..n], now)
      {
        assert list[..n + 1][..n] == list[..n];
        var kept := Promote(issued, list[n], now);
        if kept {
          stored := stored + 1;
        } else {
          discarded := discarded + 1;
        }
      }
      assert list[..|list|] == list;
    }
  }
}
