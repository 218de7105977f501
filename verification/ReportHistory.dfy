// What the row of an instance and the row of a day tell of all the reports that were stored.
module ReportHistory {
  import opened Wrappers
  import opened Reports

  // ---- The reports stored one after the other ----

  datatype Handed = Handed(report: Report, limit: InstanceCap)

  ghost function StoreAll(t: Tables, sent: seq<Handed>): Tables {
    if sent == [] then t
    else
      var last := sent[|sent| - 1];
      StoreReport(StoreAll(t, sent[..|sent| - 1]), last.report, last.limit).0
  }

  // Those that were not refused.
  ghost function Kept(t: Tables, sent: seq<Handed>): seq<Report> {
    if sent == [] then []
    else
      var before, last := sent[..|sent| - 1], sent[|sent| - 1];
      if TooMany(StoreAll(t, before).instances, last.report, last.limit) then Kept(t, before)
      else Kept(t, before) + [last.report]
  }

  function OfInstance(reports: seq<Report>, k: InstanceKey): seq<Report> {
    if reports == [] then []
    else
      var before, last := OfInstance(reports[..|reports| - 1], k), reports[|reports| - 1];
      if (last.license, last.instance) == k then before + [last] else before
  }

  function OfDay(reports: seq<Report>, k: ReportKey): seq<Report> {
    if reports == [] then []
    else
      var before, last := OfDay(reports[..|reports| - 1], k), reports[|reports| - 1];
      if KeyOfReport(last) == k then before + [last] else before
  }

  // ---- The rows they leave ----

  function InstanceAfter(reports: seq<Report>): Option<Instance> {
    if reports == [] then None
    else Some(Upserted(InstanceAfter(reports[..|reports| - 1]), reports[|reports| - 1]))
  }

  function DayAfter(reports: seq<Report>): Option<ReportRow> {
    if reports == [] then None
    else Some(RowAfter(DayAfter(reports[..|reports| - 1]), reports[|reports| - 1]))
  }

  lemma InstanceAfterOneMore(reports: seq<Report>, r: Report)
    ensures InstanceAfter(reports + [r]) == Some(Upserted(InstanceAfter(reports), r))
  {
    assert (reports + [r])[..|reports|] == reports;
  }

  lemma DayAfterOneMore(reports: seq<Report>, r: Report)
    ensures DayAfter(reports + [r]) == Some(RowAfter(DayAfter(reports), r))
  {
    assert (reports + [r])[..|reports|] == reports;
  }

  lemma OfOneMore(reports: seq<Report>, r: Report, k: InstanceKey, d: ReportKey)
    ensures OfInstance(reports + [r], k) == OfInstance(reports, k) + (if (r.license, r.instance) == k then [r] else [])
    ensures OfDay(reports + [r], d) == OfDay(reports, d) + (if KeyOfReport(r) == d then [r] else [])
  {
    assert (reports + [r])[..|reports|] == reports;
  }

  // The row of an instance is what its own reports make of it, and so is the row of a day: those of
  // others, and those that were refused, change nothing of it.
  lemma {:induction false} RowsAreOfTheirOwn(t: Tables, sent: seq<Handed>, k: InstanceKey, d: ReportKey)
    requires k !in t.instances && d !in t.reports
    ensures Lookup(StoreAll(t, sent).instances, k) == InstanceAfter(OfInstance(Kept(t, sent), k))
    ensures Lookup(StoreAll(t, sent).reports, d) == DayAfter(OfDay(Kept(t, sent), d))
  {
    hide Upserted, RowAfter, TooMany, OfInstance, OfDay, InstanceAfter, DayAfter, KeyOfReport, OutcomeOf, StoreReport;
    if sent == [] {
      NoneYet(k, d);
    } else {
      var before, last := sent[..|sent| - 1], sent[|sent| - 1];
      RowsAreOfTheirOwn(t, before, k, d);
      StoredOne(StoreAll(t, before), last, k, d);
      if !TooMany(StoreAll(t, before).instances, last.report, last.limit) {
        var kept, r := Kept(t, before), last.report;
        OfOneMore(kept, r, k, d);
        InstanceAfterOneMore(OfInstance(kept, k), r);
        DayAfterOneMore(OfDay(kept, d), r);
        assert OfInstance(kept, k) + [] == OfInstance(kept, k);
        assert OfDay(kept, d) + [] == OfDay(kept, d);
      }
    }
  }

  lemma NoneYet(k: InstanceKey, d: ReportKey)
    ensures InstanceAfter(OfInstance([], k)) == None && DayAfter(OfDay([], d)) == None
  {
  }

  lemma StoredOne(t: Tables, s: Handed, k: InstanceKey, d: ReportKey)
    ensures var u := StoreReport(t, s.report, s.limit).0;
      if TooMany(t.instances, s.report, s.limit) then u == t
      else
        && Lookup(u.instances, k) ==
           (if (s.report.license, s.report.instance) == k then Some(Upserted(Lookup(t.instances, k), s.report))
            else Lookup(t.instances, k))
        && Lookup(u.reports, d) ==
           (if KeyOfReport(s.report) == d then Some(RowAfter(Lookup(t.reports, d), s.report)) else Lookup(t.reports, d))
  {
    hide Upserted, RowAfter, TooMany, OutcomeOf;
  }

  // ---- The first report of a day, and the others ----

  function Differing(reports: seq<Report>, document: string): seq<Report> {
    if reports == [] then []
    else
      var before, last := Differing(reports[..|reports| - 1], document), reports[|reports| - 1];
      if last.document == document then before else before + [last]
  }

  ghost predicate IsLatestOf(at: Option<int>, reports: seq<Report>) {
    if reports == [] then at == None
    else
      && at.Some?
      && (exists k :: 0 <= k < |reports| && reports[k].receivedAt == at.value)
      && (forall k :: 0 <= k < |reports| ==> reports[k].receivedAt <= at.value)
  }

  lemma LatestOfOneMore(at: Option<int>, reports: seq<Report>, r: Report)
    requires IsLatestOf(at, reports)
    ensures IsLatestOf(Some(if at.None? then r.receivedAt else Later(at.value, r.receivedAt)), reports + [r])
  {
    var more := reports + [r];
    assert more[|reports|] == r;
    if at.Some? {
      var k :| 0 <= k < |reports| && reports[k].receivedAt == at.value;
      assert more[k] == reports[k];
    }
  }

  // The first report of a day stays, as it was received. A conflict is counted for each report of
  // another document, and for no repeat, and the last of them is told.
  lemma {:induction false} FirstStaysAndConflictsCount(reports: seq<Report>)
    requires reports != []
    ensures DayAfter(reports).Some?
    ensures var row, first := DayAfter(reports).value, reports[0];
      && row.document == first.document && row.seal == first.seal && row.receivedAt == first.receivedAt
      && row.conflicts == |Differing(reports, first.document)|
      && IsLatestOf(row.lastConflictAt, Differing(reports, first.document))
  {
    hide IsLatestOf;
    var before, last := reports[..|reports| - 1], reports[|reports| - 1];
    if before == [] {
      NothingDiffers(last);
    } else {
      FirstStaysAndConflictsCount(before);
      LatestOfOneMore(DayAfter(before).value.lastConflictAt, Differing(before, reports[0].document), last);
    }
  }

  lemma NothingDiffers(r: Report)
    ensures Differing([], r.document) == [] && IsLatestOf(None, [])
  {
  }

  // ---- The news of an instance ----

  // A report is news when its day is later than those of all the reports before it.
  ghost predicate IsNews(reports: seq<Report>, k: int) {
    0 <= k < |reports| && forall j :: 0 <= j < k ==> reports[j].day < reports[k].day
  }

  // The last of the news.
  ghost predicate IsLastNews(reports: seq<Report>, k: int) {
    IsNews(reports, k) && forall j :: 0 <= j < |reports| ==> reports[j].day <= reports[k].day
  }

  // The last of the news that says how the instance is installed.
  ghost predicate IsLastKind(reports: seq<Report>, k: int) {
    && IsNews(reports, k) && reports[k].installKind.Some?
    && forall j :: k < j && IsNews(reports, j) ==> reports[j].installKind.None?
  }

  ghost predicate KindIs(reports: seq<Report>, kind: Option<string>) {
    match kind
    case None => forall j :: IsNews(reports, j) ==> reports[j].installKind.None?
    case Some(_) => exists k :: IsLastKind(reports, k) && reports[k].installKind == kind
  }

  ghost predicate FirstSeenIs(reports: seq<Report>, at: int) {
    && (exists k :: 0 <= k < |reports| && reports[k].receivedAt == at)
    && (forall k :: 0 <= k < |reports| ==> at <= reports[k].receivedAt)
  }

  ghost predicate LastSeenIs(reports: seq<Report>, at: int) {
    && (exists k :: IsNews(reports, k) && reports[k].receivedAt == at)
    && (forall k :: IsNews(reports, k) ==> reports[k].receivedAt <= at)
  }

  ghost predicate LatestIs(reports: seq<Report>, day: int, version: string) {
    exists k :: IsLastNews(reports, k) && reports[k].day == day && reports[k].version == version
  }

  lemma NewsOnly(reports: seq<Report>)
    ensures forall j :: IsNews(reports, j) ==> 0 <= j < |reports|
  {
  }

  lemma NewsOfOneMore(reports: seq<Report>, r: Report, k: int)
    ensures k < |reports| ==> (IsNews(reports + [r], k) <==> IsNews(reports, k))
    ensures k > |reports| ==> !IsNews(reports + [r], k)
    ensures k == |reports| ==> (IsNews(reports + [r], k) <==> forall j :: 0 <= j < |reports| ==> reports[j].day < r.day)
  {
    var more := reports + [r];
    assert forall j :: 0 <= j < |reports| ==> more[j] == reports[j];
  }

  lemma NewsAsBefore(reports: seq<Report>, r: Report, day: int, version: string)
    requires LatestIs(reports, day, version)
    ensures IsNews(reports + [r], |reports|) <==> day < r.day
    ensures forall k :: k != |reports| ==> (IsNews(reports + [r], k) <==> IsNews(reports, k))
  {
    var last :| IsLastNews(reports, last) && reports[last].day == day;
    NewsOfOneMore(reports, r, |reports|);
    forall k | k != |reports|
      ensures IsNews(reports + [r], k) <==> IsNews(reports, k)
    {
      NewsOfOneMore(reports, r, k);
    }
  }

  lemma FirstSeenAfter(reports: seq<Report>, r: Report, at: int)
    requires FirstSeenIs(reports, at)
    ensures FirstSeenIs(reports + [r], Earlier(at, r.receivedAt))
  {
    var more := reports + [r];
    var k :| 0 <= k < |reports| && reports[k].receivedAt == at;
    assert more[k] == reports[k] && more[|reports|] == r;
  }

  lemma LatestAfter(reports: seq<Report>, r: Report, day: int, version: string)
    requires LatestIs(reports, day, version)
    ensures LatestIs(reports + [r], Later(day, r.day), if day < r.day then r.version else version)
  {
    hide IsNews;
    var more := reports + [r];
    NewsOnly(reports);
    var k :| IsLastNews(reports, k) && reports[k].day == day && reports[k].version == version;
    NewsAsBefore(reports, r, day, version);
    if day < r.day {
      assert IsLastNews(more, |reports|);
    } else {
      assert IsLastNews(more, k);
    }
  }

  lemma LastSeenAfter(reports: seq<Report>, r: Report, at: int, day: int, version: string)
    requires LastSeenIs(reports, at) && LatestIs(reports, day, version)
    ensures LastSeenIs(reports + [r], if day < r.day then Later(at, r.receivedAt) else at)
  {
    hide IsNews, LatestIs;
    var more := reports + [r];
    NewsAsBefore(reports, r, day, version);
    NewsOnly(reports);
    var k :| IsNews(reports, k) && reports[k].receivedAt == at;
    assert IsNews(more, k) && more[k] == reports[k];
    assert forall j :: IsNews(more, j) ==>
        j == |reports| || (IsNews(reports, j) && 0 <= j < |reports| && more[j] == reports[j]);
  }

  lemma KindAfter(reports: seq<Report>, r: Report, kind: Option<string>, day: int, version: string)
    requires KindIs(reports, kind) && LatestIs(reports, day, version)
    ensures KindIs(reports + [r], if day < r.day && r.installKind.Some? then r.installKind else kind)
  {
    hide IsNews, LatestIs;
    var more := reports + [r];
    NewsAsBefore(reports, r, day, version);
    NewsOnly(reports);
    assert forall j :: IsNews(more, j) ==>
        j == |reports| || (IsNews(reports, j) && 0 <= j < |reports| && more[j] == reports[j]);
    if day < r.day && r.installKind.Some? {
      NewsOnly(more);
      assert IsLastKind(more, |reports|);
    } else if kind.Some? {
      var k :| IsLastKind(reports, k) && reports[k].installKind == kind;
      assert IsLastKind(more, k);
    }
  }

  lemma FirstIsNews(r: Report)
    ensures FirstSeenIs([r], r.receivedAt) && LastSeenIs([r], r.receivedAt) && LatestIs([r], r.day, r.version)
    ensures KindIs([r], r.installKind)
  {
    assert IsLastNews([r], 0);
    if r.installKind.Some? {
      assert IsLastKind([r], 0);
    }
  }

  // An instance is first seen at the earliest reception of its reports. Its latest state is of its
  // news only: the day and the version of the last of them, the last reception among them, and what
  // the last one that says so says of its installation. Of reports that are not news, the reception
  // may only count as the earliest.
  lemma {:induction false} InstanceTellsItsNews(reports: seq<Report>)
    requires reports != []
    ensures InstanceAfter(reports).Some?
    ensures var i := InstanceAfter(reports).value;
      && FirstSeenIs(reports, i.firstSeenAt) && LastSeenIs(reports, i.lastSeenAt)
      && LatestIs(reports, i.lastReportDay, i.version) && KindIs(reports, i.installKind)
  {
    hide FirstSeenIs, LastSeenIs, LatestIs, KindIs;
    var before, last := reports[..|reports| - 1], reports[|reports| - 1];
    assert reports == before + [last];
    if before == [] {
      FirstIsNews(last);
      assert reports == [last];
    } else {
      InstanceTellsItsNews(before);
      var i := InstanceAfter(before).value;
      FirstSeenAfter(before, last, i.firstSeenAt);
      LastSeenAfter(before, last, i.lastSeenAt, i.lastReportDay, i.version);
      LatestAfter(before, last, i.lastReportDay, i.version);
      KindAfter(before, last, i.installKind, i.lastReportDay, i.version);
    }
  }
}
