// The tables of the usage reports, and what each transaction makes of them.
module Reports {
  import opened Wrappers

  // ---- The rows ----

  // A license that was issued, found by the fingerprint of its key.
  datatype License = License(id: string, encoded: string)

  datatype Instance = Instance(
    firstSeenAt: int, lastSeenAt: int, lastReportDay: int, version: string, installKind: Option<string>)

  // The first report received of an instance for a day, and how many others differed from it.
  datatype ReportRow = ReportRow(
    document: string, seal: string, receivedAt: int, conflicts: nat, lastConflictAt: Option<int>)

  datatype PendingKey = PendingKey(fingerprint: string, instance: string, day: int, seal: string)

  datatype PendingRow = PendingRow(document: string, receivedAt: int)

  datatype Rejections = Rejections(count: nat, lastAt: int)

  type InstanceKey = (string, string)
  type ReportKey = (string, string, int)

  datatype Tables = Tables(
    licenses: map<string, License>,
    instances: map<InstanceKey, Instance>,
    reports: map<ReportKey, ReportRow>,
    pending: map<PendingKey, PendingRow>,
    rejections: map<(string, int), Rejections>)

  // What is stored: the license is the one that was found, not the one the document states.
  datatype Report = Report(
    license: string, instance: string, day: int, document: string, seal: string,
    version: string, installKind: Option<string>, receivedAt: int)

  datatype ReportOutcome = ReportStored | ReportRepeat | ReportConflict | ReportTooManyInstances

  // At most `max` instances count, of those whose last report is of the day `since` or later.
  datatype InstanceCap = InstanceCap(max: nat, since: int)

  datatype PendingCaps = PendingCaps(perFingerprint: nat, total: nat)

  // ---- Storing a report ----

  // What the cap of a license counts: its instances whose last day is `since` or later.
  function SeenLately(instances: map<InstanceKey, Instance>, license: string, since: int): set<string> {
    set k | k in instances && k.0 == license && since <= instances[k].lastReportDay :: k.1
  }

  predicate TooMany(instances: map<InstanceKey, Instance>, report: Report, limit: InstanceCap) {
    var lately := SeenLately(instances, report.license, limit.since);
    report.instance !in lately && limit.max <= |lately|
  }

  function Later(a: int, b: int): int { if a < b then b else a }

  function Earlier(a: int, b: int): int { if a < b then a else b }

  // The row of an instance after one more report: its day, version and last reception change when the
  // day of the report is past the one in the row, the earliest reception always may.
  function Upserted(known: Option<Instance>, report: Report): Instance {
    match known
    case None =>
      Instance(report.receivedAt, report.receivedAt, report.day, report.version, report.installKind)
    case Some(i) =>
      var newer := i.lastReportDay < report.day;
      Instance(
        Earlier(i.firstSeenAt, report.receivedAt),
        if newer then Later(i.lastSeenAt, report.receivedAt) else i.lastSeenAt,
        Later(i.lastReportDay, report.day),
        if newer then report.version else i.version,
        if newer && report.installKind.Some? then report.installKind else i.installKind)
  }

  function Lookup<K, V>(m: map<K, V>, k: K): Option<V> {
    if k in m then Some(m[k]) else None
  }

  function KeyOfReport(report: Report): ReportKey {
    (report.license, report.instance, report.day)
  }

  // The row of a report that is stored, or what a later one makes of the row that is there.
  function RowAfter(known: Option<ReportRow>, report: Report): ReportRow {
    match known
    case None => ReportRow(report.document, report.seal, report.receivedAt, 0, None)
    case Some(row) =>
      if row.document == report.document then row
      else row.(conflicts := row.conflicts + 1,
                lastConflictAt := Some(match row.lastConflictAt
                                       case None => report.receivedAt
                                       case Some(at) => Later(at, report.receivedAt)))
  }

  function OutcomeOf(known: Option<ReportRow>, report: Report): ReportOutcome {
    match known
    case None => ReportStored
    case Some(row) => if row.document == report.document then ReportRepeat else ReportConflict
  }

  ghost function StoreReport(t: Tables, report: Report, limit: InstanceCap): (Tables, ReportOutcome) {
    if TooMany(t.instances, report, limit) then (t, ReportTooManyInstances)
    else
      var seen := (report.license, report.instance);
      var key := KeyOfReport(report);
      (t.(instances := t.instances[seen := Upserted(Lookup(t.instances, seen), report)],
          reports := t.reports[key := RowAfter(Lookup(t.reports, key), report)]),
       OutcomeOf(Lookup(t.reports, key), report))
  }

  // ---- Reports whose license is not known ----

  function PendingOf(pending: map<PendingKey, PendingRow>, fingerprint: string): set<PendingKey> {
    set k | k in pending && k.fingerprint == fingerprint
  }

  // A row that is there is kept; a new one is added unless one of the caps is met.
  ghost function KeepPending(t: Tables, key: PendingKey, row: PendingRow, caps: PendingCaps): (Tables, bool) {
    if key in t.pending then (t, true)
    else if caps.perFingerprint <= |PendingOf(t.pending, key.fingerprint)| then (t, false)
    else if caps.total <= |t.pending| then (t, false)
    else (t.(pending := t.pending[key := row]), true)
  }

  function Counted(rejections: map<(string, int), Rejections>, license: string, day: int, at: int)
    : map<(string, int), Rejections>
  {
    rejections[(license, day) :=
      match Lookup(rejections, (license, day))
      case None => Rejections(1, at)
      case Some(r) => Rejections(r.count + 1, at)]
  }

  ghost function CountSealRejection(t: Tables, license: string, day: int, at: int): Tables {
    t.(rejections := Counted(t.rejections, license, day, at))
  }

  ghost function Discard(t: Tables, key: PendingKey): Tables {
    t.(pending := t.pending - {key})
  }

  ghost function DiscardForItsSeal(t: Tables, key: PendingKey, license: string, day: int, at: int): Tables {
    if key in t.pending then CountSealRejection(Discard(t, key), license, day, at) else t
  }

  ghost function PromoteReport(t: Tables, key: PendingKey, report: Report, limit: InstanceCap): (Tables, ReportOutcome) {
    var (stored, outcome) := StoreReport(t, report, limit);
    (Discard(stored, key), outcome)
  }

  // A pending report as it is listed.
  datatype Listed = Listed(key: PendingKey, row: PendingRow)

  // All the rows of the fingerprint and no other, none twice, in the order the query asks for: by day,
  // then by instance in any order of them, then by reception.
  ghost predicate IsPendingList(t: Tables, fingerprint: string, list: seq<Listed>) {
    && (forall n :: 0 <= n < |list| ==>
          && list[n].key in t.pending && list[n].key.fingerprint == fingerprint
          && list[n].row == t.pending[list[n].key])
    && (forall k :: k in t.pending && k.fingerprint == fingerprint ==> IsListed(list, k))
    && (forall n, m :: 0 <= n < m < |list| ==> InListOrder(list[n], list[m]))
  }

  ghost predicate IsListed(list: seq<Listed>, key: PendingKey) {
    exists n :: 0 <= n < |list| && list[n].key == key
  }

  ghost predicate InListOrder(a: Listed, b: Listed) {
    && a.key != b.key
    && a.key.day <= b.key.day
    && (a.key.day == b.key.day && a.key.instance == b.key.instance ==> a.row.receivedAt <= b.row.receivedAt)
  }
}
