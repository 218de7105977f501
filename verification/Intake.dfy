// What the intake makes of a report it receives, and of the reports pending under a fingerprint
// whose license is issued at last.
module Intake {
  import opened Wrappers
  import opened Reports
  import opened Sets

  const PENDING_CAPS := PendingCaps(100, 10000)
  const INSTANCE_CAP_PER_LICENSE := 50
  const MAX_DAYS_AHEAD := 1
  const MAX_DAYS_BEHIND := 60
  const SECONDS_PER_DAY := 86400

  // The fields of a document the intake needs.
  datatype Told = Told(
    day: int, fingerprint: string, license: string, instance: string, version: string,
    installKind: Option<string>)

  // What is taken as given: what a document says, when it is a report; whether a seal is the one
  // of a document under a key; and the id of a license as the product writes it.
  datatype World = World(
    parse: string -> Option<Told>,
    sealed: (string, string, string) -> bool,
    writtenId: string -> string)

  // A report as it is sent, and the second it is received.
  datatype Sent = Sent(document: string, seal: string, fingerprint: string, at: int)

  datatype Outcome = Stored | Pending | Repeat | Conflict | Refused | Full | TooManyInstances

  predicate HexShaped(value: string) {
    |value| == 64 && forall k :: 0 <= k < 64 ==> '0' <= value[k] <= '9' || 'a' <= value[k] <= 'f'
  }

  function UtcDay(at: int): int { at / SECONDS_PER_DAY }

  function EarliestDay(receivedAt: int): int { UtcDay(receivedAt) - MAX_DAYS_BEHIND }

  predicate WithinBounds(day: int, receivedAt: int) {
    EarliestDay(receivedAt) <= day <= UtcDay(receivedAt) + MAX_DAYS_AHEAD
  }

  function CapAt(at: int): InstanceCap {
    InstanceCap(INSTANCE_CAP_PER_LICENSE, EarliestDay(at))
  }

  // What a document tells: nothing when it does not parse, or when its day is out of bounds at that second.
  function Read(w: World, document: string, receivedAt: int): Option<Told> {
    match w.parse(document)
    case None => None
    case Some(told) => if WithinBounds(told.day, receivedAt) then Some(told) else None
  }

  predicate Says(w: World, told: Told, issued: License) {
    told.license == w.writtenId(issued.id)
  }

  function ReportOf(told: Told, issued: License, document: string, seal: string, receivedAt: int): Report {
    Report(issued.id, told.instance, told.day, document, seal, told.version, told.installKind, receivedAt)
  }

  function Answer(outcome: ReportOutcome): Outcome {
    match outcome
    case ReportStored => Stored
    case ReportRepeat => Repeat
    case ReportConflict => Conflict
    case ReportTooManyInstances => TooManyInstances
  }

  // The tables and the answer after one reception.
  ghost function Receive(w: World, t: Tables, s: Sent): (Tables, Outcome) {
    if !HexShaped(s.seal) || !HexShaped(s.fingerprint) then (t, Refused)
    else
      var told := Read(w, s.document, s.at);
      if told.None? || told.value.fingerprint != s.fingerprint then (t, Refused)
      else if s.fingerprint !in t.licenses then
        var (kept, isKept) := KeepPending(
          t, PendingKey(s.fingerprint, told.value.instance, told.value.day, s.seal),
          PendingRow(s.document, s.at), PENDING_CAPS);
        (kept, if isKept then Pending else Full)
      else
        var issued := t.licenses[s.fingerprint];
        if !w.sealed(issued.encoded, s.document, s.seal) then
          (CountSealRejection(t, issued.id, UtcDay(s.at), s.at), Refused)
        else if !Says(w, told.value, issued) then (t, Refused)
        else
          var (stored, outcome) := StoreReport(t, ReportOf(told.value, issued, s.document, s.seal, s.at), CapAt(s.at));
          (stored, Answer(outcome))
  }

  // A pending report is stored, or discarded; it is pending no longer. Its day and the cap are
  // judged from the moment it was received.
  ghost function Promote(w: World, t: Tables, issued: License, p: Listed, now: int): (Tables, bool) {
    var told := Read(w, p.row.document, p.row.receivedAt);
    if told.None? || told.value.fingerprint != p.key.fingerprint then (Discard(t, p.key), false)
    else if !w.sealed(issued.encoded, p.row.document, p.key.seal) then
      (DiscardForItsSeal(t, p.key, issued.id, UtcDay(now), now), false)
    else if !Says(w, told.value, issued) then (Discard(t, p.key), false)
    else
      var (promoted, outcome) := PromoteReport(
        t, p.key, ReportOf(told.value, issued, p.row.document, p.key.seal, p.row.receivedAt),
        CapAt(p.row.receivedAt));
      (promoted, outcome != ReportTooManyInstances)
  }

  ghost function PromoteAll(w: World, t: Tables, issued: License, list: seq<Listed>, now: int): (Tables, nat, nat) {
    if list == [] then (t, 0, 0)
    else
      var (before, stored, discarded) := PromoteAll(w, t, issued, list[..|list| - 1], now);
      var (after, kept) := Promote(w, before, issued, list[|list| - 1], now);
      if kept then (after, stored + 1, discarded) else (after, stored, discarded + 1)
  }

  // The reports received one after the other.
  ghost function ReceiveAll(w: World, t: Tables, sent: seq<Sent>): Tables {
    if sent == [] then t
    else Receive(w, ReceiveAll(w, t, sent[..|sent| - 1]), sent[|sent| - 1]).0
  }

  // A license is issued: its reports will be found by the fingerprint of its key.
  ghost function Record(t: Tables, fingerprint: string, issued: License): Tables {
    t.(licenses := t.licenses[fingerprint := issued])
  }

  // ---- What a reception changes, and what a promotion does ----

  datatype Effect =
    | Nothing
    | Rejecting(license: string, day: int, at: int)
    | Keeping(key: PendingKey, row: PendingRow)
    | Storing(report: Report, limit: InstanceCap)

  // What a reception does depends on the tables by the license of its fingerprint only.
  ghost function EffectOf(w: World, issued: Option<License>, s: Sent): Effect {
    var told := Read(w, s.document, s.at);
    if !HexShaped(s.seal) || !HexShaped(s.fingerprint) || told.None? || told.value.fingerprint != s.fingerprint then
      Nothing
    else
      match issued
      case None =>
        Keeping(PendingKey(s.fingerprint, told.value.instance, told.value.day, s.seal), PendingRow(s.document, s.at))
      case Some(license) =>
        if !w.sealed(license.encoded, s.document, s.seal) then Rejecting(license.id, UtcDay(s.at), s.at)
        else if !Says(w, told.value, license) then Nothing
        else Storing(ReportOf(told.value, license, s.document, s.seal, s.at), CapAt(s.at))
  }

  ghost function Applied(t: Tables, effect: Effect): Tables {
    match effect
    case Nothing => t
    case Rejecting(license, day, at) => CountSealRejection(t, license, day, at)
    case Keeping(key, row) => KeepPending(t, key, row, PENDING_CAPS).0
    case Storing(report, limit) => StoreReport(t, report, limit).0
  }

  lemma ReceiveApplies(w: World, t: Tables, s: Sent)
    ensures Receive(w, t, s).0 == Applied(t, EffectOf(w, Lookup(t.licenses, s.fingerprint), s))
  {
    hide HexShaped, Read, Says, KeepPending, StoreReport, CountSealRejection;
  }

  lemma StoresUnderItsLicense(w: World, issued: Option<License>, s: Sent)
    ensures var effect := EffectOf(w, issued, s);
      effect.Storing? ==> issued.Some? && effect.report.license == issued.value.id
  {
    hide HexShaped, Read, Says;
  }

  // What the intake makes of the document of a pending report.
  ghost predicate Stands(w: World, issued: License, p: Listed) {
    var told := Read(w, p.row.document, p.row.receivedAt);
    && told.Some? && told.value.fingerprint == p.key.fingerprint
    && w.sealed(issued.encoded, p.row.document, p.key.seal) && Says(w, told.value, issued)
  }

  ghost function ReportOfPending(w: World, issued: License, p: Listed): Report
    requires Stands(w, issued, p)
  {
    ReportOf(Read(w, p.row.document, p.row.receivedAt).value, issued, p.row.document, p.key.seal, p.row.receivedAt)
  }

  ghost predicate Discards(t: Tables, u: Tables, key: PendingKey) {
    && u.licenses == t.licenses && u.pending == t.pending - {key}
    && u.reports == t.reports && u.instances == t.instances
  }

  lemma DiscardDiscards(t: Tables, key: PendingKey, license: string, day: int, at: int)
    ensures Discards(t, Discard(t, key), key)
    ensures Discards(t, DiscardForItsSeal(t, key, license, day, at), key)
  {
    hide Counted;
    assert key !in t.pending ==> t.pending - {key} == t.pending;
  }

  lemma PromoteDiscards(w: World, t: Tables, issued: License, p: Listed, now: int)
    requires !Stands(w, issued, p)
    ensures Discards(t, Promote(w, t, issued, p, now).0, p.key)
  {
    hide Read, Says, Discard, DiscardForItsSeal, PromoteReport, Discards;
    DiscardDiscards(t, p.key, issued.id, UtcDay(now), now);
  }

  lemma PromoteStores(w: World, t: Tables, issued: License, p: Listed, now: int)
    requires Stands(w, issued, p)
    ensures Promote(w, t, issued, p, now).0 ==
            Discard(StoreReport(t, ReportOfPending(w, issued, p), CapAt(p.row.receivedAt)).0, p.key)
  {
    hide Read, Says, Discard, StoreReport, DiscardForItsSeal;
  }

  lemma StoreKeepsTheRest(t: Tables, report: Report, limit: InstanceCap)
    ensures StoreReport(t, report, limit).0.pending == t.pending
    ensures StoreReport(t, report, limit).0.licenses == t.licenses
  {
    hide TooMany, Upserted, RowAfter, OutcomeOf;
  }

  // A promotion removes the report from what is pending; it stores it when it stands, and changes
  // neither a report nor an instance otherwise.
  lemma PromoteApplies(w: World, t: Tables, issued: License, p: Listed, now: int)
    ensures var u := Promote(w, t, issued, p, now).0;
      && u.licenses == t.licenses && u.pending == t.pending - {p.key}
      && (Stands(w, issued, p) ==>
            var stored := StoreReport(t, ReportOfPending(w, issued, p), CapAt(p.row.receivedAt)).0;
            u.reports == stored.reports && u.instances == stored.instances)
      && (!Stands(w, issued, p) ==> u.reports == t.reports && u.instances == t.instances)
  {
    hide Promote, StoreReport, Stands, ReportOfPending;
    if Stands(w, issued, p) {
      PromoteStores(w, t, issued, p, now);
      StoreKeepsTheRest(t, ReportOfPending(w, issued, p), CapAt(p.row.receivedAt));
    } else {
      PromoteDiscards(w, t, issued, p, now);
    }
  }

  // ---- The caps on what is pending ----

  ghost predicate WithinCaps(pending: map<PendingKey, PendingRow>) {
    |pending| <= PENDING_CAPS.total
    && forall fingerprint :: |PendingOf(pending, fingerprint)| <= PENDING_CAPS.perFingerprint
  }

  lemma OneMorePending(pending: map<PendingKey, PendingRow>, key: PendingKey, row: PendingRow, fingerprint: string)
    requires key !in pending
    ensures |PendingOf(pending[key := row], fingerprint)| ==
            |PendingOf(pending, fingerprint)| + (if key.fingerprint == fingerprint then 1 else 0)
    ensures |pending[key := row]| == |pending| + 1
  {
    var after := pending[key := row];
    if key.fingerprint == fingerprint {
      assert PendingOf(after, fingerprint) == PendingOf(pending, fingerprint) + {key};
    } else {
      assert PendingOf(after, fingerprint) == PendingOf(pending, fingerprint);
    }
    assert after.Keys == pending.Keys + {key};
    assert |after| == |after.Keys| && |pending| == |pending.Keys|;
  }

  lemma KeptWithinCaps(t: Tables, key: PendingKey, row: PendingRow)
    requires WithinCaps(t.pending)
    ensures WithinCaps(KeepPending(t, key, row, PENDING_CAPS).0.pending)
  {
    hide PendingOf;
    var after := KeepPending(t, key, row, PENDING_CAPS).0;
    if after != t {
      forall fingerprint
        ensures |PendingOf(after.pending, fingerprint)| <= PENDING_CAPS.perFingerprint
      {
        OneMorePending(t.pending, key, row, fingerprint);
      }
      OneMorePending(t.pending, key, row, key.fingerprint);
    }
  }

  lemma EffectWithinCaps(t: Tables, effect: Effect)
    requires WithinCaps(t.pending)
    ensures WithinCaps(Applied(t, effect).pending)
  {
    hide WithinCaps, KeepPending, StoreReport, CountSealRejection;
    match effect
    case Keeping(key, row) => KeptWithinCaps(t, key, row);
    case Storing(report, limit) => StoreKeepsTheRest(t, report, limit);
    case Rejecting(license, day, at) => CountingLeavesPending(t, license, day, at);
    case Nothing =>
  }

  lemma CountingLeavesPending(t: Tables, license: string, day: int, at: int)
    ensures CountSealRejection(t, license, day, at).pending == t.pending
  {
  }

  lemma NothingIsWithinCaps()
    ensures WithinCaps(map[])
  {
    forall fingerprint
      ensures PendingOf(map[], fingerprint) == {}
    {
    }
  }

  // Whatever reports are received one after the other, from nothing pending, no cap on what is
  // pending is ever passed.
  lemma {:induction false} PendingStaysWithinCaps(w: World, t: Tables, sent: seq<Sent>)
    requires t.pending == map[]
    ensures WithinCaps(ReceiveAll(w, t, sent).pending)
  {
    hide WithinCaps, Receive, EffectOf, Applied;
    if sent == [] {
      NothingIsWithinCaps();
    } else {
      var before, last := ReceiveAll(w, t, sent[..|sent| - 1]), sent[|sent| - 1];
      PendingStaysWithinCaps(w, t, sent[..|sent| - 1]);
      ReceiveApplies(w, before, last);
      EffectWithinCaps(before, EffectOf(w, Lookup(before.licenses, last.fingerprint), last));
    }
  }

  lemma FewerWithinCaps(pending: map<PendingKey, PendingRow>, fewer: map<PendingKey, PendingRow>)
    requires WithinCaps(pending) && fewer.Keys <= pending.Keys
    ensures WithinCaps(fewer)
  {
    forall fingerprint
      ensures |PendingOf(fewer, fingerprint)| <= |PendingOf(pending, fingerprint)|
    {
      SubsetIsSmaller(PendingOf(fewer, fingerprint), PendingOf(pending, fingerprint));
    }
    SubsetIsSmaller(fewer.Keys, pending.Keys);
    assert |fewer| == |fewer.Keys| && |pending| == |pending.Keys|;
  }

  // A promotion passes no cap either.
  lemma {:induction false} PromotionStaysWithinCaps(w: World, t: Tables, issued: License, list: seq<Listed>, now: int)
    requires WithinCaps(t.pending)
    ensures WithinCaps(PromoteAll(w, t, issued, list, now).0.pending)
  {
    hide WithinCaps, Promote, Stands, StoreReport;
    if list != [] {
      var before, last := PromoteAll(w, t, issued, list[..|list| - 1], now).0, list[|list| - 1];
      PromotionStaysWithinCaps(w, t, issued, list[..|list| - 1], now);
      PromoteApplies(w, before, issued, last, now);
      FewerWithinCaps(before.pending, before.pending - {last.key});
    }
  }

  // A report turned away for want of room changes nothing.
  lemma FullChangesNothing(w: World, t: Tables, s: Sent)
    ensures Receive(w, t, s).1 == Full ==> Receive(w, t, s).0 == t
  {
    hide HexShaped, Read, Says, StoreReport;
  }
}
