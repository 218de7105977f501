// What the intake answers to each report, and what it leaves, told of the report and of the tables alone.
module IntakeOutcomes {
  import opened Wrappers
  import opened Reports
  import opened Intake

  // ---- What a report is ----

  predicate IsHex(value: string) {
    |value| == 64 && forall k :: 0 <= k < 64 ==> value[k] in "0123456789abcdef"
  }

  // The intake reads a report: its seal and fingerprint are well spelled, its document says a day of the
  // sixty before its reception, of that day or of the next, and the fingerprint it was sent with.
  predicate IsReadable(w: World, s: Sent) {
    && IsHex(s.seal) && IsHex(s.fingerprint) && w.parse(s.document).Some?
    && var told := w.parse(s.document).value;
       && told.fingerprint == s.fingerprint
       && s.at / 86400 - 60 <= told.day <= s.at / 86400 + 1
  }

  // Its license is issued, and the report verifies against it.
  predicate IsVerified(w: World, t: Tables, s: Sent) {
    && s.fingerprint in t.licenses && w.parse(s.document).Some?
    && w.sealed(t.licenses[s.fingerprint].encoded, s.document, s.seal)
    && w.parse(s.document).value.license == w.writtenId(t.licenses[s.fingerprint].id)
  }

  // The instances of a license that count, at an instant.
  function InstancesAt(t: Tables, license: string, at: int): set<string> {
    set k | k in t.instances && k.0 == license && at / 86400 - 60 <= t.instances[k].lastReportDay :: k.1
  }

  predicate HasRoomFor(t: Tables, license: string, instance: string, at: int) {
    instance in InstancesAt(t, license, at) || |InstancesAt(t, license, at)| < 50
  }

  predicate MayBePending(t: Tables, key: PendingKey) {
    || key in t.pending
    || (|(set k | k in t.pending && k.fingerprint == key.fingerprint)| < 100 && |t.pending| < 10000)
  }

  lemma HexIsShaped(value: string)
    ensures HexShaped(value) <==> IsHex(value)
  {
    forall k | 0 <= k < |value|
      ensures value[k] in "0123456789abcdef" <==> '0' <= value[k] <= '9' || 'a' <= value[k] <= 'f'
    {
      HexDigit(value[k]);
    }
  }

  lemma HexDigit(c: char)
    ensures c in "0123456789abcdef" <==> '0' <= c <= '9' || 'a' <= c <= 'f'
  {
  }

  lemma ReadIsReadable(w: World, s: Sent)
    ensures IsReadable(w, s) <==>
              && HexShaped(s.seal) && HexShaped(s.fingerprint)
              && Read(w, s.document, s.at).Some? && Read(w, s.document, s.at).value.fingerprint == s.fingerprint
    ensures IsReadable(w, s) ==> Read(w, s.document, s.at) == w.parse(s.document)
  {
    hide HexShaped, IsHex;
    HexIsShaped(s.seal);
    HexIsShaped(s.fingerprint);
  }

  lemma RoomIsNotTooMany(t: Tables, report: Report, at: int)
    ensures TooMany(t.instances, report, CapAt(at)) <==> !HasRoomFor(t, report.license, report.instance, at)
  {
    assert SeenLately(t.instances, report.license, EarliestDay(at)) == InstancesAt(t, report.license, at);
  }

  // ---- A report whose license is not issued ----

  lemma PendingTells(w: World, t: Tables, s: Sent)
    requires IsReadable(w, s) && s.fingerprint !in t.licenses
    ensures var told := w.parse(s.document).value;
            var key := PendingKey(s.fingerprint, told.instance, told.day, s.seal);
            var (u, outcome) := Receive(w, t, s);
            && (outcome == Pending <==> MayBePending(t, key)) && (outcome == Full <==> !MayBePending(t, key))
            && u == t.(pending := if key in t.pending || !MayBePending(t, key) then t.pending
                                  else t.pending[key := PendingRow(s.document, s.at)])
  {
    hide HexShaped, Read, IsHex;
    ReadIsReadable(w, s);
    assert PendingOf(t.pending, s.fingerprint) == set k | k in t.pending && k.fingerprint == s.fingerprint;
  }

  // ---- A report that is refused ----

  // Nothing is written for a report that is refused, but a rejection when its license is issued and its
  // seal is not of its document.
  lemma RefusedTells(w: World, t: Tables, s: Sent)
    ensures var (u, outcome) := Receive(w, t, s);
            && (outcome == Refused <==> !IsReadable(w, s) || (s.fingerprint in t.licenses && !IsVerified(w, t, s)))
            && (outcome == Refused ==>
                  if IsReadable(w, s) && s.fingerprint in t.licenses
                     && !w.sealed(t.licenses[s.fingerprint].encoded, s.document, s.seal)
                  then CountsARejection(t, u, t.licenses[s.fingerprint].id, s.at)
                  else u == t)
  {
    hide HexShaped, Read, StoreReport, KeepPending, CountSealRejection, CountsARejection;
    ReadIsReadable(w, s);
    if IsReadable(w, s) && s.fingerprint in t.licenses {
      RejectionCounts(t, t.licenses[s.fingerprint].id, s.at);
    }
  }

  // One rejection more of the license on that day, the last one at that instant; nothing else changes.
  predicate CountsARejection(t: Tables, u: Tables, license: string, at: int) {
    var k := (license, at / 86400);
    && u == t.(rejections := u.rejections)
    && u.rejections.Keys == t.rejections.Keys + {k}
    && (forall other :: other in t.rejections && other != k ==> u.rejections[other] == t.rejections[other])
    && u.rejections[k].count == (if k in t.rejections then t.rejections[k].count else 0) + 1
    && u.rejections[k].lastAt == at
  }

  lemma RejectionCounts(t: Tables, license: string, at: int)
    ensures CountsARejection(t, CountSealRejection(t, license, UtcDay(at), at), license, at)
  {
  }

  // ---- A report that is sound ----

  // What a sound report leaves of the row of its day.
  predicate LeavesTheRow(t: Tables, u: Tables, k: ReportKey, s: Sent, outcome: Outcome) {
    && k in u.reports && u.reports.Keys == t.reports.Keys + {k}
    && (forall other :: other in t.reports && other != k ==> u.reports[other] == t.reports[other])
    && match outcome
       case Stored => k !in t.reports && u.reports[k] == ReportRow(s.document, s.seal, s.at, 0, None)
       case Repeat => k in t.reports && t.reports[k].document == s.document && u.reports[k] == t.reports[k]
       case Conflict =>
         && k in t.reports && t.reports[k].document != s.document
         && u.reports[k].document == t.reports[k].document && u.reports[k].seal == t.reports[k].seal
         && u.reports[k].receivedAt == t.reports[k].receivedAt
         && u.reports[k].conflicts == t.reports[k].conflicts + 1
       case _ => false
  }

  lemma SoundIsStored(w: World, t: Tables, s: Sent)
    requires IsReadable(w, s) && IsVerified(w, t, s)
    ensures var issued := t.licenses[s.fingerprint];
            var report := ReportOf(w.parse(s.document).value, issued, s.document, s.seal, s.at);
            var (u, outcome) := StoreReport(t, report, CapAt(s.at));
            Receive(w, t, s) == (u, Answer(outcome))
  {
    hide HexShaped, Read, StoreReport, KeepPending, CountSealRejection;
    ReadIsReadable(w, s);
  }

  lemma RowIsLeft(t: Tables, report: Report, s: Sent, limit: InstanceCap)
    requires !TooMany(t.instances, report, limit)
    requires report.document == s.document && report.seal == s.seal && report.receivedAt == s.at
    ensures var (u, outcome) := StoreReport(t, report, limit);
            && LeavesTheRow(t, u, KeyOfReport(report), s, Answer(outcome))
            && u == t.(reports := u.reports, instances := u.instances)
            && u.instances.Keys == t.instances.Keys + {(report.license, report.instance)}
            && (forall other :: other in t.instances && other != (report.license, report.instance) ==>
                  u.instances[other] == t.instances[other])
  {
    hide TooMany, Upserted;
  }

  // A sound report is turned away exactly when its license is seen on too many other instances; otherwise it
  // is stored when its day has no row, a repeat when the row holds the same document and stays as it is, and
  // a conflict when it holds another, the count of the row one more.
  lemma SoundTells(w: World, t: Tables, s: Sent)
    requires IsReadable(w, s) && IsVerified(w, t, s)
    ensures var told, license := w.parse(s.document).value, t.licenses[s.fingerprint].id;
            var k := (license, told.instance, told.day);
            var (u, outcome) := Receive(w, t, s);
            var room := HasRoomFor(t, license, told.instance, s.at);
            && (outcome == TooManyInstances <==> !room) && (!room ==> u == t)
            && (outcome == Stored <==> room && k !in t.reports)
            && (outcome == Repeat <==> room && k in t.reports && t.reports[k].document == s.document)
            && (outcome == Conflict <==> room && k in t.reports && t.reports[k].document != s.document)
            && (room ==> LeavesTheRow(t, u, k, s, outcome) && u == t.(reports := u.reports, instances := u.instances)
                         && u.instances.Keys == t.instances.Keys + {(license, told.instance)})
  {
    hide Receive, TooMany, Upserted, RowAfter, HasRoomFor, IsReadable;
    var report := ReportOf(w.parse(s.document).value, t.licenses[s.fingerprint], s.document, s.seal, s.at);
    SoundIsStored(w, t, s);
    RoomIsNotTooMany(t, report, s.at);
    if !TooMany(t.instances, report, CapAt(s.at)) {
      RowIsLeft(t, report, s, CapAt(s.at));
    }
    hide LeavesTheRow;
  }

  // ---- A pending report that is promoted ----

  // It counts as stored exactly when the license verifies it and has room for it; whatever becomes of it, it
  // is pending no longer, and a rejection is counted when its seal is not of its document, if it was pending.
  lemma PromotionTells(w: World, t: Tables, issued: License, p: Listed, now: int)
    ensures var (u, kept) := Promote(w, t, issued, p, now);
            var told := w.parse(p.row.document);
            var read := told.Some? && told.value.fingerprint == p.key.fingerprint
                        && p.row.receivedAt / 86400 - 60 <= told.value.day <= p.row.receivedAt / 86400 + 1;
            var sealed := w.sealed(issued.encoded, p.row.document, p.key.seal);
            && (kept <==> read && sealed && told.value.license == w.writtenId(issued.id)
                          && HasRoomFor(t, issued.id, told.value.instance, p.row.receivedAt))
            && u.pending == t.pending - {p.key}
            && u.licenses == t.licenses
            && (!kept ==> u.reports == t.reports && u.instances == t.instances)
            && (if read && !sealed && p.key in t.pending
                then CountsARejection(t.(pending := u.pending), u, issued.id, now)
                else u.rejections == t.rejections)
  {
    hide HexShaped, StoreReport, Upserted, RowAfter, CountsARejection, CountSealRejection, HasRoomFor;
    RejectionCounts(Discard(t, p.key), issued.id, now);
    assert p.key !in t.pending ==> t.pending - {p.key} == t.pending;
    var told := Read(w, p.row.document, p.row.receivedAt);
    if told.Some? {
      var report := ReportOf(told.value, issued, p.row.document, p.key.seal, p.row.receivedAt);
      RoomIsNotTooMany(t, report, p.row.receivedAt);
      PromotedStore(t, report, CapAt(p.row.receivedAt));
    }
    hide TooMany;
  }

  lemma PromotedStore(t: Tables, report: Report, limit: InstanceCap)
    ensures var (u, outcome) := StoreReport(t, report, limit);
            && u.licenses == t.licenses && u.pending == t.pending && u.rejections == t.rejections
            && (outcome == ReportTooManyInstances <==> TooMany(t.instances, report, limit))
            && (outcome == ReportTooManyInstances ==> u == t)
  {
    hide TooMany, Upserted, RowAfter;
  }
}
