// Issuing a license changes nothing of the reports of the others, before or after its own come.
module OtherLicenses {
  import opened Wrappers
  import opened Reports
  import opened Intake
  import opened PendingReports
  import opened StoredReports
  import opened ListedReports

  // ---- The other licenses ----

  // Alike but for what is under a license, issued in one and not in the other.
  ghost predicate AlikeElsewhere(a: Tables, b: Tables, fingerprint: string, issued: License) {
    && (forall f :: f != fingerprint ==> Lookup(a.licenses, f) == Lookup(b.licenses, f))
    && (forall k: ReportKey :: k.0 != issued.id ==> Lookup(a.reports, k) == Lookup(b.reports, k))
    && (forall k: InstanceKey :: k.0 != issued.id ==> Lookup(a.instances, k) == Lookup(b.instances, k))
  }

  lemma SeenAlike(a: map<InstanceKey, Instance>, b: map<InstanceKey, Instance>, id: string, license: string, since: int)
    requires forall k: InstanceKey :: k.0 != id ==> Lookup(a, k) == Lookup(b, k)
    requires license != id
    ensures SeenLately(a, license, since) == SeenLately(b, license, since)
  {
    forall i ensures i in SeenLately(a, license, since) <==> i in SeenLately(b, license, since) {
      var k := (license, i);
      assert Lookup(a, k) == Lookup(b, k);
      assert i in SeenLately(a, license, since) <==> k in a && since <= a[k].lastReportDay;
      assert i in SeenLately(b, license, since) <==> k in b && since <= b[k].lastReportDay;
    }
  }

  lemma StoreAlike(a: Tables, b: Tables, fingerprint: string, issued: License, report: Report, limit: InstanceCap)
    requires AlikeElsewhere(a, b, fingerprint, issued) && report.license != issued.id
    ensures AlikeElsewhere(StoreReport(a, report, limit).0, StoreReport(b, report, limit).0, fingerprint, issued)
  {
    SeenAlike(a.instances, b.instances, issued.id, report.license, limit.since);
    assert TooMany(a.instances, report, limit) == TooMany(b.instances, report, limit);
    hide TooMany, Upserted, RowAfter, OutcomeOf;
    if !TooMany(a.instances, report, limit) {
      StoreAlikeRows(a, b, fingerprint, issued, report, limit);
    }
  }

  lemma StoreAlikeRows(a: Tables, b: Tables, fingerprint: string, issued: License, report: Report, limit: InstanceCap)
    requires AlikeElsewhere(a, b, fingerprint, issued) && report.license != issued.id
    requires !TooMany(a.instances, report, limit) && !TooMany(b.instances, report, limit)
    ensures AlikeElsewhere(StoreReport(a, report, limit).0, StoreReport(b, report, limit).0, fingerprint, issued)
  {
    hide TooMany, Upserted, RowAfter, OutcomeOf;
    assert Lookup(a.reports, KeyOfReport(report)) == Lookup(b.reports, KeyOfReport(report));
    var seen := (report.license, report.instance);
    assert Lookup(a.instances, seen) == Lookup(b.instances, seen);
  }

  lemma StoreIsLocal(t: Tables, fingerprint: string, issued: License, report: Report, limit: InstanceCap)
    requires report.license == issued.id
    ensures AlikeElsewhere(StoreReport(t, report, limit).0, t, fingerprint, issued)
  {
    hide TooMany, Upserted, RowAfter, OutcomeOf;
  }

  lemma EffectIsLocal(t: Tables, effect: Effect, fingerprint: string, issued: License)
    requires effect.Storing? ==> effect.report.license == issued.id
    ensures AlikeElsewhere(Applied(t, effect), t, fingerprint, issued)
  {
    hide StoreReport;
    if effect.Storing? {
      StoreIsLocal(t, fingerprint, issued, effect.report, effect.limit);
    }
  }

  // A report changes nothing but what is under its own license.
  lemma ReceiveIsLocal(w: World, t: Tables, s: Sent, fingerprint: string, issued: License)
    requires fingerprint !in t.licenses || t.licenses[fingerprint] == issued
    requires s.fingerprint == fingerprint
    ensures AlikeElsewhere(Receive(w, t, s).0, t, fingerprint, issued)
  {
    hide Receive, EffectOf, Applied, AlikeElsewhere;
    ReceiveApplies(w, t, s);
    StoresUnderItsLicense(w, Lookup(t.licenses, s.fingerprint), s);
    EffectIsLocal(t, EffectOf(w, Lookup(t.licenses, s.fingerprint), s), fingerprint, issued);
  }

  lemma AlikeThroughBoth(a: Tables, b: Tables, c: Tables, d: Tables, fingerprint: string, issued: License)
    requires AlikeElsewhere(c, a, fingerprint, issued) && AlikeElsewhere(a, b, fingerprint, issued)
    requires AlikeElsewhere(d, b, fingerprint, issued)
    ensures AlikeElsewhere(c, d, fingerprint, issued)
  {
  }

  lemma ReceiveAlike(w: World, a: Tables, b: Tables, s: Sent, fingerprint: string, issued: License)
    requires AlikeElsewhere(a, b, fingerprint, issued)
    requires fingerprint !in a.licenses && IsIssued(b, fingerprint, issued)
    ensures AlikeElsewhere(Receive(w, a, s).0, Receive(w, b, s).0, fingerprint, issued)
  {
    hide Receive, AlikeElsewhere;
    if s.fingerprint == fingerprint {
      ReceiveIsLocal(w, a, s, fingerprint, issued);
      ReceiveIsLocal(w, b, s, fingerprint, issued);
      AlikeThroughBoth(a, b, Receive(w, a, s).0, Receive(w, b, s).0, fingerprint, issued);
    } else {
      ReceiveOfAnother(w, a, b, s, fingerprint, issued);
    }
  }

  // What stores nothing leaves the licenses, the reports and the instances as they are.
  lemma OnlyStoringStores(t: Tables, effect: Effect)
    requires !effect.Storing?
    ensures var u := Applied(t, effect);
      u.licenses == t.licenses && u.reports == t.reports && u.instances == t.instances
  {
    hide PendingOf, Counted;
  }

  lemma AlikeByRows(a: Tables, b: Tables, c: Tables, d: Tables, fingerprint: string, issued: License)
    requires AlikeElsewhere(a, b, fingerprint, issued)
    requires c.licenses == a.licenses && c.reports == a.reports && c.instances == a.instances
    requires d.licenses == b.licenses && d.reports == b.reports && d.instances == b.instances
    ensures AlikeElsewhere(c, d, fingerprint, issued)
  {
    hide Lookup;
  }

  lemma EffectAlike(a: Tables, b: Tables, effect: Effect, fingerprint: string, issued: License)
    requires AlikeElsewhere(a, b, fingerprint, issued) && (effect.Storing? ==> effect.report.license != issued.id)
    ensures AlikeElsewhere(Applied(a, effect), Applied(b, effect), fingerprint, issued)
  {
    hide StoreReport, KeepPending, CountSealRejection, AlikeElsewhere;
    if effect.Storing? {
      StoreAlike(a, b, fingerprint, issued, effect.report, effect.limit);
    } else {
      OnlyStoringStores(a, effect);
      OnlyStoringStores(b, effect);
      AlikeByRows(a, b, Applied(a, effect), Applied(b, effect), fingerprint, issued);
    }
  }

  lemma ReceiveOfAnother(w: World, a: Tables, b: Tables, s: Sent, fingerprint: string, issued: License)
    requires AlikeElsewhere(a, b, fingerprint, issued) && IsIssued(b, fingerprint, issued)
    requires s.fingerprint != fingerprint
    ensures AlikeElsewhere(Receive(w, a, s).0, Receive(w, b, s).0, fingerprint, issued)
  {
    hide Receive, EffectOf, Applied;
    var license := Lookup(b.licenses, s.fingerprint);
    assert Lookup(a.licenses, s.fingerprint) == license;
    ReceiveApplies(w, a, s);
    ReceiveApplies(w, b, s);
    StoresUnderItsLicense(w, license, s);
    EffectAlike(a, b, EffectOf(w, license, s), fingerprint, issued);
  }

  lemma {:induction false} ReceiveAllAlike(
    w: World, a: Tables, b: Tables, sent: seq<Sent>, fingerprint: string, issued: License)
    requires AlikeElsewhere(a, b, fingerprint, issued)
    requires NotIssuedYet(a, fingerprint, issued) && IsIssued(b, fingerprint, issued)
    ensures AlikeElsewhere(ReceiveAll(w, a, sent), ReceiveAll(w, b, sent), fingerprint, issued)
  {
    if sent != [] {
      var before, last := sent[..|sent| - 1], sent[|sent| - 1];
      hide AlikeElsewhere, Receive, IsIssued;
      ReceiveAllAlike(w, a, b, before, fingerprint, issued);
      ReceiveAllIsOfOthers(w, a, before, fingerprint, issued);
      ReceiveAllKeepsIssued(w, b, before, fingerprint, issued);
      ReceiveAlike(w, ReceiveAll(w, a, before), ReceiveAll(w, b, before), last, fingerprint, issued);
    }
  }

  lemma PromoteIsLocal(w: World, t: Tables, fingerprint: string, issued: License, p: Listed, now: int)
    ensures AlikeElsewhere(Promote(w, t, issued, p, now).0, t, fingerprint, issued)
  {
    hide Stands, Promote, StoreReport, Read;
    PromoteApplies(w, t, issued, p, now);
    if Stands(w, issued, p) {
      ReportOfPendingIsOfTheLicense(w, issued, p);
      StoreIsLocal(t, fingerprint, issued, ReportOfPending(w, issued, p), CapAt(p.row.receivedAt));
    }
  }

  lemma ReportOfPendingIsOfTheLicense(w: World, issued: License, p: Listed)
    requires Stands(w, issued, p)
    ensures ReportOfPending(w, issued, p).license == issued.id
  {
    hide Read, Says;
  }

  lemma {:induction false} PromoteAllIsLocal(
    w: World, t: Tables, fingerprint: string, issued: License, list: seq<Listed>, now: int)
    ensures AlikeElsewhere(PromoteAll(w, t, issued, list, now).0, t, fingerprint, issued)
  {
    if list != [] {
      hide Promote;
      PromoteAllIsLocal(w, t, fingerprint, issued, list[..|list| - 1], now);
      PromoteIsLocal(w, PromoteAll(w, t, issued, list[..|list| - 1], now).0, fingerprint, issued, list[|list| - 1], now);
    }
  }

  // The reports of the other licenses are the same, whatever is masked.
  lemma SameForOtherLicenses(
    w: World, t: Tables, sent: seq<Sent>, fingerprint: string, issued: License, list: seq<Listed>, now: int,
    k: ReportKey)
    requires NotIssuedYet(t, fingerprint, issued) && k.0 != issued.id
    ensures Lookup(IssuedLast(w, t, sent, fingerprint, issued, list, now).reports, k) ==
            Lookup(IssuedFirst(w, t, sent, fingerprint, issued).reports, k)
  {
    var b := Record(t, fingerprint, issued);
    ReceiveAllAlike(w, t, b, sent, fingerprint, issued);
    PromoteAllIsLocal(w, Record(ReceiveAll(w, t, sent), fingerprint, issued), fingerprint, issued, list, now);
  }
}
