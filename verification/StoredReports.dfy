// The reports of a license that is issued: what is stored of an instance and day is the first that
// verifies, whether it is received or promoted.
module StoredReports {
  import opened Wrappers
  import opened Sets
  import opened Reports
  import opened Intake
  import opened PendingReports

  // ---- What is stored of reports that are checked in some order ----

  ghost predicate SameReport(row: ReportRow, s: Sent) {
    row.document == s.document && row.seal == s.seal && row.receivedAt == s.at
  }

  ghost predicate StoredAt(
    w: World, fingerprint: string, issued: License, sent: seq<Sent>, t: Tables, instance: string, day: int)
  {
    && ((issued.id, instance, day) in t.reports <==>
        exists j :: FirstSound(w, fingerprint, issued, sent, j, instance, day))
    && (forall j :: FirstSound(w, fingerprint, issued, sent, j, instance, day) ==>
          (issued.id, instance, day) in t.reports
          && SameReport(t.reports[(issued.id, instance, day)], sent[j]))
  }

  // The instances of the reports that are read.
  ghost function InstancesIn(w: World, fingerprint: string, sent: seq<Sent>): set<string> {
    set j | 0 <= j < |sent| && Admitted(w, fingerprint, sent[j]) :: KeyOf(w, sent[j]).instance
  }

  // Of each instance and day, the first report that verifies; and no instance but theirs.
  ghost predicate StoredIs(w: World, fingerprint: string, issued: License, sent: seq<Sent>, t: Tables) {
    && (forall instance, day :: StoredAt(w, fingerprint, issued, sent, t, instance, day))
    && (forall k :: k in t.instances && k.0 == issued.id ==> k.1 in InstancesIn(w, fingerprint, sent))
  }

  lemma FirstSoundOfMore(
    w: World, fingerprint: string, issued: License, sent: seq<Sent>, s: Sent, j: int, instance: string, day: int)
    ensures j < |sent| ==> (FirstSound(w, fingerprint, issued, sent + [s], j, instance, day) <==>
                            FirstSound(w, fingerprint, issued, sent, j, instance, day))
    ensures j == |sent| ==> (FirstSound(w, fingerprint, issued, sent + [s], j, instance, day) <==>
                             SoundFor(w, fingerprint, issued, s, instance, day)
                             && !exists i :: FirstSound(w, fingerprint, issued, sent, i, instance, day))
    ensures FirstSound(w, fingerprint, issued, sent, j, instance, day) ==> 0 <= j < |sent|
    ensures FirstSound(w, fingerprint, issued, sent + [s], j, instance, day) ==> 0 <= j <= |sent|
  {
    hide SoundFor;
    var longer := sent + [s];
    assert forall m :: 0 <= m < |sent| ==> longer[m] == sent[m];
    if j == |sent| && SoundFor(w, fingerprint, issued, s, instance, day) {
      if m :| 0 <= m < |sent| && SoundFor(w, fingerprint, issued, sent[m], instance, day) {
        var i := SomeFirstSound(w, fingerprint, issued, sent, m, instance, day);
      }
    }
  }

  lemma StoredAtStays(
    w: World, fingerprint: string, issued: License, sent: seq<Sent>, s: Sent, t: Tables, u: Tables,
    instance: string, day: int)
    requires StoredAt(w, fingerprint, issued, sent, t, instance, day)
    requires var k := (issued.id, instance, day);
             (k in u.reports <==> k in t.reports)
             && (k in t.reports ==> u.reports[k].document == t.reports[k].document
                                    && u.reports[k].seal == t.reports[k].seal
                                    && u.reports[k].receivedAt == t.reports[k].receivedAt)
    requires !SoundFor(w, fingerprint, issued, s, instance, day) || (issued.id, instance, day) in t.reports
    ensures StoredAt(w, fingerprint, issued, sent + [s], u, instance, day)
  {
    hide FirstSound, SoundFor;
    forall j ensures FirstSound(w, fingerprint, issued, sent + [s], j, instance, day) <==>
                     FirstSound(w, fingerprint, issued, sent, j, instance, day)
    {
      FirstSoundOfMore(w, fingerprint, issued, sent, s, j, instance, day);
    }
    forall j | FirstSound(w, fingerprint, issued, sent, j, instance, day)
      ensures 0 <= j < |sent| && (sent + [s])[j] == sent[j]
    {
      FirstSoundOfMore(w, fingerprint, issued, sent, s, j, instance, day);
    }
  }

  lemma StoredAtNew(
    w: World, fingerprint: string, issued: License, sent: seq<Sent>, s: Sent, t: Tables, u: Tables,
    instance: string, day: int)
    requires StoredAt(w, fingerprint, issued, sent, t, instance, day)
    requires var k := (issued.id, instance, day);
             k !in t.reports && k in u.reports && SameReport(u.reports[k], s)
    requires SoundFor(w, fingerprint, issued, s, instance, day)
    ensures StoredAt(w, fingerprint, issued, sent + [s], u, instance, day)
  {
    hide FirstSound, SoundFor;
    FirstSoundOfMore(w, fingerprint, issued, sent, s, |sent|, instance, day);
    forall j | FirstSound(w, fingerprint, issued, sent + [s], j, instance, day) ensures j == |sent| {
      FirstSoundOfMore(w, fingerprint, issued, sent, s, j, instance, day);
    }
    assert (sent + [s])[|sent|] == s;
  }

  // ---- One report checked against the license ----

  ghost function SoundReport(w: World, issued: License, s: Sent): Report
    requires Read(w, s.document, s.at).Some?
  {
    ReportOf(Read(w, s.document, s.at).value, issued, s.document, s.seal, s.at)
  }

  ghost predicate RowStepped(
    w: World, fingerprint: string, issued: License, s: Sent, t: Tables, u: Tables, instance: string, day: int)
  {
    var k := (issued.id, instance, day);
    if SoundFor(w, fingerprint, issued, s, instance, day)
    then k in u.reports && u.reports[k] == RowAfter(Lookup(t.reports, k), SoundReport(w, issued, s))
    else Lookup(u.reports, k) == Lookup(t.reports, k)
  }

  ghost predicate InstancesStepped(
    w: World, fingerprint: string, issued: License, s: Sent, t: Tables, u: Tables)
  {
    forall k :: k in u.instances && k.0 == issued.id ==>
      k in t.instances || (Admitted(w, fingerprint, s) && k.1 == KeyOf(w, s).instance)
  }

  lemma StoredAtAfterOne(
    w: World, fingerprint: string, issued: License, sent: seq<Sent>, s: Sent, t: Tables, u: Tables,
    instance: string, day: int)
    requires StoredAt(w, fingerprint, issued, sent, t, instance, day)
    requires RowStepped(w, fingerprint, issued, s, t, u, instance, day)
    ensures StoredAt(w, fingerprint, issued, sent + [s], u, instance, day)
  {
    hide StoredAt, SoundFor;
    if SoundFor(w, fingerprint, issued, s, instance, day) && (issued.id, instance, day) !in t.reports {
      StoredAtNew(w, fingerprint, issued, sent, s, t, u, instance, day);
    } else {
      StoredAtStays(w, fingerprint, issued, sent, s, t, u, instance, day);
    }
  }

  lemma InstancesOfMore(w: World, fingerprint: string, sent: seq<Sent>, s: Sent)
    ensures InstancesIn(w, fingerprint, sent) <= InstancesIn(w, fingerprint, sent + [s])
    ensures Admitted(w, fingerprint, s) ==> KeyOf(w, s).instance in InstancesIn(w, fingerprint, sent + [s])
  {
    hide Admitted, KeyOf;
    var longer := sent + [s];
    assert longer[|sent|] == s;
    forall i | i in InstancesIn(w, fingerprint, sent) ensures i in InstancesIn(w, fingerprint, longer) {
      AdmittedIsRead(w, fingerprint);
      var j :| 0 <= j < |sent| && Admitted(w, fingerprint, sent[j]) && KeyOf(w, sent[j]).instance == i;
      assert longer[j] == sent[j];
    }
  }

  lemma AdmittedIsRead(w: World, fingerprint: string)
    ensures forall s :: Admitted(w, fingerprint, s) ==> Read(w, s.document, s.at).Some?
  {
  }

  lemma StoredAfterOne(
    w: World, fingerprint: string, issued: License, sent: seq<Sent>, s: Sent, t: Tables, u: Tables)
    requires StoredIs(w, fingerprint, issued, sent, t)
    requires forall instance, day :: RowStepped(w, fingerprint, issued, s, t, u, instance, day)
    requires InstancesStepped(w, fingerprint, issued, s, t, u)
    ensures StoredIs(w, fingerprint, issued, sent + [s], u)
  {
    hide StoredAt, RowStepped, InstancesIn, Admitted, KeyOf;
    forall instance, day ensures StoredAt(w, fingerprint, issued, sent + [s], u, instance, day) {
      StoredAtAfterOne(w, fingerprint, issued, sent, s, t, u, instance, day);
    }
    InstancesOfMore(w, fingerprint, sent, s);
  }

  // The license has room for the instances of the reports.
  lemma NotTooMany(instances: map<InstanceKey, Instance>, report: Report, limit: InstanceCap, room: set<string>)
    requires forall k :: k in instances && k.0 == report.license ==> k.1 in room
    requires report.instance in room && |room| <= limit.max
    ensures !TooMany(instances, report, limit)
  {
    var lately := SeenLately(instances, report.license, limit.since);
    if report.instance !in lately {
      assert lately <= room;
      StrictlySmaller(lately, room);
    }
  }

  lemma StoreSteps(
    w: World, fingerprint: string, issued: License, s: Sent, t: Tables, limit: InstanceCap, instance: string, day: int)
    requires Admitted(w, fingerprint, s) && w.sealed(issued.encoded, s.document, s.seal)
    requires Says(w, Read(w, s.document, s.at).value, issued)
    requires !TooMany(t.instances, SoundReport(w, issued, s), limit)
    ensures var u := StoreReport(t, SoundReport(w, issued, s), limit).0;
            && RowStepped(w, fingerprint, issued, s, t, u, instance, day)
            && InstancesStepped(w, fingerprint, issued, s, t, u)
  {
    hide TooMany, Read, HexShaped, Says, RowAfter, Upserted;
  }

  // The license is issued, and no other has its id.
  ghost predicate IsIssued(t: Tables, fingerprint: string, issued: License) {
    && fingerprint in t.licenses && t.licenses[fingerprint] == issued
    && (forall f :: f in t.licenses && f != fingerprint ==> t.licenses[f].id != issued.id)
  }

  lemma ReceiveKeepsLicenses(w: World, t: Tables, s: Sent)
    ensures Receive(w, t, s).0.licenses == t.licenses
  {
    hide Receive, EffectOf, Upserted, RowAfter, TooMany, OutcomeOf;
    ReceiveApplies(w, t, s);
  }

  // Room for one more report of the license.
  ghost predicate HasRoom(w: World, fingerprint: string, issued: License, s: Sent, t: Tables) {
    Admitted(w, fingerprint, s) ==> !TooMany(t.instances, SoundReport(w, issued, s), CapAt(s.at))
  }

  lemma ReceiveSteps(
    w: World, fingerprint: string, issued: License, s: Sent, t: Tables, instance: string, day: int)
    requires IsIssued(t, fingerprint, issued) && HasRoom(w, fingerprint, issued, s, t)
    ensures var u := Receive(w, t, s).0;
            && RowStepped(w, fingerprint, issued, s, t, u, instance, day)
            && InstancesStepped(w, fingerprint, issued, s, t, u)
  {
    hide Receive, EffectOf, Applied, StoreReport, HasRoom, RowStepped, InstancesStepped;
    ReceiveApplies(w, t, s);
    if IsSound(w, fingerprint, issued, s) {
      EffectOfSound(w, fingerprint, issued, s, t);
      StoreSteps(w, fingerprint, issued, s, t, CapAt(s.at), instance, day);
    } else {
      EffectOfOther(w, fingerprint, issued, s, t);
      OtherSteps(w, fingerprint, issued, s, t, EffectOf(w, Lookup(t.licenses, s.fingerprint), s), instance, day);
    }
  }

  // A report of the license that verifies, of whatever instance and day.
  ghost predicate IsSound(w: World, fingerprint: string, issued: License, s: Sent) {
    && Admitted(w, fingerprint, s) && w.sealed(issued.encoded, s.document, s.seal)
    && Says(w, Read(w, s.document, s.at).value, issued)
  }

  lemma EffectOfSound(w: World, fingerprint: string, issued: License, s: Sent, t: Tables)
    requires IsIssued(t, fingerprint, issued) && IsSound(w, fingerprint, issued, s)
    requires HasRoom(w, fingerprint, issued, s, t)
    ensures Applied(t, EffectOf(w, Lookup(t.licenses, s.fingerprint), s)) ==
            StoreReport(t, SoundReport(w, issued, s), CapAt(s.at)).0
    ensures !TooMany(t.instances, SoundReport(w, issued, s), CapAt(s.at))
  {
    hide StoreReport, TooMany, Read, HexShaped, Says;
  }

  // Any other report stores nothing under the license.
  lemma EffectOfOther(w: World, fingerprint: string, issued: License, s: Sent, t: Tables)
    requires IsIssued(t, fingerprint, issued) && !IsSound(w, fingerprint, issued, s)
    ensures var effect := EffectOf(w, Lookup(t.licenses, s.fingerprint), s);
      effect.Storing? ==> effect.report.license != issued.id
  {
    hide Read, HexShaped, Says;
    StoresUnderItsLicense(w, Lookup(t.licenses, s.fingerprint), s);
  }

  lemma OtherSteps(
    w: World, fingerprint: string, issued: License, s: Sent, t: Tables, effect: Effect, instance: string, day: int)
    requires !IsSound(w, fingerprint, issued, s) && (effect.Storing? ==> effect.report.license != issued.id)
    ensures RowStepped(w, fingerprint, issued, s, t, Applied(t, effect), instance, day)
    ensures InstancesStepped(w, fingerprint, issued, s, t, Applied(t, effect))
  {
    hide TooMany, Upserted, RowAfter, OutcomeOf, Admitted, Says;
  }

  lemma RoomFor(w: World, fingerprint: string, issued: License, s: Sent, t: Tables, room: set<string>)
    requires forall k :: k in t.instances && k.0 == issued.id ==> k.1 in room
    requires Admitted(w, fingerprint, s) ==> KeyOf(w, s).instance in room
    requires |room| <= INSTANCE_CAP_PER_LICENSE
    ensures HasRoom(w, fingerprint, issued, s, t)
  {
    if Admitted(w, fingerprint, s) {
      NotTooMany(t.instances, SoundReport(w, issued, s), CapAt(s.at), room);
    }
  }

  // ---- The license issued first ----

  lemma NothingStoredYet(w: World, t: Tables, fingerprint: string, issued: License)
    requires NotIssuedYet(t, fingerprint, issued)
    ensures StoredIs(w, fingerprint, issued, [], t)
  {
  }

  lemma {:induction false} ReceiveAllKeepsIssued(
    w: World, t: Tables, sent: seq<Sent>, fingerprint: string, issued: License)
    requires IsIssued(t, fingerprint, issued)
    ensures IsIssued(ReceiveAll(w, t, sent), fingerprint, issued)
  {
    if sent != [] {
      ReceiveAllKeepsIssued(w, t, sent[..|sent| - 1], fingerprint, issued);
      ReceiveKeepsLicenses(w, ReceiveAll(w, t, sent[..|sent| - 1]), sent[|sent| - 1]);
      hide Receive;
    }
  }

  lemma InstancesOfBefore(w: World, fingerprint: string, sent: seq<Sent>)
    requires sent != []
    ensures var before, last := sent[..|sent| - 1], sent[|sent| - 1];
            && InstancesIn(w, fingerprint, before) <= InstancesIn(w, fingerprint, sent)
            && (Admitted(w, fingerprint, last) ==> KeyOf(w, last).instance in InstancesIn(w, fingerprint, sent))
  {
    InstancesOfMore(w, fingerprint, sent[..|sent| - 1], sent[|sent| - 1]);
    assert sent[..|sent| - 1] + [sent[|sent| - 1]] == sent;
  }

  lemma {:induction false} StoredAfterAll(
    w: World, t: Tables, sent: seq<Sent>, fingerprint: string, issued: License, room: set<string>)
    requires IsIssued(t, fingerprint, issued) && StoredIs(w, fingerprint, issued, [], t)
    requires InstancesIn(w, fingerprint, sent) <= room && |room| <= INSTANCE_CAP_PER_LICENSE
    ensures StoredIs(w, fingerprint, issued, sent, ReceiveAll(w, t, sent))
  {
    if sent != [] {
      var before, last := sent[..|sent| - 1], sent[|sent| - 1];
      InstancesOfBefore(w, fingerprint, sent);
      StoredAfterAll(w, t, before, fingerprint, issued, room);
      ReceiveAllKeepsIssued(w, t, before, fingerprint, issued);
      StoredAfterReceive(w, ReceiveAll(w, t, before), before, last, fingerprint, issued, room);
      assert before + [last] == sent;
    }
  }

  lemma StoredAfterReceive(
    w: World, t: Tables, sent: seq<Sent>, s: Sent, fingerprint: string, issued: License, room: set<string>)
    requires IsIssued(t, fingerprint, issued) && StoredIs(w, fingerprint, issued, sent, t)
    requires InstancesIn(w, fingerprint, sent) <= room && |room| <= INSTANCE_CAP_PER_LICENSE
    requires Admitted(w, fingerprint, s) ==> KeyOf(w, s).instance in room
    ensures StoredIs(w, fingerprint, issued, sent + [s], Receive(w, t, s).0)
  {
    RoomFor(w, fingerprint, issued, s, t, room);
    hide StoredIs, IsIssued, HasRoom, Receive, RowStepped, InstancesStepped, Admitted;
    forall instance, day ensures RowStepped(w, fingerprint, issued, s, t, Receive(w, t, s).0, instance, day) {
      ReceiveSteps(w, fingerprint, issued, s, t, instance, day);
    }
    ReceiveSteps(w, fingerprint, issued, s, t, "", 0);
    StoredAfterOne(w, fingerprint, issued, sent, s, t, Receive(w, t, s).0);
  }

  // ---- The license issued last ----

  // A pending report, as it was sent.
  ghost function AsSent(p: Listed): Sent {
    Sent(p.row.document, p.key.seal, p.key.fingerprint, p.row.receivedAt)
  }

  ghost function AllAsSent(list: seq<Listed>): seq<Sent> {
    seq(|list|, n requires 0 <= n < |list| => AsSent(list[n]))
  }

  // What is listed is what the intake read of it.
  ghost predicate ListedAsRead(w: World, fingerprint: string, p: Listed) {
    IsFor(w, fingerprint, AsSent(p), p.key)
  }

  lemma PromoteSteps(
    w: World, fingerprint: string, issued: License, p: Listed, t: Tables, now: int, instance: string, day: int)
    requires ListedAsRead(w, fingerprint, p) && HasRoom(w, fingerprint, issued, AsSent(p), t)
    ensures var u := Promote(w, t, issued, p, now).0;
            && RowStepped(w, fingerprint, issued, AsSent(p), t, u, instance, day)
            && InstancesStepped(w, fingerprint, issued, AsSent(p), t, u)
  {
    hide Promote, StoreReport, HasRoom, RowStepped, InstancesStepped;
    var s := AsSent(p);
    PromoteApplies(w, t, issued, p, now);
    StandsIfSound(w, fingerprint, issued, p, t);
    if IsSound(w, fingerprint, issued, s) {
      StoreSteps(w, fingerprint, issued, s, t, CapAt(s.at), instance, day);
      SteppedByRows(w, fingerprint, issued, s, t, StoreReport(t, SoundReport(w, issued, s), CapAt(s.at)).0,
                    Promote(w, t, issued, p, now).0, instance, day);
    } else {
      OtherSteps(w, fingerprint, issued, s, t, Nothing, instance, day);
      SteppedByRows(w, fingerprint, issued, s, t, t, Promote(w, t, issued, p, now).0, instance, day);
    }
  }

  lemma StandsIfSound(w: World, fingerprint: string, issued: License, p: Listed, t: Tables)
    requires ListedAsRead(w, fingerprint, p) && HasRoom(w, fingerprint, issued, AsSent(p), t)
    ensures Stands(w, issued, p) <==> IsSound(w, fingerprint, issued, AsSent(p))
    ensures Stands(w, issued, p) ==>
              && ReportOfPending(w, issued, p) == SoundReport(w, issued, AsSent(p))
              && !TooMany(t.instances, SoundReport(w, issued, AsSent(p)), CapAt(AsSent(p).at))
  {
    hide TooMany, Read, HexShaped, Says;
  }

  lemma SteppedByRows(
    w: World, fingerprint: string, issued: License, s: Sent, t: Tables, u: Tables, v: Tables, instance: string, day: int)
    requires RowStepped(w, fingerprint, issued, s, t, u, instance, day)
    requires InstancesStepped(w, fingerprint, issued, s, t, u)
    requires u.reports == v.reports && u.instances == v.instances
    ensures RowStepped(w, fingerprint, issued, s, t, v, instance, day)
    ensures InstancesStepped(w, fingerprint, issued, s, t, v)
  {
    hide SoundFor, RowAfter, Admitted;
  }

  lemma StoredAfterPromote(
    w: World, t: Tables, sent: seq<Sent>, p: Listed, fingerprint: string, issued: License, now: int, room: set<string>)
    requires ListedAsRead(w, fingerprint, p) && StoredIs(w, fingerprint, issued, sent, t)
    requires InstancesIn(w, fingerprint, sent) <= room && |room| <= INSTANCE_CAP_PER_LICENSE
    requires Admitted(w, fingerprint, AsSent(p)) ==> KeyOf(w, AsSent(p)).instance in room
    ensures StoredIs(w, fingerprint, issued, sent + [AsSent(p)], Promote(w, t, issued, p, now).0)
  {
    var s := AsSent(p);
    RoomFor(w, fingerprint, issued, s, t, room);
    hide StoredIs, HasRoom, Promote, RowStepped, InstancesStepped, Admitted, ListedAsRead;
    var u := Promote(w, t, issued, p, now).0;
    forall instance, day ensures RowStepped(w, fingerprint, issued, s, t, u, instance, day) {
      PromoteSteps(w, fingerprint, issued, p, t, now, instance, day);
    }
    PromoteSteps(w, fingerprint, issued, p, t, now, "", 0);
    StoredAfterOne(w, fingerprint, issued, sent, s, t, u);
  }

  lemma {:induction false} StoredAfterPromoteAll(
    w: World, t: Tables, list: seq<Listed>, fingerprint: string, issued: License, now: int, room: set<string>)
    requires StoredIs(w, fingerprint, issued, [], t)
    requires forall n :: 0 <= n < |list| ==> ListedAsRead(w, fingerprint, list[n])
    requires InstancesIn(w, fingerprint, AllAsSent(list)) <= room && |room| <= INSTANCE_CAP_PER_LICENSE
    ensures StoredIs(w, fingerprint, issued, AllAsSent(list), PromoteAll(w, t, issued, list, now).0)
  {
    if list == [] {
      assert AllAsSent(list) == [];
    } else {
      var before, last := list[..|list| - 1], list[|list| - 1];
      assert AllAsSent(list) == AllAsSent(before) + [AsSent(last)];
      hide ListedAsRead, StoredIs, Promote, Admitted;
      InstancesOfMore(w, fingerprint, AllAsSent(before), AsSent(last));
      StoredAfterPromoteAll(w, t, before, fingerprint, issued, now, room);
      var u := PromoteAll(w, t, issued, before, now).0;
      StoredAfterPromote(w, u, AllAsSent(before), last, fingerprint, issued, now, room);
    }
  }
}
