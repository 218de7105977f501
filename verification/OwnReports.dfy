// The sound reports of one instance of a license, in the order they are checked, and the rows they
// leave: whether they are received or promoted.
module OwnReports {
  import opened Wrappers
  import opened Reports
  import opened Intake
  import opened PendingReports
  import opened StoredReports
  import opened ReportHistory
  import opened ReportOrder

  ghost predicate IsOwn(w: World, fingerprint: string, issued: License, s: Sent, instance: string): (own: bool)
    ensures own ==> Read(w, s.document, s.at).Some?
  {
    hide HexShaped, Says, Read;
    IsSound(w, fingerprint, issued, s) && KeyOf(w, s).instance == instance
  }

  ghost function Own(w: World, fingerprint: string, issued: License, sent: seq<Sent>, instance: string): seq<Report> {
    if sent == [] then []
    else
      var before, last := Own(w, fingerprint, issued, sent[..|sent| - 1], instance), sent[|sent| - 1];
      if IsOwn(w, fingerprint, issued, last, instance) then before + [SoundReport(w, issued, last)] else before
  }

  lemma OwnIsSound(w: World, fingerprint: string, issued: License, s: Sent, instance: string, day: int)
    ensures SoundFor(w, fingerprint, issued, s, instance, day) <==>
            IsOwn(w, fingerprint, issued, s, instance) && SoundReport(w, issued, s).day == day
    ensures IsOwn(w, fingerprint, issued, s, instance) ==>
              var r := SoundReport(w, issued, s);
              && r.license == issued.id && r.instance == instance
              && r.receivedAt == s.at && r.document == s.document
  {
    hide HexShaped, Says, Read;
  }

  lemma OwnOfOneMore(
    w: World, fingerprint: string, issued: License, sent: seq<Sent>, s: Sent, instance: string)
    ensures Own(w, fingerprint, issued, sent + [s], instance) ==
            Own(w, fingerprint, issued, sent, instance)
            + (if IsOwn(w, fingerprint, issued, s, instance) then [SoundReport(w, issued, s)] else [])
  {
    hide IsOwn;
    assert (sent + [s])[..|sent|] == sent;
  }

  // ---- One report more ----

  ghost predicate InstanceStepped(
    w: World, fingerprint: string, issued: License, s: Sent, t: Tables, u: Tables, instance: string)
  {
    var k := (issued.id, instance);
    Lookup(u.instances, k) ==
    if IsOwn(w, fingerprint, issued, s, instance)
    then Some(Upserted(Lookup(t.instances, k), SoundReport(w, issued, s)))
    else Lookup(t.instances, k)
  }

  ghost predicate RowsAre(
    w: World, fingerprint: string, issued: License, sent: seq<Sent>, t: Tables, instance: string, day: int)
  {
    var own := Own(w, fingerprint, issued, sent, instance);
    && Lookup(t.instances, (issued.id, instance)) == InstanceAfter(own)
    && Lookup(t.reports, (issued.id, instance, day)) == DayAfter(OfDay(own, (issued.id, instance, day)))
  }

  lemma RowsAfterOne(
    w: World, fingerprint: string, issued: License, sent: seq<Sent>, s: Sent, t: Tables, u: Tables,
    instance: string, day: int)
    requires RowsAre(w, fingerprint, issued, sent, t, instance, day)
    requires RowStepped(w, fingerprint, issued, s, t, u, instance, day)
    requires InstanceStepped(w, fingerprint, issued, s, t, u, instance)
    ensures RowsAre(w, fingerprint, issued, sent + [s], u, instance, day)
  {
    hide IsOwn, SoundFor, Own, InstanceAfter, DayAfter, OfDay, Upserted, RowAfter, SoundReport;
    var own, key := Own(w, fingerprint, issued, sent, instance), (issued.id, instance, day);
    OwnOfOneMore(w, fingerprint, issued, sent, s, instance);
    OwnIsSound(w, fingerprint, issued, s, instance, day);
    if IsOwn(w, fingerprint, issued, s, instance) {
      var r := SoundReport(w, issued, s);
      InstanceAfterOneMore(own, r);
      OfOneMore(own, r, (issued.id, instance), key);
      DayAfterOneMore(OfDay(own, key), r);
      assert OfDay(own, key) + [] == OfDay(own, key);
    } else {
      assert own + [] == own;
    }
  }

  lemma StoreStepsInstance(
    w: World, fingerprint: string, issued: License, s: Sent, t: Tables, limit: InstanceCap, instance: string)
    requires IsSound(w, fingerprint, issued, s) && !TooMany(t.instances, SoundReport(w, issued, s), limit)
    ensures InstanceStepped(w, fingerprint, issued, s, t, StoreReport(t, SoundReport(w, issued, s), limit).0, instance)
  {
    hide TooMany, Read, HexShaped, Says, RowAfter, Upserted;
  }

  lemma OtherStepsInstance(
    w: World, fingerprint: string, issued: License, s: Sent, t: Tables, effect: Effect, instance: string)
    requires !IsSound(w, fingerprint, issued, s) && (effect.Storing? ==> effect.report.license != issued.id)
    ensures InstanceStepped(w, fingerprint, issued, s, t, Applied(t, effect), instance)
  {
    hide TooMany, Upserted, RowAfter, OutcomeOf, Admitted, Says;
  }

  lemma ReceiveStepsInstance(
    w: World, fingerprint: string, issued: License, s: Sent, t: Tables, instance: string)
    requires IsIssued(t, fingerprint, issued) && HasRoom(w, fingerprint, issued, s, t)
    ensures InstanceStepped(w, fingerprint, issued, s, t, Receive(w, t, s).0, instance)
  {
    hide Receive, EffectOf, Applied, StoreReport, HasRoom, InstanceStepped;
    ReceiveApplies(w, t, s);
    if IsSound(w, fingerprint, issued, s) {
      EffectOfSound(w, fingerprint, issued, s, t);
      StoreStepsInstance(w, fingerprint, issued, s, t, CapAt(s.at), instance);
    } else {
      EffectOfOther(w, fingerprint, issued, s, t);
      OtherStepsInstance(w, fingerprint, issued, s, t, EffectOf(w, Lookup(t.licenses, s.fingerprint), s), instance);
    }
  }

  lemma PromoteStepsInstance(
    w: World, fingerprint: string, issued: License, p: Listed, t: Tables, now: int, instance: string)
    requires ListedAsRead(w, fingerprint, p) && HasRoom(w, fingerprint, issued, AsSent(p), t)
    ensures InstanceStepped(w, fingerprint, issued, AsSent(p), t, Promote(w, t, issued, p, now).0, instance)
  {
    hide Promote, StoreReport, HasRoom, RowAfter, Upserted, Admitted, Says, Read;
    var s := AsSent(p);
    PromoteApplies(w, t, issued, p, now);
    StandsIfSound(w, fingerprint, issued, p, t);
    if IsSound(w, fingerprint, issued, s) {
      StoreStepsInstance(w, fingerprint, issued, s, t, CapAt(s.at), instance);
    } else {
      OtherStepsInstance(w, fingerprint, issued, s, t, Nothing, instance);
    }
  }

  // ---- All the reports ----

  lemma {:induction false} RowsAfterReceiveAll(
    w: World, t: Tables, sent: seq<Sent>, fingerprint: string, issued: License, room: set<string>,
    instance: string, day: int)
    requires IsIssued(t, fingerprint, issued) && StoredIs(w, fingerprint, issued, [], t)
    requires RowsAre(w, fingerprint, issued, [], t, instance, day)
    requires InstancesIn(w, fingerprint, sent) <= room && |room| <= INSTANCE_CAP_PER_LICENSE
    ensures RowsAre(w, fingerprint, issued, sent, ReceiveAll(w, t, sent), instance, day)
  {
    if sent != [] {
      hide RowsAre, IsIssued, InstancesIn, Receive, RowStepped, InstanceStepped, Admitted, KeyOf, HasRoom, StoredAt;
      var before, last := sent[..|sent| - 1], sent[|sent| - 1];
      InstancesOfBefore(w, fingerprint, sent);
      RowsAfterReceiveAll(w, t, before, fingerprint, issued, room, instance, day);
      StoredAfterAll(w, t, before, fingerprint, issued, room);
      ReceiveAllKeepsIssued(w, t, before, fingerprint, issued);
      var u := ReceiveAll(w, t, before);
      RoomFor(w, fingerprint, issued, last, u, room);
      ReceiveSteps(w, fingerprint, issued, last, u, instance, day);
      ReceiveStepsInstance(w, fingerprint, issued, last, u, instance);
      RowsAfterOne(w, fingerprint, issued, before, last, u, Receive(w, u, last).0, instance, day);
      assert before + [last] == sent;
    }
  }

  lemma {:induction false} RowsAfterPromoteAll(
    w: World, t: Tables, list: seq<Listed>, fingerprint: string, issued: License, now: int, room: set<string>,
    instance: string, day: int)
    requires StoredIs(w, fingerprint, issued, [], t)
    requires RowsAre(w, fingerprint, issued, [], t, instance, day)
    requires forall n :: 0 <= n < |list| ==> ListedAsRead(w, fingerprint, list[n])
    requires InstancesIn(w, fingerprint, AllAsSent(list)) <= room && |room| <= INSTANCE_CAP_PER_LICENSE
    ensures RowsAre(w, fingerprint, issued, AllAsSent(list), PromoteAll(w, t, issued, list, now).0, instance, day)
  {
    if list == [] {
      assert AllAsSent(list) == [];
    } else {
      hide RowsAre, InstancesIn, Promote, RowStepped, InstanceStepped, Admitted, KeyOf, HasRoom, ListedAsRead, StoredAt;
      var before, last := list[..|list| - 1], list[|list| - 1];
      assert AllAsSent(list) == AllAsSent(before) + [AsSent(last)];
      InstancesOfMore(w, fingerprint, AllAsSent(before), AsSent(last));
      RowsAfterPromoteAll(w, t, before, fingerprint, issued, now, room, instance, day);
      StoredAfterPromoteAll(w, t, before, fingerprint, issued, now, room);
      var u := PromoteAll(w, t, issued, before, now).0;
      RoomFor(w, fingerprint, issued, AsSent(last), u, room);
      PromoteSteps(w, fingerprint, issued, last, u, now, instance, day);
      PromoteStepsInstance(w, fingerprint, issued, last, u, now, instance);
      RowsAfterOne(w, fingerprint, issued, AllAsSent(before), AsSent(last), u, Promote(w, u, issued, last, now).0,
                   instance, day);
    }
  }

  // ---- Whose reports they are, and in what order ----

  lemma {:induction false} OwnAre(
    w: World, fingerprint: string, issued: License, sent: seq<Sent>, instance: string, r: Report)
    ensures r in Own(w, fingerprint, issued, sent, instance) <==>
            exists j :: 0 <= j < |sent| && IsOwn(w, fingerprint, issued, sent[j], instance)
                        && SoundReport(w, issued, sent[j]) == r
  {
    hide IsOwn, SoundReport;
    if sent != [] {
      var before, last := sent[..|sent| - 1], sent[|sent| - 1];
      OwnAre(w, fingerprint, issued, before, instance, r);
      assert forall j :: 0 <= j < |before| ==> before[j] == sent[j];
    }
  }

  lemma OwnBefore(
    w: World, fingerprint: string, issued: License, sent: seq<Sent>, instance: string, r: Report) returns (j: int)
    requires r in Own(w, fingerprint, issued, sent, instance)
    ensures 0 <= j < |sent| && IsOwn(w, fingerprint, issued, sent[j], instance)
    ensures SoundReport(w, issued, sent[j]) == r && r.receivedAt == sent[j].at && r.license == issued.id
    ensures r.instance == instance && r.document == sent[j].document
    ensures SoundFor(w, fingerprint, issued, sent[j], instance, r.day)
  {
    hide IsOwn, SoundFor;
    OwnAre(w, fingerprint, issued, sent, instance, r);
    j :| 0 <= j < |sent| && IsOwn(w, fingerprint, issued, sent[j], instance)
         && SoundReport(w, issued, sent[j]) == r;
    OwnIsSound(w, fingerprint, issued, sent[j], instance, r.day);
  }

  lemma OwnIfSound(
    w: World, fingerprint: string, issued: License, sent: seq<Sent>, instance: string, day: int, j: int)
    returns (r: Report)
    requires 0 <= j < |sent| && SoundFor(w, fingerprint, issued, sent[j], instance, day)
    ensures r in Own(w, fingerprint, issued, sent, instance)
    ensures IsOwn(w, fingerprint, issued, sent[j], instance) && r == SoundReport(w, issued, sent[j])
    ensures r.day == day && r.receivedAt == sent[j].at && r.document == sent[j].document
  {
    hide IsOwn, SoundFor, SoundReport;
    OwnIsSound(w, fingerprint, issued, sent[j], instance, day);
    r := SoundReport(w, issued, sent[j]);
    OwnAre(w, fingerprint, issued, sent, instance, r);
  }
}
