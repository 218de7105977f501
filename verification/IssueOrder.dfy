// Issuing a license after its reports came, or before: when the rows are the same to the last column,
// and when what is known of an instance is.
module IssueOrder {
  import opened Wrappers
  import opened Sets
  import opened Reports
  import opened Intake
  import opened PendingReports
  import opened StoredReports
  import opened ListedReports
  import opened ReportHistory
  import opened ReportOrder
  import opened OwnReports
  import opened Promotion

  // ---- The order of the reports ----

  // Every pair of sound reports of the instance, in this order.
  ghost predicate OwnSorted(
    w: World, fingerprint: string, issued: License, sent: seq<Sent>, instance: string)
  {
    forall j, k ::
      0 <= j < k < |sent| && IsOwn(w, fingerprint, issued, sent[j], instance)
      && IsOwn(w, fingerprint, issued, sent[k], instance)
      ==> BeforeByDay(SoundReport(w, issued, sent[j]), SoundReport(w, issued, sent[k]))
  }

  lemma OneMoreByDay(rs: seq<Report>, r: Report)
    requires InOrderOfDays(rs) && forall k :: 0 <= k < |rs| ==> BeforeByDay(rs[k], r)
    ensures InOrderOfDays(rs + [r])
  {
    hide BeforeByDay;
  }

  lemma {:induction false} OwnByDay(
    w: World, fingerprint: string, issued: License, sent: seq<Sent>, instance: string)
    requires OwnSorted(w, fingerprint, issued, sent, instance)
    ensures InOrderOfDays(Own(w, fingerprint, issued, sent, instance))
  {
    hide IsOwn, BeforeByDay, SoundReport, InOrderOfDays, SoundFor;
    if sent == [] {
      NoneInOrder();
    } else {
      var before, last := sent[..|sent| - 1], sent[|sent| - 1];
      assert forall j :: 0 <= j < |before| ==> before[j] == sent[j];
      OwnByDay(w, fingerprint, issued, before, instance);
      if IsOwn(w, fingerprint, issued, last, instance) {
        var own, r := Own(w, fingerprint, issued, before, instance), SoundReport(w, issued, last);
        forall k | 0 <= k < |own| ensures BeforeByDay(own[k], r) {
          var j := OwnBefore(w, fingerprint, issued, before, instance, own[k]);
          assert sent[j] == before[j];
        }
        OneMoreByDay(own, r);
      }
    }
  }

  lemma NoneInOrder()
    ensures InOrderOfDays([]) && InOrderOfReception([])
  {
  }

  lemma {:induction false} OwnByReception(
    w: World, fingerprint: string, issued: License, sent: seq<Sent>, instance: string)
    requires Increasing(sent)
    ensures InOrderOfReception(Own(w, fingerprint, issued, sent, instance))
  {
    hide IsOwn, SoundReport, InOrderOfReception, SoundFor;
    if sent == [] {
      NoneInOrder();
    } else {
      var before, last := sent[..|sent| - 1], sent[|sent| - 1];
      assert forall j :: 0 <= j < |before| ==> before[j] == sent[j];
      OwnByReception(w, fingerprint, issued, before, instance);
      if IsOwn(w, fingerprint, issued, last, instance) {
        var own, r := Own(w, fingerprint, issued, before, instance), SoundReport(w, issued, last);
        OwnIsSound(w, fingerprint, issued, last, instance, 0);
        forall k | 0 <= k < |own| ensures own[k].receivedAt < r.receivedAt {
          var j := OwnBefore(w, fingerprint, issued, before, instance, own[k]);
          assert sent[j] == before[j];
        }
        OneMoreReception(own, r);
      }
    }
  }

  // ---- What the promotion reads, among what was sent ----

  // What is known of a list of pending reports and of what was sent.
  ghost predicate ListOf(w: World, fingerprint: string, sent: seq<Sent>, t: Tables, list: seq<Listed>) {
    PendingIs(w, fingerprint, sent, t) && IsPendingList(t, fingerprint, list) && Increasing(sent)
  }

  lemma KeysDiffer(t: Tables, fingerprint: string, list: seq<Listed>, m: int, n: int)
    requires IsPendingList(t, fingerprint, list) && 0 <= m < n < |list|
    ensures list[m].key != list[n].key && list[m].key.day <= list[n].key.day
  {
    assert InListOrder(list[m], list[n]);
  }

  lemma ListedTells(w: World, fingerprint: string, issued: License, p: Listed, instance: string)
    requires ListedAsRead(w, fingerprint, p) && IsOwn(w, fingerprint, issued, AsSent(p), instance)
    ensures var r := SoundReport(w, issued, AsSent(p));
            r.day == p.key.day && p.key.instance == instance && r.receivedAt == p.row.receivedAt
  {
    hide HexShaped, Read, Says;
  }

  lemma ListIsByDay(
    w: World, fingerprint: string, issued: License, sent: seq<Sent>, t: Tables, list: seq<Listed>, instance: string)
    requires ListOf(w, fingerprint, sent, t, list)
    ensures InOrderOfDays(Own(w, fingerprint, issued, AllAsSent(list), instance))
  {
    hide IsOwn, PendingIs, IsPendingList, ListedAsRead, SoundReport, Unmasked, KeyOf;
    var all := AllAsSent(list);
    forall m, n | 0 <= m < n < |all| && IsOwn(w, fingerprint, issued, all[m], instance)
                  && IsOwn(w, fingerprint, issued, all[n], instance)
      ensures BeforeByDay(SoundReport(w, issued, all[m]), SoundReport(w, issued, all[n]))
    {
      var i := OriginOfListed(w, fingerprint, sent, t, list, m);
      var j := OriginOfListed(w, fingerprint, sent, t, list, n);
      KeysDiffer(t, fingerprint, list, m, n);
      ListedTells(w, fingerprint, issued, list[m], instance);
      ListedTells(w, fingerprint, issued, list[n], instance);
      ListedBefore(t, fingerprint, list, m, n);
      UnmaskedIsSent(w, fingerprint, sent, i);
      UnmaskedIsSent(w, fingerprint, sent, j);
      assert i != j && sent[i].at != sent[j].at;
    }
    OwnByDay(w, fingerprint, issued, all, instance);
  }

  lemma UnmaskedIsSent(w: World, fingerprint: string, sent: seq<Sent>, k: int)
    requires Unmasked(w, fingerprint, sent, k)
    ensures 0 <= k < |sent|
  {
  }

  // A report listed was sent, first under its seal; and what was is listed.
  lemma ListedIsUnmasked(
    w: World, fingerprint: string, issued: License, sent: seq<Sent>, t: Tables, list: seq<Listed>,
    instance: string, r: Report) returns (k: int)
    requires ListOf(w, fingerprint, sent, t, list)
    requires r in Own(w, fingerprint, issued, AllAsSent(list), instance)
    ensures Unmasked(w, fingerprint, sent, k) && 0 <= k < |sent| && r.receivedAt == sent[k].at
    ensures IsOwn(w, fingerprint, issued, sent[k], instance) && SoundReport(w, issued, sent[k]) == r
    ensures r in Own(w, fingerprint, issued, sent, instance)
  {
    hide IsOwn, PendingIs, IsPendingList, ListedAsRead, SoundReport, Unmasked, SoundFor, Increasing;
    var n := OwnBefore(w, fingerprint, issued, AllAsSent(list), instance, r);
    k := OriginOfListed(w, fingerprint, sent, t, list, n);
    UnmaskedIsSent(w, fingerprint, sent, k);
    OwnAre(w, fingerprint, issued, sent, instance, r);
  }

  lemma UnmaskedSoundIsListed(
    w: World, fingerprint: string, issued: License, sent: seq<Sent>, t: Tables, list: seq<Listed>,
    instance: string, day: int, k: int)
    requires ListOf(w, fingerprint, sent, t, list)
    requires 0 <= k < |sent| && SoundFor(w, fingerprint, issued, sent[k], instance, day)
    requires Unmasked(w, fingerprint, sent, k)
    ensures IsOwn(w, fingerprint, issued, sent[k], instance)
    ensures SoundReport(w, issued, sent[k]) in Own(w, fingerprint, issued, AllAsSent(list), instance)
  {
    hide IsOwn, PendingIs, IsPendingList, ListedAsRead, SoundReport, Unmasked, SoundFor, Increasing;
    var n := UnmaskedIsListed(w, fingerprint, sent, t, list, k);
    assert AllAsSent(list)[n] == sent[k];
    var r := OwnIfSound(w, fingerprint, issued, AllAsSent(list), instance, day, n);
  }

  // ---- What is known of an instance ----

  ghost predicate NeverMasked(w: World, fingerprint: string, issued: License, sent: seq<Sent>, instance: string) {
    forall day :: NotMasked(w, fingerprint, issued, sent, instance, day)
  }

  // The first sound report of its day, of what was sent.
  lemma FirstOfItsDayIsFirst(
    w: World, fingerprint: string, issued: License, sent: seq<Sent>, instance: string, k: int) returns (j: int)
    requires Increasing(sent)
    requires IsFirstOfItsDay(Own(w, fingerprint, issued, sent, instance), k)
    ensures var r := Own(w, fingerprint, issued, sent, instance)[k];
            && FirstSound(w, fingerprint, issued, sent, j, instance, r.day) && 0 <= j < |sent|
            && IsOwn(w, fingerprint, issued, sent[j], instance) && SoundReport(w, issued, sent[j]) == r
  {
    hide IsOwn, SoundReport, SoundFor;
    var own := Own(w, fingerprint, issued, sent, instance);
    OwnByReception(w, fingerprint, issued, sent, instance);
    j := OwnBefore(w, fingerprint, issued, sent, instance, own[k]);
    forall m | 0 <= m < j ensures !SoundFor(w, fingerprint, issued, sent[m], instance, own[k].day) {
      if SoundFor(w, fingerprint, issued, sent[m], instance, own[k].day) {
        var q := OwnIfSound(w, fingerprint, issued, sent, instance, own[k].day, m);
        FirstIsEarliest(own, k, q);
        assert false;
      }
    }
  }

  lemma FirstIsEarliest(rs: seq<Report>, k: int, q: Report)
    requires InOrderOfReception(rs) && IsFirstOfItsDay(rs, k) && q in rs && q.day == rs[k].day
    ensures rs[k].receivedAt <= q.receivedAt
  {
    var n :| 0 <= n < |rs| && rs[n] == q;
    assert k <= n;
  }

  lemma PromotedByDay(
    w: World, fingerprint: string, issued: License, sent: seq<Sent>, t: Tables, list: seq<Listed>, instance: string)
    requires ListOf(w, fingerprint, sent, t, list) && NeverMasked(w, fingerprint, issued, sent, instance)
    ensures ByDay(Own(w, fingerprint, issued, sent, instance), Own(w, fingerprint, issued, AllAsSent(list), instance))
  {
    ListIsByDay(w, fingerprint, issued, sent, t, list, instance);
    OwnByReception(w, fingerprint, issued, sent, instance);
    hide ListOf, Unmasked, IsOwn, SoundReport, InOrderOfDays, InOrderOfReception, IsFirstOfItsDay;
    var own := Own(w, fingerprint, issued, sent, instance);
    var promoted := Own(w, fingerprint, issued, AllAsSent(list), instance);
    forall r | r in promoted ensures r in own {
      var _ := ListedIsUnmasked(w, fingerprint, issued, sent, t, list, instance, r);
    }
    forall k | IsFirstOfItsDay(own, k) ensures 0 <= k < |own| && own[k] in promoted {
      FirstIsThere(own, k);
      FirstIsPromoted(w, fingerprint, issued, sent, t, list, instance, k);
    }
  }

  lemma FirstIsPromoted(
    w: World, fingerprint: string, issued: License, sent: seq<Sent>, t: Tables, list: seq<Listed>, instance: string,
    k: int)
    requires ListOf(w, fingerprint, sent, t, list) && NeverMasked(w, fingerprint, issued, sent, instance)
    requires IsFirstOfItsDay(Own(w, fingerprint, issued, sent, instance), k)
    ensures Own(w, fingerprint, issued, sent, instance)[k] in Own(w, fingerprint, issued, AllAsSent(list), instance)
  {
    hide Unmasked, IsOwn, SoundReport, IsFirstOfItsDay, PendingIs, IsPendingList, SoundFor;
    FirstIsThere(Own(w, fingerprint, issued, sent, instance), k);
    var r := Own(w, fingerprint, issued, sent, instance)[k];
    var j := FirstOfItsDayIsFirst(w, fingerprint, issued, sent, instance, k);
    assert NotMasked(w, fingerprint, issued, sent, instance, r.day);
    UnmaskedSoundIsListed(w, fingerprint, issued, sent, t, list, instance, r.day, j);
  }

  // ---- The rows, the license issued first or last ----

  lemma NoRowsYet(w: World, fingerprint: string, issued: License, t: Tables, instance: string, day: int)
    requires NotIssuedYet(t, fingerprint, issued)
    ensures RowsAre(w, fingerprint, issued, [], Record(t, fingerprint, issued), instance, day)
  {
    hide Upserted, RowAfter;
    var key := (issued.id, instance, day);
    assert (issued.id, instance) !in t.instances && key !in t.reports;
    assert OfDay([], key) == [];
  }

  lemma RowsWhenFirst(
    w: World, t: Tables, sent: seq<Sent>, fingerprint: string, issued: License, list: seq<Listed>,
    instance: string, day: int)
    requires Comparable(w, t, sent, fingerprint, issued, list)
    ensures RowsAre(w, fingerprint, issued, sent, IssuedFirst(w, t, sent, fingerprint, issued), instance, day)
  {
    RecordKeepsTheRest(w, t, fingerprint, issued, sent);
    NoRowsYet(w, fingerprint, issued, t, instance, day);
    hide StoredIs, IsIssued, NeverFull, IsPendingList, RowsAre, NotIssuedYet;
    RowsAfterReceiveAll(w, Record(t, fingerprint, issued), sent, fingerprint, issued,
                        InstancesIn(w, fingerprint, sent), instance, day);
  }

  lemma RowsWhenLast(
    w: World, t: Tables, sent: seq<Sent>, fingerprint: string, issued: License, list: seq<Listed>, now: int,
    instance: string, day: int)
    requires Comparable(w, t, sent, fingerprint, issued, list)
    ensures ListOf(w, fingerprint, sent, Record(ReceiveAll(w, t, sent), fingerprint, issued), list)
    ensures RowsAre(w, fingerprint, issued, AllAsSent(list),
                    IssuedLast(w, t, sent, fingerprint, issued, list, now), instance, day)
  {
    hide StoredIs, IsIssued, NeverFull, IsPendingList, PendingIs, NotIssuedYet, NothingPending, Increasing, RowsAre;
    var u := ReceiveAll(w, t, sent);
    PendingAfterAll(w, t, sent, fingerprint, issued);
    ReceiveAllIsOfOthers(w, t, sent, fingerprint, issued);
    RecordKeepsTheRest(w, u, fingerprint, issued, sent);
    NoRowsYet(w, fingerprint, issued, u, instance, day);
    var v := Record(u, fingerprint, issued);
    ListedInstances(w, fingerprint, sent, v, list);
    RowsAfterPromoteAll(w, v, list, fingerprint, issued, now, InstancesIn(w, fingerprint, sent), instance, day);
  }

  // What is known of an instance is the same exactly when its greatest day came after the first
  // reports of its other days, and the kind of installation is one its news told.
  lemma SameInstanceRow(
    w: World, t: Tables, sent: seq<Sent>, fingerprint: string, issued: License, list: seq<Listed>, now: int,
    instance: string)
    requires Comparable(w, t, sent, fingerprint, issued, list)
    requires NeverMasked(w, fingerprint, issued, sent, instance)
    ensures var own := Own(w, fingerprint, issued, sent, instance);
            Lookup(IssuedLast(w, t, sent, fingerprint, issued, list, now).instances, (issued.id, instance)) ==
            Lookup(IssuedFirst(w, t, sent, fingerprint, issued).instances, (issued.id, instance))
            <==> GreatestDayCameLast(own) && KindIsNews(own)
  {
    RowsWhenFirst(w, t, sent, fingerprint, issued, list, instance, 0);
    RowsWhenLast(w, t, sent, fingerprint, issued, list, now, instance, 0);
    hide Comparable, NeverMasked, ListOf, IssuedLast, IssuedFirst, GreatestDayCameLast, KindIsNews, ByDay;
    PromotedByDay(w, fingerprint, issued, sent, Record(ReceiveAll(w, t, sent), fingerprint, issued), list, instance);
    SameInstance(Own(w, fingerprint, issued, sent, instance), Own(w, fingerprint, issued, AllAsSent(list), instance));
  }

  // ---- The row of a day ----

  // A report that verifies, of another document than the first that does, was the first under its seal.
  ghost predicate NoConflictMasked(
    w: World, fingerprint: string, issued: License, sent: seq<Sent>, instance: string, day: int)
  {
    forall j, k ::
      FirstSound(w, fingerprint, issued, sent, j, instance, day) && 0 <= k < |sent|
      && SoundFor(w, fingerprint, issued, sent[k], instance, day) && sent[k].document != sent[j].document
      ==> Unmasked(w, fingerprint, sent, k)
  }

  lemma {:induction false} OfDayAre(rs: seq<Report>, key: ReportKey)
    ensures forall r :: r in OfDay(rs, key) <==> r in rs && KeyOfReport(r) == key
  {
    if rs != [] {
      OfDayAre(rs[..|rs| - 1], key);
      assert rs == rs[..|rs| - 1] + [rs[|rs| - 1]];
    }
  }

  lemma {:induction false} OfDayByReception(rs: seq<Report>, key: ReportKey)
    requires InOrderOfReception(rs) || InOrderOfDays(rs)
    ensures InOrderOfReception(OfDay(rs, key))
  {
    if rs == [] {
      assert OfDay(rs, key) == [];
    } else {
      var before, last := rs[..|rs| - 1], rs[|rs| - 1];
      OfDayAre(before, key);
      OfDayByReception(before, key);
      if KeyOfReport(last) == key {
        var some := OfDay(before, key);
        forall k | 0 <= k < |some| ensures some[k].receivedAt < last.receivedAt {
          assert some[k] in some && some[k] in before;
          var j :| 0 <= j < |before| && rs[j] == some[k];
        }
        OneMoreReception(some, last);
      }
    }
  }

  // The reports of the day, received or promoted.
  ghost function DayOf(
    w: World, fingerprint: string, issued: License, sent: seq<Sent>, instance: string, day: int): seq<Report>
  {
    OfDay(Own(w, fingerprint, issued, sent, instance), (issued.id, instance, day))
  }

  lemma DayBefore(
    w: World, fingerprint: string, issued: License, sent: seq<Sent>, instance: string, day: int, r: Report)
    returns (j: int)
    requires r in DayOf(w, fingerprint, issued, sent, instance, day)
    ensures 0 <= j < |sent| && SoundFor(w, fingerprint, issued, sent[j], instance, day)
    ensures r.receivedAt == sent[j].at && r.document == sent[j].document
    ensures r in Own(w, fingerprint, issued, sent, instance)
    ensures IsOwn(w, fingerprint, issued, sent[j], instance) && SoundReport(w, issued, sent[j]) == r
  {
    hide IsOwn, SoundReport, SoundFor;
    OfDayAre(Own(w, fingerprint, issued, sent, instance), (issued.id, instance, day));
    j := OwnBefore(w, fingerprint, issued, sent, instance, r);
  }

  lemma DayIfSound(
    w: World, fingerprint: string, issued: License, sent: seq<Sent>, instance: string, day: int, j: int)
    returns (r: Report)
    requires 0 <= j < |sent| && SoundFor(w, fingerprint, issued, sent[j], instance, day)
    ensures r in DayOf(w, fingerprint, issued, sent, instance, day)
    ensures r.receivedAt == sent[j].at && r.document == sent[j].document
    ensures IsOwn(w, fingerprint, issued, sent[j], instance) && SoundReport(w, issued, sent[j]) == r
  {
    hide IsOwn, SoundReport, SoundFor;
    r := OwnIfSound(w, fingerprint, issued, sent, instance, day, j);
    OwnIsSound(w, fingerprint, issued, sent[j], instance, day);
    OfDayAre(Own(w, fingerprint, issued, sent, instance), (issued.id, instance, day));
  }

  lemma FirstOfTheDay(
    w: World, fingerprint: string, issued: License, sent: seq<Sent>, instance: string, day: int) returns (j: int)
    requires Increasing(sent) && DayOf(w, fingerprint, issued, sent, instance, day) != []
    ensures FirstSound(w, fingerprint, issued, sent, j, instance, day) && 0 <= j < |sent|
    ensures IsOwn(w, fingerprint, issued, sent[j], instance)
    ensures DayOf(w, fingerprint, issued, sent, instance, day)[0] == SoundReport(w, issued, sent[j])
    ensures DayOf(w, fingerprint, issued, sent, instance, day)[0].document == sent[j].document
  {
    hide IsOwn, SoundReport, SoundFor, DayOf;
    var rs := DayOf(w, fingerprint, issued, sent, instance, day);
    DayByReception(w, fingerprint, issued, sent, instance, day);
    j := DayBefore(w, fingerprint, issued, sent, instance, day, rs[0]);
    forall m | 0 <= m < j ensures !SoundFor(w, fingerprint, issued, sent[m], instance, day) {
      if SoundFor(w, fingerprint, issued, sent[m], instance, day) {
        var q := DayIfSound(w, fingerprint, issued, sent, instance, day, m);
        HeadIsEarliest(rs, q);
        assert false;
      }
    }
  }

  lemma HeadIsEarliest(rs: seq<Report>, q: Report)
    requires InOrderOfReception(rs) && q in rs
    ensures rs[0].receivedAt <= q.receivedAt
  {
    var n :| 0 <= n < |rs| && rs[n] == q;
  }

  lemma DayByReception(
    w: World, fingerprint: string, issued: License, sent: seq<Sent>, instance: string, day: int)
    requires Increasing(sent)
    ensures InOrderOfReception(DayOf(w, fingerprint, issued, sent, instance, day))
  {
    hide InOrderOfReception;
    OwnByReception(w, fingerprint, issued, sent, instance);
    OfDayByReception(Own(w, fingerprint, issued, sent, instance), (issued.id, instance, day));
  }

  lemma DayIsListed(
    w: World, fingerprint: string, issued: License, sent: seq<Sent>, t: Tables, list: seq<Listed>,
    instance: string, day: int, k: int)
    requires ListOf(w, fingerprint, sent, t, list)
    requires 0 <= k < |sent| && SoundFor(w, fingerprint, issued, sent[k], instance, day)
    ensures IsOwn(w, fingerprint, issued, sent[k], instance)
    ensures SoundReport(w, issued, sent[k]) in DayOf(w, fingerprint, issued, AllAsSent(list), instance, day)
            <==> Unmasked(w, fingerprint, sent, k)
  {
    hide IsOwn, SoundReport, SoundFor, Unmasked, PendingIs, IsPendingList;
    OwnIsSound(w, fingerprint, issued, sent[k], instance, day);
    OfDayAre(Own(w, fingerprint, issued, AllAsSent(list), instance), (issued.id, instance, day));
    var r := SoundReport(w, issued, sent[k]);
    if Unmasked(w, fingerprint, sent, k) {
      UnmaskedSoundIsListed(w, fingerprint, issued, sent, t, list, instance, day, k);
    }
    if r in Own(w, fingerprint, issued, AllAsSent(list), instance) {
      var j := ListedIsUnmasked(w, fingerprint, issued, sent, t, list, instance, r);
      assert j == k;
    }
  }

  lemma SomeArePromoted(
    w: World, fingerprint: string, issued: License, sent: seq<Sent>, t: Tables, list: seq<Listed>,
    instance: string, day: int)
    requires ListOf(w, fingerprint, sent, t, list) && NotMasked(w, fingerprint, issued, sent, instance, day)
    ensures SomeOfTheDay(DayOf(w, fingerprint, issued, sent, instance, day),
                         DayOf(w, fingerprint, issued, AllAsSent(list), instance, day))
  {
    ListIsByDay(w, fingerprint, issued, sent, t, list, instance);
    DayByReception(w, fingerprint, issued, sent, instance, day);
    hide IsOwn, SoundReport, SoundFor, Unmasked, PendingIs, IsPendingList, InOrderOfReception, InOrderOfDays, Own,
         Increasing;
    OfDayByReception(Own(w, fingerprint, issued, AllAsSent(list), instance), (issued.id, instance, day));
    OfDayAre(Own(w, fingerprint, issued, AllAsSent(list), instance), (issued.id, instance, day));
    OfDayAre(Own(w, fingerprint, issued, sent, instance), (issued.id, instance, day));
    var rs := DayOf(w, fingerprint, issued, sent, instance, day);
    var some := DayOf(w, fingerprint, issued, AllAsSent(list), instance, day);
    forall r | r in some ensures r in rs {
      var _ := ListedIsUnmasked(w, fingerprint, issued, sent, t, list, instance, r);
    }
    if rs != [] {
      var j := FirstOfTheDay(w, fingerprint, issued, sent, instance, day);
      FirstIsSound(w, fingerprint, issued, sent, j, instance, day);
      DayIsListed(w, fingerprint, issued, sent, t, list, instance, day, j);
    }
  }

  lemma FirstIsSound(
    w: World, fingerprint: string, issued: License, sent: seq<Sent>, j: int, instance: string, day: int)
    requires FirstSound(w, fingerprint, issued, sent, j, instance, day)
    ensures 0 <= j < |sent| && SoundFor(w, fingerprint, issued, sent[j], instance, day)
    ensures forall i :: FirstSound(w, fingerprint, issued, sent, i, instance, day) ==> i == j
  {
    hide SoundFor;
  }

  lemma ConflictsLeftOut(
    w: World, fingerprint: string, issued: License, sent: seq<Sent>, t: Tables, list: seq<Listed>,
    instance: string, day: int)
    requires ListOf(w, fingerprint, sent, t, list)
    ensures NoConflictLeftOut(DayOf(w, fingerprint, issued, sent, instance, day),
                              DayOf(w, fingerprint, issued, AllAsSent(list), instance, day))
            <==> NoConflictMasked(w, fingerprint, issued, sent, instance, day)
  {
    hide IsOwn, SoundReport, SoundFor, Unmasked, PendingIs, IsPendingList, Increasing, DayOf;
    var rs := DayOf(w, fingerprint, issued, sent, instance, day);
    var some := DayOf(w, fingerprint, issued, AllAsSent(list), instance, day);
    if NoConflictMasked(w, fingerprint, issued, sent, instance, day) {
      forall r | r in rs && r.document != rs[0].document ensures r in some {
        var j := FirstOfTheDay(w, fingerprint, issued, sent, instance, day);
        var k := DayBefore(w, fingerprint, issued, sent, instance, day, r);
        DayIsListed(w, fingerprint, issued, sent, t, list, instance, day, k);
      }
    }
    if NoConflictLeftOut(rs, some) {
      forall j, k | FirstSound(w, fingerprint, issued, sent, j, instance, day) && 0 <= k < |sent|
                    && SoundFor(w, fingerprint, issued, sent[k], instance, day)
                    && sent[k].document != sent[j].document
        ensures Unmasked(w, fingerprint, sent, k)
      {
        var r := DayIfSound(w, fingerprint, issued, sent, instance, day, k);
        var i := FirstOfTheDay(w, fingerprint, issued, sent, instance, day);
        FirstIsSound(w, fingerprint, issued, sent, j, instance, day);
        DayIsListed(w, fingerprint, issued, sent, t, list, instance, day, k);
      }
    }
  }

  lemma EqualIsSame(a: Tables, b: Tables, k: ReportKey)
    ensures Lookup(a.reports, k) == Lookup(b.reports, k) ==> SameRow(a, b, k)
  {
  }

  lemma SameDayRowUnmasked(
    w: World, fingerprint: string, issued: License, sent: seq<Sent>, t: Tables, list: seq<Listed>,
    instance: string, day: int)
    requires ListOf(w, fingerprint, sent, t, list) && NotMasked(w, fingerprint, issued, sent, instance, day)
    ensures DayAfter(DayOf(w, fingerprint, issued, AllAsSent(list), instance, day)) ==
            DayAfter(DayOf(w, fingerprint, issued, sent, instance, day))
            <==> NoConflictMasked(w, fingerprint, issued, sent, instance, day)
  {
    hide ListOf, NoConflictMasked, NoConflictLeftOut, NotMasked, SomeOfTheDay;
    SomeArePromoted(w, fingerprint, issued, sent, t, list, instance, day);
    SameDay(DayOf(w, fingerprint, issued, sent, instance, day),
            DayOf(w, fingerprint, issued, AllAsSent(list), instance, day));
    ConflictsLeftOut(w, fingerprint, issued, sent, t, list, instance, day);
  }

  // The whole row of a day is the same, the conflicts counted and the last of them included, exactly when
  // neither its first sound report nor a sound report of another document is masked.
  lemma SameDayRow(
    w: World, t: Tables, sent: seq<Sent>, fingerprint: string, issued: License, list: seq<Listed>, now: int,
    instance: string, day: int)
    requires Comparable(w, t, sent, fingerprint, issued, list)
    ensures Lookup(IssuedLast(w, t, sent, fingerprint, issued, list, now).reports, (issued.id, instance, day)) ==
            Lookup(IssuedFirst(w, t, sent, fingerprint, issued).reports, (issued.id, instance, day))
            <==> NotMasked(w, fingerprint, issued, sent, instance, day)
                 && NoConflictMasked(w, fingerprint, issued, sent, instance, day)
  {
    RowsWhenFirst(w, t, sent, fingerprint, issued, list, instance, day);
    RowsWhenLast(w, t, sent, fingerprint, issued, list, now, instance, day);
    PromotedAsReceived(w, t, sent, fingerprint, issued, list, now, instance, day);
    hide Comparable, ListOf, IssuedLast, IssuedFirst, NoConflictMasked, NotMasked, Lookup, SameRow;
    if NotMasked(w, fingerprint, issued, sent, instance, day) {
      SameDayRowUnmasked(w, fingerprint, issued, sent, Record(ReceiveAll(w, t, sent), fingerprint, issued), list,
                         instance, day);
    } else {
      EqualIsSame(IssuedLast(w, t, sent, fingerprint, issued, list, now), IssuedFirst(w, t, sent, fingerprint, issued),
                  (issued.id, instance, day));
    }
  }

  // ---- A run that leaves other rows ----

  const HEX_B: string := seq(64, _ => 'b')

  // Every document is sealed, and of the same instance; one is of the day before.
  function LateWorld(): World {
    World(document => Some(Told(if document == "late" then -1 else 0, HEX, "license", "instance", document, None)),
          (key, document, seal) => true,
          id => id)
  }

  // A report of day 0, two of another document for that day, and one of the day before.
  const FIRST := Sent("first", HEX, HEX, 0)
  const OTHER := Sent("other", HEX_B, HEX, 1)
  const AGAIN := Sent("other", HEX_B, HEX, 2)
  const LATE := Sent("late", HEX, HEX, 3)
  const RUN := [FIRST, OTHER, AGAIN, LATE]

  const FIRST_KEY := PendingKey(HEX, "instance", 0, HEX)
  const OTHER_KEY := PendingKey(HEX, "instance", 0, HEX_B)
  const LATE_KEY := PendingKey(HEX, "instance", -1, HEX)
  const FIRST_ROWS := map[FIRST_KEY := PendingRow("first", 0)]
  const OTHER_ROWS := FIRST_ROWS[OTHER_KEY := PendingRow("other", 1)]
  const LATE_ROWS := OTHER_ROWS[LATE_KEY := PendingRow("late", 3)]
  const RUN_LIST := [
    Listed(LATE_KEY, PendingRow("late", 3)), Listed(FIRST_KEY, PendingRow("first", 0)),
    Listed(OTHER_KEY, PendingRow("other", 1))]

  lemma SealsAreShaped()
    ensures HexShaped(HEX) && HexShaped(HEX_B) && HEX != HEX_B
  {
    assert HEX[0] != HEX_B[0];
  }

  function With(pending: map<PendingKey, PendingRow>): Tables {
    NO_ROWS.(pending := pending)
  }

  lemma KeptAsSent(pending: map<PendingKey, PendingRow>, s: Sent, key: PendingKey)
    requires IsFor(LateWorld(), HEX, s, key) && |pending| < 100
    ensures Receive(LateWorld(), With(pending), s) ==
            (With(if key in pending then pending else pending[key := PendingRow(s.document, s.at)]), Pending)
  {
    hide HexShaped, Read, Says;
    SubsetIsSmaller(PendingOf(pending, HEX), pending.Keys);
    assert |pending| == |pending.Keys|;
  }

  lemma RunIsRead()
    ensures var w := LateWorld();
            && IsFor(w, HEX, FIRST, FIRST_KEY) && IsFor(w, HEX, OTHER, OTHER_KEY)
            && IsFor(w, HEX, AGAIN, OTHER_KEY) && IsFor(w, HEX, LATE, LATE_KEY)
    ensures FIRST_KEY != OTHER_KEY
  {
    SealsAreShaped();
    hide HexShaped;
  }

  lemma RunIsSound()
    ensures var w := LateWorld();
            && SoundFor(w, HEX, EXAMPLE_LICENSE, FIRST, "instance", 0)
            && SoundFor(w, HEX, EXAMPLE_LICENSE, OTHER, "instance", 0)
            && SoundFor(w, HEX, EXAMPLE_LICENSE, AGAIN, "instance", 0)
            && SoundFor(w, HEX, EXAMPLE_LICENSE, LATE, "instance", -1)
  {
    SealsAreShaped();
    hide HexShaped;
  }

  lemma ReceivesTheRun()
    ensures var w := LateWorld();
            && Receive(w, NO_ROWS, FIRST) == (With(FIRST_ROWS), Pending)
            && Receive(w, With(FIRST_ROWS), OTHER) == (With(OTHER_ROWS), Pending)
            && Receive(w, With(OTHER_ROWS), AGAIN) == (With(OTHER_ROWS), Pending)
            && Receive(w, With(OTHER_ROWS), LATE) == (With(LATE_ROWS), Pending)
  {
    RunIsRead();
    hide Receive, IsFor;
    KeptAsSent(map[], FIRST, FIRST_KEY);
    KeptAsSent(FIRST_ROWS, OTHER, OTHER_KEY);
    KeptAsSent(OTHER_ROWS, AGAIN, OTHER_KEY);
    KeptAsSent(OTHER_ROWS, LATE, LATE_KEY);
  }

  lemma ReceivesAllTheRun()
    ensures var w := LateWorld();
            && ReceiveAll(w, NO_ROWS, RUN[..0]) == NO_ROWS
            && ReceiveAll(w, NO_ROWS, RUN[..1]) == With(FIRST_ROWS)
            && ReceiveAll(w, NO_ROWS, RUN[..2]) == With(OTHER_ROWS)
            && ReceiveAll(w, NO_ROWS, RUN[..3]) == With(OTHER_ROWS)
            && ReceiveAll(w, NO_ROWS, RUN) == With(LATE_ROWS)
  {
    ReceivesTheRun();
    hide Receive;
    assert RUN[..1][..0] == RUN[..0] && RUN[..2][..1] == RUN[..1] && RUN[..3][..2] == RUN[..2];
  }

  lemma RunIsNeverFull()
    ensures NeverFull(LateWorld(), NO_ROWS, RUN, HEX)
  {
    ReceivesTheRun();
    ReceivesAllTheRun();
    hide Receive, ReceiveAll;
  }

  lemma RunIsListed()
    ensures IsPendingList(Record(With(LATE_ROWS), HEX, EXAMPLE_LICENSE), HEX, RUN_LIST)
  {
    SealsAreShaped();
    hide HexShaped;
    assert RUN_LIST[0].key == LATE_KEY && RUN_LIST[1].key == FIRST_KEY && RUN_LIST[2].key == OTHER_KEY;
    forall k | k in LATE_ROWS ensures IsListed(RUN_LIST, k) {
    }
  }

  lemma RunIsComparable()
    ensures Comparable(LateWorld(), NO_ROWS, RUN, HEX, EXAMPLE_LICENSE, RUN_LIST)
  {
    ReceivesAllTheRun();
    RunIsNeverFull();
    RunIsListed();
    RunIsRead();
    hide Receive, ReceiveAll, HexShaped, NeverFull, IsPendingList;
    assert InstancesIn(LateWorld(), HEX, RUN) <= {"instance"};
    SubsetIsSmaller(InstancesIn(LateWorld(), HEX, RUN), {"instance"});
  }

  lemma RunIsUnmasked()
    ensures var w := LateWorld();
            && Unmasked(w, HEX, RUN, 0) && Unmasked(w, HEX, RUN, 1) && !Unmasked(w, HEX, RUN, 2)
            && Unmasked(w, HEX, RUN, 3)
  {
    RunIsRead();
    hide HexShaped, Admitted;
    assert RUN[0] == FIRST && RUN[1] == OTHER && RUN[2] == AGAIN && RUN[3] == LATE;
  }

  lemma RunIsNeverMasked()
    ensures NeverMasked(LateWorld(), HEX, EXAMPLE_LICENSE, RUN, "instance")
  {
    RunIsUnmasked();
    RunIsSound();
    hide Unmasked, SoundFor;
    assert RUN[1] == OTHER && RUN[2] == AGAIN;
    forall day, k | FirstSound(LateWorld(), HEX, EXAMPLE_LICENSE, RUN, k, "instance", day)
      ensures Unmasked(LateWorld(), HEX, RUN, k)
    {
      if k == 2 {
        OneDay(OTHER, AGAIN, day);
        assert false;
      }
    }
  }

  lemma OneDay(s: Sent, again: Sent, day: int)
    requires s.document == again.document && s.seal == again.seal && s.fingerprint == again.fingerprint
    requires 0 <= s.at < 10 && 0 <= again.at < 10
    requires SoundFor(LateWorld(), HEX, EXAMPLE_LICENSE, again, "instance", day)
    ensures SoundFor(LateWorld(), HEX, EXAMPLE_LICENSE, s, "instance", day)
  {
    hide HexShaped;
  }

  function RunReport(document: string, day: int, seal: string, at: int): Report {
    Report("license", "instance", day, document, seal, document, None, at)
  }

  const RUN_REPORTS := [
    RunReport("first", 0, HEX, 0), RunReport("other", 0, HEX_B, 1), RunReport("other", 0, HEX_B, 2),
    RunReport("late", -1, HEX, 3)]

  lemma RunIsOwn(s: Sent)
    requires s in RUN
    ensures IsOwn(LateWorld(), HEX, EXAMPLE_LICENSE, s, "instance")
    ensures SoundReport(LateWorld(), EXAMPLE_LICENSE, s) ==
            RunReport(s.document, if s.document == "late" then -1 else 0, s.seal, s.at)
  {
    SealsAreShaped();
    hide HexShaped;
  }

  lemma RunOwns()
    ensures Own(LateWorld(), HEX, EXAMPLE_LICENSE, RUN, "instance") == RUN_REPORTS
  {
    hide IsOwn, SoundReport;
    forall s | s in RUN
      ensures IsOwn(LateWorld(), HEX, EXAMPLE_LICENSE, s, "instance")
      ensures SoundReport(LateWorld(), EXAMPLE_LICENSE, s) ==
              RunReport(s.document, if s.document == "late" then -1 else 0, s.seal, s.at)
    {
      RunIsOwn(s);
    }
    var w := LateWorld();
    assert RUN[..3] == [FIRST, OTHER, AGAIN] && [FIRST, OTHER, AGAIN][..2] == [FIRST, OTHER];
    assert [FIRST, OTHER][..1] == [FIRST] && [FIRST][..0] == [];
    assert Own(w, HEX, EXAMPLE_LICENSE, [FIRST], "instance") == RUN_REPORTS[..1];
    assert Own(w, HEX, EXAMPLE_LICENSE, [FIRST, OTHER], "instance") == RUN_REPORTS[..2];
    assert Own(w, HEX, EXAMPLE_LICENSE, [FIRST, OTHER, AGAIN], "instance") == RUN_REPORTS[..3];
  }

  lemma GreatestDayCameFirst()
    ensures !GreatestDayCameLast(RUN_REPORTS)
  {
    assert IsLastNews(RUN_REPORTS, 0) && IsFirstOfItsDay(RUN_REPORTS, 3);
  }

  // Day -1 received after day 0: the instance is last seen later when the license is issued last. A report
  // of another document received twice counts twice when it is issued first, and once when last.
  lemma TheOrderIsSeen(now: int)
    ensures var a := IssuedLast(LateWorld(), NO_ROWS, RUN, HEX, EXAMPLE_LICENSE, RUN_LIST, now);
            var b := IssuedFirst(LateWorld(), NO_ROWS, RUN, HEX, EXAMPLE_LICENSE);
            && Lookup(a.instances, ("license", "instance")) != Lookup(b.instances, ("license", "instance"))
            && Lookup(a.reports, ("license", "instance", 0)) != Lookup(b.reports, ("license", "instance", 0))
  {
    var w := LateWorld();
    RunIsComparable();
    RunIsNeverMasked();
    RunOwns();
    GreatestDayCameFirst();
    RunIsUnmasked();
    RunIsSound();
    hide Comparable, NeverMasked, IssuedLast, IssuedFirst, Own, GreatestDayCameLast, KindIsNews, Unmasked, SoundFor,
         Lookup;
    SameInstanceRow(w, NO_ROWS, RUN, HEX, EXAMPLE_LICENSE, RUN_LIST, now, "instance");
    SameDayRow(w, NO_ROWS, RUN, HEX, EXAMPLE_LICENSE, RUN_LIST, now, "instance", 0);
    assert FirstSound(w, HEX, EXAMPLE_LICENSE, RUN, 0, "instance", 0);
    assert RUN[2].document != RUN[0].document;
  }
}
