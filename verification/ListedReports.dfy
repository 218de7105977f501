// What a promotion reads, among what was sent: the reports that are not masked, and what is stored of
// them compared with what is stored of them all.
module ListedReports {
  import opened Reports
  import opened Intake
  import opened PendingReports
  import opened StoredReports

  // ---- What is listed, among what was sent ----

  // Report k was received first under its instance, day and seal.
  ghost predicate Unmasked(w: World, fingerprint: string, sent: seq<Sent>, k: int) {
    0 <= k < |sent| && Admitted(w, fingerprint, sent[k]) && FirstFor(w, fingerprint, sent, k, KeyOf(w, sent[k]))
  }

  lemma OriginOfListed(
    w: World, fingerprint: string, sent: seq<Sent>, t: Tables, list: seq<Listed>, n: int) returns (j: int)
    requires PendingIs(w, fingerprint, sent, t) && IsPendingList(t, fingerprint, list) && 0 <= n < |list|
    ensures Unmasked(w, fingerprint, sent, j) && AsSent(list[n]) == sent[j]
    ensures ListedAsRead(w, fingerprint, list[n]) && KeyOf(w, sent[j]) == list[n].key
  {
    hide Admitted, Read;
    var key := list[n].key;
    assert PendingAt(w, fingerprint, sent, t, key);
    j :| FirstFor(w, fingerprint, sent, j, key);
    SentAs(w, fingerprint, sent[j], list[n]);
  }

  lemma SentAs(w: World, fingerprint: string, s: Sent, p: Listed)
    requires IsFor(w, fingerprint, s, p.key) && p.row == PendingRow(s.document, s.at)
    ensures AsSent(p) == s && Admitted(w, fingerprint, s) && ListedAsRead(w, fingerprint, p)
  {
    hide HexShaped, Read;
  }

  lemma UnmaskedIsListed(
    w: World, fingerprint: string, sent: seq<Sent>, t: Tables, list: seq<Listed>, k: int) returns (n: int)
    requires PendingIs(w, fingerprint, sent, t) && IsPendingList(t, fingerprint, list)
    requires Unmasked(w, fingerprint, sent, k)
    ensures 0 <= n < |list| && AsSent(list[n]) == sent[k] && list[n].key == KeyOf(w, sent[k])
  {
    hide Read, HexShaped;
    var key := KeyOf(w, sent[k]);
    assert PendingAt(w, fingerprint, sent, t, key);
    assert IsListed(list, key);
    n :| 0 <= n < |list| && list[n].key == key;
  }

  // ---- The two, compared ----

  // The same document, seal and reception instant, or no report in either.
  ghost predicate SameRow(a: Tables, b: Tables, k: ReportKey) {
    && (k in a.reports <==> k in b.reports)
    && (k in a.reports && k in b.reports ==>
          && a.reports[k].document == b.reports[k].document
          && a.reports[k].seal == b.reports[k].seal
          && a.reports[k].receivedAt == b.reports[k].receivedAt)
  }

  ghost predicate Increasing(sent: seq<Sent>) {
    forall j, k :: 0 <= j < k < |sent| ==> sent[j].at < sent[k].at
  }

  // The first report of an instance and day that verifies was received first under its seal.
  ghost predicate NotMasked(
    w: World, fingerprint: string, issued: License, sent: seq<Sent>, instance: string, day: int)
  {
    forall k :: FirstSound(w, fingerprint, issued, sent, k, instance, day) ==> Unmasked(w, fingerprint, sent, k)
  }

  // What a promotion stores of an instance and day is an unmasked report that verifies.
  lemma PromotedIsUnmasked(
    w: World, fingerprint: string, issued: License, sent: seq<Sent>, t: Tables, list: seq<Listed>,
    m: int, instance: string, day: int) returns (j: int)
    requires PendingIs(w, fingerprint, sent, t) && IsPendingList(t, fingerprint, list)
    requires FirstSound(w, fingerprint, issued, AllAsSent(list), m, instance, day)
    ensures Unmasked(w, fingerprint, sent, j) && AllAsSent(list)[m] == sent[j]
    ensures SoundFor(w, fingerprint, issued, sent[j], instance, day)
    ensures 0 <= m < |list| && list[m].key.instance == instance && list[m].key.day == day
    ensures list[m].row.receivedAt == sent[j].at
  {
    hide IsPendingList, PendingIs, Unmasked;
    j := OriginOfListed(w, fingerprint, sent, t, list, m);
  }

  // An unmasked report that is the first to verify is the one that is promoted.
  lemma UnmaskedIsPromoted(
    w: World, fingerprint: string, issued: License, sent: seq<Sent>, t: Tables, list: seq<Listed>,
    k: int, instance: string, day: int) returns (m: int)
    requires PendingIs(w, fingerprint, sent, t) && IsPendingList(t, fingerprint, list) && Increasing(sent)
    requires FirstSound(w, fingerprint, issued, sent, k, instance, day) && Unmasked(w, fingerprint, sent, k)
    ensures FirstSound(w, fingerprint, issued, AllAsSent(list), m, instance, day)
    ensures AllAsSent(list)[m] == sent[k]
  {
    var n := UnmaskedIsListed(w, fingerprint, sent, t, list, k);
    assert AllAsSent(list)[n] == sent[k];
    m := SomeFirstSound(w, fingerprint, issued, AllAsSent(list), n, instance, day);
    var j := PromotedIsUnmasked(w, fingerprint, issued, sent, t, list, m, instance, day);
    assert k <= j;
    if m < n {
      ListedBefore(t, fingerprint, list, m, n);
      assert list[n].row.receivedAt == sent[k].at;
      hide IsPendingList, PendingIs, FirstSound, SoundFor, Unmasked;
      assert sent[j].at <= sent[k].at;
    }
  }

  lemma ListedBefore(t: Tables, fingerprint: string, list: seq<Listed>, m: int, n: int)
    requires IsPendingList(t, fingerprint, list) && 0 <= m < n < |list|
    ensures list[m].key.day == list[n].key.day && list[m].key.instance == list[n].key.instance ==>
              list[m].row.receivedAt <= list[n].row.receivedAt
  {
    assert InListOrder(list[m], list[n]);
  }

  lemma SoundInListIsSent(
    w: World, fingerprint: string, issued: License, sent: seq<Sent>, t: Tables, list: seq<Listed>,
    instance: string, day: int)
    requires PendingIs(w, fingerprint, sent, t) && IsPendingList(t, fingerprint, list)
    requires exists m :: FirstSound(w, fingerprint, issued, AllAsSent(list), m, instance, day)
    ensures exists k :: FirstSound(w, fingerprint, issued, sent, k, instance, day)
  {
    var m :| FirstSound(w, fingerprint, issued, AllAsSent(list), m, instance, day);
    var j := PromotedIsUnmasked(w, fingerprint, issued, sent, t, list, m, instance, day);
    var k := SomeFirstSound(w, fingerprint, issued, sent, j, instance, day);
  }

  // Not masked: the same row.
  lemma SameWhenNotMasked(
    w: World, fingerprint: string, issued: License, sent: seq<Sent>, t: Tables, list: seq<Listed>,
    a: Tables, b: Tables, instance: string, day: int)
    requires PendingIs(w, fingerprint, sent, t) && IsPendingList(t, fingerprint, list) && Increasing(sent)
    requires StoredAt(w, fingerprint, issued, AllAsSent(list), a, instance, day)
    requires StoredAt(w, fingerprint, issued, sent, b, instance, day)
    requires NotMasked(w, fingerprint, issued, sent, instance, day)
    ensures SameRow(a, b, (issued.id, instance, day))
  {
    hide PendingIs, IsPendingList, Increasing, FirstSound, Unmasked;
    if k :| FirstSound(w, fingerprint, issued, sent, k, instance, day) {
      var m := UnmaskedIsPromoted(w, fingerprint, issued, sent, t, list, k, instance, day);
      InRange(w, fingerprint, issued, sent, k, instance, day);
      InRange(w, fingerprint, issued, AllAsSent(list), m, instance, day);
    } else if exists m :: FirstSound(w, fingerprint, issued, AllAsSent(list), m, instance, day) {
      SoundInListIsSent(w, fingerprint, issued, sent, t, list, instance, day);
    }
  }

  lemma InRange(
    w: World, fingerprint: string, issued: License, sent: seq<Sent>, k: int, instance: string, day: int)
    requires FirstSound(w, fingerprint, issued, sent, k, instance, day)
    ensures 0 <= k < |sent|
  {
  }

  // Masked: another row, or none.
  lemma AnotherWhenMasked(
    w: World, fingerprint: string, issued: License, sent: seq<Sent>, t: Tables, list: seq<Listed>,
    a: Tables, b: Tables, k: int, instance: string, day: int)
    requires PendingIs(w, fingerprint, sent, t) && IsPendingList(t, fingerprint, list) && Increasing(sent)
    requires StoredAt(w, fingerprint, issued, AllAsSent(list), a, instance, day)
    requires StoredAt(w, fingerprint, issued, sent, b, instance, day)
    requires FirstSound(w, fingerprint, issued, sent, k, instance, day) && !Unmasked(w, fingerprint, sent, k)
    ensures !SameRow(a, b, (issued.id, instance, day))
  {
    InRange(w, fingerprint, issued, sent, k, instance, day);
    if m :| FirstSound(w, fingerprint, issued, AllAsSent(list), m, instance, day) {
      var j := PromotedIsUnmasked(w, fingerprint, issued, sent, t, list, m, instance, day);
      assert j != k && sent[j].at != sent[k].at;
      hide PendingIs, IsPendingList, Increasing, FirstSound, Unmasked, SoundFor;
    }
  }

  lemma ListedInstances(w: World, fingerprint: string, sent: seq<Sent>, t: Tables, list: seq<Listed>)
    requires PendingIs(w, fingerprint, sent, t) && IsPendingList(t, fingerprint, list)
    ensures InstancesIn(w, fingerprint, AllAsSent(list)) <= InstancesIn(w, fingerprint, sent)
    ensures forall n :: 0 <= n < |list| ==> ListedAsRead(w, fingerprint, list[n])
  {
    forall n | 0 <= n < |list|
      ensures ListedAsRead(w, fingerprint, list[n])
      ensures Admitted(w, fingerprint, AllAsSent(list)[n])
      ensures KeyOf(w, AllAsSent(list)[n]).instance in InstancesIn(w, fingerprint, sent)
    {
      var j := OriginOfListed(w, fingerprint, sent, t, list, n);
      assert AllAsSent(list)[n] == sent[j];
    }
  }

  // ---- The license issued last, or first ----

  ghost function IssuedLast(
    w: World, t: Tables, sent: seq<Sent>, fingerprint: string, issued: License, list: seq<Listed>, now: int): Tables
  {
    PromoteAll(w, Record(ReceiveAll(w, t, sent), fingerprint, issued), issued, list, now).0
  }

  ghost function IssuedFirst(w: World, t: Tables, sent: seq<Sent>, fingerprint: string, issued: License): Tables {
    ReceiveAll(w, Record(t, fingerprint, issued), sent)
  }

  // What is asked of the reports: received one after the other, none turned away for want of room,
  // and of no more instances than a license may be seen on. The list is the one the promotion reads.
  ghost predicate Comparable(
    w: World, t: Tables, sent: seq<Sent>, fingerprint: string, issued: License, list: seq<Listed>)
  {
    && NotIssuedYet(t, fingerprint, issued) && NothingPending(t, fingerprint)
    && NeverFull(w, t, sent, fingerprint) && Increasing(sent)
    && |InstancesIn(w, fingerprint, sent)| <= INSTANCE_CAP_PER_LICENSE
    && IsPendingList(Record(ReceiveAll(w, t, sent), fingerprint, issued), fingerprint, list)
  }

  lemma RecordKeepsTheRest(
    w: World, t: Tables, fingerprint: string, issued: License, sent: seq<Sent>)
    requires NotIssuedYet(t, fingerprint, issued)
    ensures IsIssued(Record(t, fingerprint, issued), fingerprint, issued)
    ensures StoredIs(w, fingerprint, issued, [], Record(t, fingerprint, issued))
    ensures PendingIs(w, fingerprint, sent, t) ==> PendingIs(w, fingerprint, sent, Record(t, fingerprint, issued))
  {
    NothingStoredYet(w, t, fingerprint, issued);
    hide FirstSound, FirstFor, InstancesIn;
    var u := Record(t, fingerprint, issued);
    forall instance, day ensures StoredAt(w, fingerprint, issued, [], u, instance, day) {
      assert StoredAt(w, fingerprint, issued, [], t, instance, day);
    }
    if PendingIs(w, fingerprint, sent, t) {
      forall key: PendingKey | key.fingerprint == fingerprint ensures PendingAt(w, fingerprint, sent, u, key) {
        assert PendingAt(w, fingerprint, sent, t, key);
      }
    }
  }

  lemma FirstStored(
    w: World, t: Tables, sent: seq<Sent>, fingerprint: string, issued: License, list: seq<Listed>)
    requires Comparable(w, t, sent, fingerprint, issued, list)
    ensures StoredIs(w, fingerprint, issued, sent, IssuedFirst(w, t, sent, fingerprint, issued))
  {
    RecordKeepsTheRest(w, t, fingerprint, issued, sent);
    hide StoredIs, IsIssued, NeverFull, IsPendingList;
    StoredAfterAll(w, Record(t, fingerprint, issued), sent, fingerprint, issued, InstancesIn(w, fingerprint, sent));
  }

  lemma LastStored(
    w: World, t: Tables, sent: seq<Sent>, fingerprint: string, issued: License, list: seq<Listed>, now: int)
    requires Comparable(w, t, sent, fingerprint, issued, list)
    ensures PendingIs(w, fingerprint, sent, Record(ReceiveAll(w, t, sent), fingerprint, issued))
    ensures StoredIs(w, fingerprint, issued, AllAsSent(list), IssuedLast(w, t, sent, fingerprint, issued, list, now))
  {
    hide StoredIs, IsIssued, NeverFull, IsPendingList, PendingIs, NotIssuedYet, NothingPending, Increasing;
    var u := ReceiveAll(w, t, sent);
    PendingAfterAll(w, t, sent, fingerprint, issued);
    ReceiveAllIsOfOthers(w, t, sent, fingerprint, issued);
    RecordKeepsTheRest(w, u, fingerprint, issued, sent);
    var v := Record(u, fingerprint, issued);
    ListedInstances(w, fingerprint, sent, v, list);
    StoredAfterPromoteAll(w, v, list, fingerprint, issued, now, InstancesIn(w, fingerprint, sent));
  }
}
