// Reports received before their license is issued, and promoted once it is, leave the reports that
// receiving them after would have left; exactly when no report that verifies stands behind another,
// received first under the same instance, day and seal, that does not.
module Promotion {
  import opened Wrappers
  import opened Sets
  import opened Reports
  import opened Intake
  import opened PendingReports
  import opened StoredReports
  import opened ListedReports
  import opened OtherLicenses

  // Issuing the license after its reports came, and promoting them, leaves of an instance and day
  // what issuing it first would have left, exactly when the first report that verifies is not
  // masked by one received before it under the same seal.
  lemma PromotedAsReceived(
    w: World, t: Tables, sent: seq<Sent>, fingerprint: string, issued: License, list: seq<Listed>, now: int,
    instance: string, day: int)
    requires Comparable(w, t, sent, fingerprint, issued, list)
    ensures SameRow(IssuedLast(w, t, sent, fingerprint, issued, list, now),
                    IssuedFirst(w, t, sent, fingerprint, issued), (issued.id, instance, day))
            <==> NotMasked(w, fingerprint, issued, sent, instance, day)
  {
    FirstStored(w, t, sent, fingerprint, issued, list);
    LastStored(w, t, sent, fingerprint, issued, list, now);
    var v := Record(ReceiveAll(w, t, sent), fingerprint, issued);
    var a := IssuedLast(w, t, sent, fingerprint, issued, list, now);
    var b := IssuedFirst(w, t, sent, fingerprint, issued);
    hide PendingIs, IsPendingList, Increasing, FirstSound, Unmasked, IssuedLast, IssuedFirst, SameRow, NeverFull,
         StoredAt, NotIssuedYet, NothingPending;
    if NotMasked(w, fingerprint, issued, sent, instance, day) {
      SameWhenNotMasked(w, fingerprint, issued, sent, v, list, a, b, instance, day);
    } else {
      var k :| FirstSound(w, fingerprint, issued, sent, k, instance, day) && !Unmasked(w, fingerprint, sent, k);
      AnotherWhenMasked(w, fingerprint, issued, sent, v, list, a, b, k, instance, day);
    }
  }

  // ---- When equal seals carry equal documents ----

  ghost predicate SealsTellDocuments(w: World, fingerprint: string, sent: seq<Sent>) {
    forall j, k ::
      0 <= j < k < |sent| && Admitted(w, fingerprint, sent[j]) && Admitted(w, fingerprint, sent[k])
      && KeyOf(w, sent[j]) == KeyOf(w, sent[k])
      ==> sent[j].document == sent[k].document
  }

  lemma NotMaskedBySeals(
    w: World, fingerprint: string, issued: License, sent: seq<Sent>, instance: string, day: int)
    requires SealsTellDocuments(w, fingerprint, sent)
    ensures NotMasked(w, fingerprint, issued, sent, instance, day)
  {
    forall k | FirstSound(w, fingerprint, issued, sent, k, instance, day) ensures Unmasked(w, fingerprint, sent, k) {
      forall m | 0 <= m < k ensures !IsFor(w, fingerprint, sent[m], KeyOf(w, sent[k])) {
        if IsFor(w, fingerprint, sent[m], KeyOf(w, sent[k])) {
          SameSealIsSound(w, fingerprint, issued, sent[m], sent[k], instance, day);
        }
      }
    }
  }

  lemma SameSealIsSound(
    w: World, fingerprint: string, issued: License, s: Sent, other: Sent, instance: string, day: int)
    requires SoundFor(w, fingerprint, issued, other, instance, day)
    requires IsFor(w, fingerprint, s, KeyOf(w, other)) && s.document == other.document
    ensures SoundFor(w, fingerprint, issued, s, instance, day)
  {
    hide HexShaped;
  }

  // With seals that tell documents, every report of every license is the same.
  lemma SameForEveryReport(
    w: World, t: Tables, sent: seq<Sent>, fingerprint: string, issued: License, list: seq<Listed>, now: int,
    k: ReportKey)
    requires Comparable(w, t, sent, fingerprint, issued, list) && SealsTellDocuments(w, fingerprint, sent)
    ensures SameRow(IssuedLast(w, t, sent, fingerprint, issued, list, now),
                    IssuedFirst(w, t, sent, fingerprint, issued), k)
  {
    if k.0 == issued.id {
      NotMaskedBySeals(w, fingerprint, issued, sent, k.1, k.2);
      hide Comparable, IssuedLast, IssuedFirst, SameRow, NotMasked, SealsTellDocuments;
      PromotedAsReceived(w, t, sent, fingerprint, issued, list, now, k.1, k.2);
      assert k == (issued.id, k.1, k.2);
    } else {
      SameForOtherLicenses(w, t, sent, fingerprint, issued, list, now, k);
      hide Comparable, IssuedLast, IssuedFirst;
    }
  }

  // ---- Nothing stays pending ----

  lemma PromoteRemoves(w: World, t: Tables, issued: License, p: Listed, now: int)
    ensures Promote(w, t, issued, p, now).0.pending == t.pending - {p.key}
  {
    hide Promote, Stands, StoreReport;
    PromoteApplies(w, t, issued, p, now);
  }

  // Each report listed is stored or discarded, and is pending no longer; no other is touched.
  lemma {:induction false} PromoteAllRemoves(w: World, t: Tables, issued: License, list: seq<Listed>, now: int)
    ensures var (after, stored, discarded) := PromoteAll(w, t, issued, list, now);
            && stored + discarded == |list|
            && (forall k :: k in after.pending <==> k in t.pending && !IsListed(list, k))
  {
    if list != [] {
      var before, last := list[..|list| - 1], list[|list| - 1];
      hide Promote;
      PromoteAllRemoves(w, t, issued, before, now);
      PromoteRemoves(w, PromoteAll(w, t, issued, before, now).0, issued, last, now);
      forall k ensures IsListed(list, k) <==> IsListed(before, k) || k == last.key {
        ListedOneMore(list, k);
      }
    }
  }

  // Each report of the list is promoted in turn: one that is kept is counted as stored, and one that is not
  // as discarded.
  lemma OneMorePromoted(w: World, t: Tables, issued: License, list: seq<Listed>, p: Listed, now: int)
    ensures var (before, stored, discarded) := PromoteAll(w, t, issued, list, now);
            var (after, storedAfter, discardedAfter) := PromoteAll(w, t, issued, list + [p], now);
            var (promoted, kept) := Promote(w, before, issued, p, now);
            && after == promoted && storedAfter == stored + (if kept then 1 else 0)
            && discardedAfter == discarded + if kept then 0 else 1
  {
    hide Promote;
    assert (list + [p])[..|list|] == list;
  }

  lemma ListedOneMore(list: seq<Listed>, k: PendingKey)
    requires list != []
    ensures IsListed(list, k) <==> IsListed(list[..|list| - 1], k) || k == list[|list| - 1].key
  {
    if IsListed(list[..|list| - 1], k) {
      var n :| 0 <= n < |list| - 1 && list[..|list| - 1][n].key == k;
      assert list[n].key == k;
    }
    if n :| 0 <= n < |list| && list[n].key == k {
      assert n < |list| - 1 ==> list[..|list| - 1][n].key == k;
    }
  }

  // ---- A report that is masked ----

  const HEX: string := seq(64, _ => 'a')

  // Any document is of the same day and instance; only one is sealed.
  function ExampleWorld(): World {
    World(document => Some(Told(0, HEX, "license", "instance", "version", None)),
          (key, document, seal) => document == "sealed",
          id => id)
  }

  const EXAMPLE_LICENSE := License("license", "key")
  const ALTERED := Sent("altered", HEX, HEX, 0)
  const SEALED := Sent("sealed", HEX, HEX, 1)
  const EXAMPLE_KEY := PendingKey(HEX, "instance", 0, HEX)

  lemma HexIsShaped()
    ensures HexShaped(HEX)
  {
  }

  const NO_ROWS := Tables(map[], map[], map[], map[], map[])
  const EXAMPLE_LIST := [Listed(EXAMPLE_KEY, PendingRow("altered", 0))]

  lemma ExamplesAreRead()
    ensures var w := ExampleWorld();
            && IsFor(w, HEX, ALTERED, EXAMPLE_KEY) && IsFor(w, HEX, SEALED, EXAMPLE_KEY)
            && !SoundFor(w, HEX, EXAMPLE_LICENSE, ALTERED, "instance", 0)
            && SoundFor(w, HEX, EXAMPLE_LICENSE, SEALED, "instance", 0)
  {
    HexIsShaped();
    hide HexShaped;
  }

  lemma ReceivesTheExamples()
    ensures var w := ExampleWorld();
            var one := NO_ROWS.(pending := map[EXAMPLE_KEY := PendingRow("altered", 0)]);
            && Receive(w, NO_ROWS, ALTERED) == (one, Pending)
            && Receive(w, one, SEALED) == (one, Pending)
            && ReceiveAll(w, NO_ROWS, [ALTERED, SEALED]) == one
            && ReceiveAll(w, NO_ROWS, [ALTERED]) == one
  {
    HexIsShaped();
    hide HexShaped;
    var w, one := ExampleWorld(), NO_ROWS.(pending := map[EXAMPLE_KEY := PendingRow("altered", 0)]);
    assert PendingOf(NO_ROWS.pending, HEX) == {};
    assert Receive(w, NO_ROWS, ALTERED) == (one, Pending);
    assert Receive(w, one, SEALED) == (one, Pending);
    assert [ALTERED, SEALED][..1] == [ALTERED] && [ALTERED][..0] == [];
    hide Receive;
    assert ReceiveAll(w, NO_ROWS, []) == NO_ROWS;
    assert ReceiveAll(w, NO_ROWS, [ALTERED]) == one;
  }

  lemma ExamplesAreNeverFull()
    ensures NeverFull(ExampleWorld(), NO_ROWS, [ALTERED, SEALED], HEX)
  {
    ReceivesTheExamples();
    hide Receive;
    var sent := [ALTERED, SEALED];
    assert sent[..0] == [] && sent[..1] == [ALTERED];
  }

  lemma ExamplesAreComparable()
    ensures Comparable(ExampleWorld(), NO_ROWS, [ALTERED, SEALED], HEX, EXAMPLE_LICENSE, EXAMPLE_LIST)
  {
    ReceivesTheExamples();
    ExamplesAreNeverFull();
    ExamplesAreRead();
    hide Receive, ReceiveAll, HexShaped, NeverFull;
    var w, sent := ExampleWorld(), [ALTERED, SEALED];
    assert InstancesIn(w, HEX, sent) <= {"instance"};
    SubsetIsSmaller(InstancesIn(w, HEX, sent), {"instance"});
    assert IsListed(EXAMPLE_LIST, EXAMPLE_KEY) by {
      assert EXAMPLE_LIST[0].key == EXAMPLE_KEY;
    }
  }

  // A document received under the seal of another takes its place among the pending reports: the
  // one that verifies is kept if the license is issued first, and not if it is issued last.
  lemma AMaskedReportIsNotPromoted(now: int)
    ensures !SameRow(IssuedLast(ExampleWorld(), NO_ROWS, [ALTERED, SEALED], HEX, EXAMPLE_LICENSE, EXAMPLE_LIST, now),
                     IssuedFirst(ExampleWorld(), NO_ROWS, [ALTERED, SEALED], HEX, EXAMPLE_LICENSE),
                     (EXAMPLE_LICENSE.id, "instance", 0))
  {
    var w, sent := ExampleWorld(), [ALTERED, SEALED];
    ExamplesAreComparable();
    ExamplesAreRead();
    hide Comparable, IssuedLast, IssuedFirst, SameRow, HexShaped, Read, SoundFor;
    PromotedAsReceived(w, NO_ROWS, sent, HEX, EXAMPLE_LICENSE, EXAMPLE_LIST, now, "instance", 0);
    assert IsFor(w, HEX, sent[0], KeyOf(w, sent[1]));
    assert FirstSound(w, HEX, EXAMPLE_LICENSE, sent, 1, "instance", 0);
    assert !Unmasked(w, HEX, sent, 1);
  }
}
