// The reports of a license that is not issued yet: what is pending is the first received of each
// instance, day and seal.
module PendingReports {
  import opened Wrappers
  import opened Reports
  import opened Intake

  // ---- The reports of a license ----

  // A report of the fingerprint that the intake reads.
  ghost predicate Admitted(w: World, fingerprint: string, s: Sent) {
    && s.fingerprint == fingerprint && HexShaped(fingerprint) && HexShaped(s.seal)
    && Read(w, s.document, s.at).Some? && Read(w, s.document, s.at).value.fingerprint == fingerprint
  }

  ghost function KeyOf(w: World, s: Sent): PendingKey
    requires Read(w, s.document, s.at).Some?
  {
    var told := Read(w, s.document, s.at).value;
    PendingKey(s.fingerprint, told.instance, told.day, s.seal)
  }

  ghost predicate IsFor(w: World, fingerprint: string, s: Sent, key: PendingKey) {
    Admitted(w, fingerprint, s) && KeyOf(w, s) == key
  }

  // The first report received under that instance, day and seal.
  ghost predicate FirstFor(w: World, fingerprint: string, sent: seq<Sent>, j: int, key: PendingKey) {
    && 0 <= j < |sent| && IsFor(w, fingerprint, sent[j], key)
    && (forall m :: 0 <= m < j ==> !IsFor(w, fingerprint, sent[m], key))
  }

  // The report verifies: its seal is the one of its document under the license, which it states.
  ghost predicate SoundFor(w: World, fingerprint: string, issued: License, s: Sent, instance: string, day: int) {
    && Admitted(w, fingerprint, s)
    && KeyOf(w, s).instance == instance && KeyOf(w, s).day == day
    && w.sealed(issued.encoded, s.document, s.seal)
    && Says(w, Read(w, s.document, s.at).value, issued)
  }

  // The first report received of that instance and day that verifies.
  ghost predicate FirstSound(
    w: World, fingerprint: string, issued: License, sent: seq<Sent>, j: int, instance: string, day: int)
  {
    && 0 <= j < |sent| && SoundFor(w, fingerprint, issued, sent[j], instance, day)
    && (forall m :: 0 <= m < j ==> !SoundFor(w, fingerprint, issued, sent[m], instance, day))
  }

  lemma {:induction false} SomeFirstFor(w: World, fingerprint: string, sent: seq<Sent>, m: int, key: PendingKey)
    returns (j: int)
    requires 0 <= m < |sent| && IsFor(w, fingerprint, sent[m], key)
    ensures FirstFor(w, fingerprint, sent, j, key) && j <= m
    decreases m
  {
    j := m;
    if n :| 0 <= n < m && IsFor(w, fingerprint, sent[n], key) {
      j := SomeFirstFor(w, fingerprint, sent, n, key);
    }
  }

  lemma {:induction false} SomeFirstSound(
    w: World, fingerprint: string, issued: License, sent: seq<Sent>, m: int, instance: string, day: int)
    returns (j: int)
    requires 0 <= m < |sent| && SoundFor(w, fingerprint, issued, sent[m], instance, day)
    ensures FirstSound(w, fingerprint, issued, sent, j, instance, day) && j <= m
    decreases m
  {
    j := m;
    if n :| 0 <= n < m && SoundFor(w, fingerprint, issued, sent[n], instance, day) {
      j := SomeFirstSound(w, fingerprint, issued, sent, n, instance, day);
    }
  }

  // ---- What is pending after the reports came ----

  ghost predicate PendingAt(w: World, fingerprint: string, sent: seq<Sent>, t: Tables, key: PendingKey) {
    && (key in t.pending <==> exists j :: FirstFor(w, fingerprint, sent, j, key))
    && (forall j :: FirstFor(w, fingerprint, sent, j, key) ==>
          key in t.pending && t.pending[key] == PendingRow(sent[j].document, sent[j].at))
  }

  // Under each instance, day and seal, the first report received.
  ghost predicate PendingIs(w: World, fingerprint: string, sent: seq<Sent>, t: Tables) {
    forall key: PendingKey :: key.fingerprint == fingerprint ==> PendingAt(w, fingerprint, sent, t, key)
  }

  lemma FirstForOfMore(w: World, fingerprint: string, sent: seq<Sent>, s: Sent, j: int, key: PendingKey)
    ensures j < |sent| ==> (FirstFor(w, fingerprint, sent + [s], j, key) <==> FirstFor(w, fingerprint, sent, j, key))
    ensures j == |sent| ==>
              (FirstFor(w, fingerprint, sent + [s], j, key) <==>
               IsFor(w, fingerprint, s, key) && !exists i :: FirstFor(w, fingerprint, sent, i, key))
  {
    var longer := sent + [s];
    assert forall m :: 0 <= m < |sent| ==> longer[m] == sent[m];
    if j == |sent| && IsFor(w, fingerprint, s, key) {
      if m :| 0 <= m < |sent| && IsFor(w, fingerprint, sent[m], key) {
        var i := SomeFirstFor(w, fingerprint, sent, m, key);
      }
    }
  }

  lemma PendingAtStays(w: World, fingerprint: string, sent: seq<Sent>, s: Sent, t: Tables, u: Tables, key: PendingKey)
    requires PendingAt(w, fingerprint, sent, t, key)
    requires Lookup(u.pending, key) == Lookup(t.pending, key)
    requires !IsFor(w, fingerprint, s, key) || key in t.pending
    ensures PendingAt(w, fingerprint, sent + [s], u, key)
  {
    hide FirstFor, IsFor;
    FirstForOfMore(w, fingerprint, sent, s, |sent|, key);
    forall j ensures FirstFor(w, fingerprint, sent + [s], j, key) <==> FirstFor(w, fingerprint, sent, j, key) {
      FirstForOfMore(w, fingerprint, sent, s, j, key);
      FirstForIsIn(w, fingerprint, sent, s, j, key);
    }
    forall j | FirstFor(w, fingerprint, sent, j, key) ensures 0 <= j < |sent| && (sent + [s])[j] == sent[j] {
      FirstForIsIn(w, fingerprint, sent, s, j, key);
    }
  }

  lemma FirstForIsIn(w: World, fingerprint: string, sent: seq<Sent>, s: Sent, j: int, key: PendingKey)
    ensures FirstFor(w, fingerprint, sent, j, key) ==> 0 <= j < |sent|
    ensures FirstFor(w, fingerprint, sent + [s], j, key) ==> 0 <= j <= |sent|
  {
  }

  lemma PendingAtNew(w: World, fingerprint: string, sent: seq<Sent>, s: Sent, t: Tables, u: Tables, key: PendingKey)
    requires PendingAt(w, fingerprint, sent, t, key) && key !in t.pending
    requires IsFor(w, fingerprint, s, key)
    requires key in u.pending && u.pending[key] == PendingRow(s.document, s.at)
    ensures PendingAt(w, fingerprint, sent + [s], u, key)
  {
    hide FirstFor, IsFor;
    FirstForOfMore(w, fingerprint, sent, s, |sent|, key);
    forall j | FirstFor(w, fingerprint, sent + [s], j, key) ensures j == |sent| {
      FirstForOfMore(w, fingerprint, sent, s, j, key);
      FirstForIsIn(w, fingerprint, sent, s, j, key);
    }
    assert (sent + [s])[|sent|] == s;
  }

  // The license is not issued yet: nothing was ever stored under it.
  ghost predicate NotIssuedYet(t: Tables, fingerprint: string, issued: License) {
    && fingerprint !in t.licenses
    && (forall f :: f in t.licenses ==> t.licenses[f].id != issued.id)
    && (forall k :: k in t.instances ==> k.0 != issued.id)
    && (forall k :: k in t.reports ==> k.0 != issued.id)
  }

  lemma AppliedIsOfOthers(t: Tables, effect: Effect, fingerprint: string, issued: License)
    requires NotIssuedYet(t, fingerprint, issued) && (effect.Storing? ==> effect.report.license != issued.id)
    ensures NotIssuedYet(Applied(t, effect), fingerprint, issued)
  {
    hide TooMany, Upserted, RowAfter, OutcomeOf;
  }

  lemma ReceiveIsOfOthers(w: World, t: Tables, s: Sent, fingerprint: string, issued: License)
    requires NotIssuedYet(t, fingerprint, issued)
    ensures NotIssuedYet(Receive(w, t, s).0, fingerprint, issued)
  {
    hide Receive, EffectOf, Applied;
    ReceiveApplies(w, t, s);
    StoresUnderItsLicense(w, Lookup(t.licenses, s.fingerprint), s);
    AppliedIsOfOthers(t, EffectOf(w, Lookup(t.licenses, s.fingerprint), s), fingerprint, issued);
  }

  lemma {:induction false} ReceiveAllIsOfOthers(
    w: World, t: Tables, sent: seq<Sent>, fingerprint: string, issued: License)
    requires NotIssuedYet(t, fingerprint, issued)
    ensures NotIssuedYet(ReceiveAll(w, t, sent), fingerprint, issued)
  {
    if sent != [] {
      hide NotIssuedYet, Receive;
      ReceiveAllIsOfOthers(w, t, sent[..|sent| - 1], fingerprint, issued);
      ReceiveIsOfOthers(w, ReceiveAll(w, t, sent[..|sent| - 1]), sent[|sent| - 1], fingerprint, issued);
    }
  }

  // No report under the fingerprint is turned away for want of room.
  ghost predicate NeverFull(w: World, t: Tables, sent: seq<Sent>, fingerprint: string) {
    forall n :: 0 <= n < |sent| && sent[n].fingerprint == fingerprint ==>
      Receive(w, ReceiveAll(w, t, sent[..n]), sent[n]).1 != Full
  }

  lemma PendingAfterOne(w: World, fingerprint: string, sent: seq<Sent>, s: Sent, t: Tables)
    requires PendingIs(w, fingerprint, sent, t) && fingerprint !in t.licenses
    requires s.fingerprint == fingerprint ==> Receive(w, t, s).1 != Full
    ensures PendingIs(w, fingerprint, sent + [s], Receive(w, t, s).0)
  {
    hide PendingAt;
    var u := Receive(w, t, s).0;
    forall key: PendingKey | key.fingerprint == fingerprint
      ensures PendingAt(w, fingerprint, sent + [s], u, key)
    {
      PendingAtAfterOne(w, fingerprint, sent, s, t, key);
    }
  }

  // What a report received adds to what is pending under the fingerprint.
  lemma PendingReceived(w: World, fingerprint: string, s: Sent, t: Tables, key: PendingKey)
    requires fingerprint !in t.licenses && key.fingerprint == fingerprint
    requires s.fingerprint == fingerprint ==> Receive(w, t, s).1 != Full
    ensures var u := Receive(w, t, s).0;
            if IsFor(w, fingerprint, s, key) && key !in t.pending
            then key in u.pending && u.pending[key] == PendingRow(s.document, s.at)
            else Lookup(u.pending, key) == Lookup(t.pending, key)
  {
    hide HexShaped, Read, Says, TooMany;
  }

  lemma PendingAtAfterOne(w: World, fingerprint: string, sent: seq<Sent>, s: Sent, t: Tables, key: PendingKey)
    requires PendingAt(w, fingerprint, sent, t, key) && fingerprint !in t.licenses && key.fingerprint == fingerprint
    requires s.fingerprint == fingerprint ==> Receive(w, t, s).1 != Full
    ensures PendingAt(w, fingerprint, sent + [s], Receive(w, t, s).0, key)
  {
    hide PendingAt, Receive, IsFor;
    var u := Receive(w, t, s).0;
    PendingReceived(w, fingerprint, s, t, key);
    if IsFor(w, fingerprint, s, key) && key !in t.pending {
      PendingAtNew(w, fingerprint, sent, s, t, u, key);
    } else {
      PendingAtStays(w, fingerprint, sent, s, t, u, key);
    }
  }

  ghost predicate NothingPending(t: Tables, fingerprint: string) {
    forall k :: k in t.pending ==> k.fingerprint != fingerprint
  }

  lemma {:induction false} PendingAfterAll(w: World, t: Tables, sent: seq<Sent>, fingerprint: string, issued: License)
    requires NotIssuedYet(t, fingerprint, issued) && NothingPending(t, fingerprint)
    requires NeverFull(w, t, sent, fingerprint)
    ensures PendingIs(w, fingerprint, sent, ReceiveAll(w, t, sent))
  {
    if sent == [] {
    } else {
      var before, last := sent[..|sent| - 1], sent[|sent| - 1];
      NeverFullBefore(w, t, sent, fingerprint);
      PendingAfterAll(w, t, before, fingerprint, issued);
      ReceiveAllIsOfOthers(w, t, before, fingerprint, issued);
      var u := ReceiveAll(w, t, before);
      assert fingerprint !in u.licenses;
      hide PendingIs, Receive, NeverFull, NotIssuedYet, NothingPending;
      PendingAfterOne(w, fingerprint, before, last, u);
      assert before + [last] == sent;
    }
  }

  lemma NeverFullBefore(w: World, t: Tables, sent: seq<Sent>, fingerprint: string)
    requires NeverFull(w, t, sent, fingerprint) && sent != []
    ensures NeverFull(w, t, sent[..|sent| - 1], fingerprint)
    ensures var before, last := sent[..|sent| - 1], sent[|sent| - 1];
            last.fingerprint == fingerprint ==> Receive(w, ReceiveAll(w, t, before), last).1 != Full
  {
    hide Receive, ReceiveAll;
    var before := sent[..|sent| - 1];
    forall n | 0 <= n < |before| && before[n].fingerprint == fingerprint
      ensures Receive(w, ReceiveAll(w, t, before[..n]), before[n]).1 != Full
    {
      assert before[..n] == sent[..n] && before[n] == sent[n];
    }
  }
}
