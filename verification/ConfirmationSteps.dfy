// What each step of a confirmation answers, told of the store and of the request alone; and that a
// confirmation that meets no refusal ends on its key.
module ConfirmationSteps {
  import opened Wrappers
  import opened Licensing
  import opened Registry
  import opened Texts
  import opened Confirmations
  import opened RegistryOutcomes
  import Links

  // The step of request i leaves the other requests as they are.
  ghost predicate OnlyRequest(y: System, z: System, i: nat) {
    && i < |y.requests| == |z.requests|
    && (forall k :: 0 <= k < |y.requests| && k != i ==> z.requests[k] == y.requests[k])
    && z.requests[i].customer == y.requests[i].customer && z.requests[i].draft == y.requests[i].draft
  }

  // ---- The customer and the form ----

  // The customer of a form is recorded under an external id without space around it.
  predicate CustomerIsIssuable(store: State, r: Request) {
    r.customer in store.customers && IsTrimmed(store.customers[r.customer].externalId)
  }

  // The draft is of that customer, as it is called now.
  predicate CustomerIsAsAsked(store: State, r: Request)
    requires r.customer in store.customers
  {
    && r.draft.customerExternalId == store.customers[r.customer].externalId
    && r.draft.customerName == Trim(store.customers[r.customer].name)
  }

  // A confirmation is answered on arrival exactly when its form bears no id.
  lemma ArrivalTells(y: System, customer: nat, draft: Draft)
    ensures CanAct(y, Arrive(customer, draft))
    ensures var z := Next(y, Arrive(customer, draft));
            && z.store == y.store && |z.requests| == |y.requests| + 1 && z.requests[..|y.requests|] == y.requests
            && var r := z.requests[|y.requests|];
               && r.customer == customer && r.draft == draft
               && r.stage == if draft.licenseId == "" then Answered(NotAConfirmation) else Arrived
  {
  }

  lemma CustomerTells(y: System, i: nat)
    requires i < |y.requests| && y.requests[i].stage == Arrived
    ensures CanAct(y, ReadCustomer(i))
    ensures var r, z := y.requests[i], Next(y, ReadCustomer(i));
            var there := r.customer in y.store.customers;
            && OnlyRequest(y, z, i) && z.store == y.store
            && (z.requests[i].stage == Answered(CustomerUnknown) <==> !there)
            && (z.requests[i].stage == Answered(NotIssuable) <==> there && !CustomerIsIssuable(y.store, r))
            && (z.requests[i].stage == Answered(CustomerChanged) <==>
                  there && CustomerIsIssuable(y.store, r) && !CustomerIsAsAsked(y.store, r))
            && (z.requests[i].stage == CustomerRead <==>
                  there && CustomerIsIssuable(y.store, r) && CustomerIsAsAsked(y.store, r))
  {
    hide Trim, IsTrimmed;
    var r := y.requests[i];
    if r.customer in y.store.customers {
      TrimmedIsItself(y.store.customers[r.customer].externalId);
    }
  }

  // `accepted` is the other rules of a form.
  lemma FormTells(y: System, i: nat, accepted: bool)
    requires i < |y.requests| && y.requests[i].stage == CustomerRead
    ensures CanAct(y, ReadForm(i, accepted))
    ensures var r, z := y.requests[i], Next(y, ReadForm(i, accepted));
            var both := r.draft.allFeatures && r.draft.features != [];
            && OnlyRequest(y, z, i) && z.store == y.store
            && (z.requests[i].stage == Answered(FormRefused) <==> !accepted || both)
            && (z.requests[i].stage == FormRead <==> accepted && !both)
  {
  }

  // ---- The id ----

  // A recorded license says, for that customer, all that the draft does: the same terms, and the same
  // license to succeed. A key without limits is one whose limits are all unset.
  ghost predicate SaysTheSame(row: License, r: Request) {
    && row.customer == r.customer
    && (row.succeeds == if r.draft.succeeds == "" then None else Some(r.draft.succeeds))
    && row.key.plan == r.draft.plan && row.key.expiresAt == r.draft.expiresAt
    && row.key.graceDays == r.draft.graceDays && row.key.telemetry == r.draft.telemetry
    && (row.key.features == if r.draft.allFeatures then None else Some(r.draft.features))
    && (row.key.limits == Some(Limits(None, None, r.draft.maxSources, None))
        || (row.key.limits == None && r.draft.maxSources == None))
  }

  lemma ContentIsWhatItSays(row: License, r: Request)
    requires OneChoiceOfFeatures(r.draft) && row.succeeds != Some("")
    ensures IsTheContentOf(r.draft, r.draft.licenseId, row, r.customer) <==> SaysTheSame(row, r)
  {
    var d := r.draft;
    if IsTheContentOf(d, d.licenseId, row, r.customer) {
      assert row.key.features == if d.allFeatures then None else Some(d.features);
      if row.key.limits.Some? {
        assert row.key.limits.value == Limits(None, None, d.maxSources, None);
      }
    }
  }

  // What answers for an id, free or taken.
  ghost predicate AnswersForTheId(store: State, r: Request, answer: Confirmations.Answer) {
    && r.draft.licenseId in store.licenses
    && answer == if SaysTheSame(store.licenses[r.draft.licenseId], r) then Redirected else Refused
  }

  lemma {:induction false} SuccessorsAreNamed(s: State, ops: seq<Op>)
    requires CanRun(s, ops) && forall id :: id in s.licenses ==> s.licenses[id].succeeds != Some("")
    ensures forall id :: id in Run(s, ops).licenses ==> Run(s, ops).licenses[id].succeeds != Some("")
    decreases |ops|
  {
    hide Step, CanHappen;
    if ops != [] {
      NamesItsOwn(s, ops[0]);
      SuccessorsAreNamed(Step(s, ops[0]).state, ops[1..]);
    }
  }

  lemma NamesItsOwn(s: State, op: Op)
    requires CanHappen(s, op) && forall id :: id in s.licenses ==> s.licenses[id].succeeds != Some("")
    ensures forall id :: id in Step(s, op).state.licenses ==> Step(s, op).state.licenses[id].succeeds != Some("")
  {
    hide FindCustomer, EncodedIsTaken, HasSuccessor, Trim, IssuedAction, WithCustomerOfKey, CustomerOfKey;
    if op.Import? {
      Links.UpsertLeavesLicenses(s, op.key, op.drawn);
    }
  }

  lemma StoredSuccessorsAreNamed(y: System, id: string)
    requires Happens(y) && id in y.store.licenses
    ensures y.store.licenses[id].succeeds != Some("")
  {
    hide Happens, Step, CanHappen, CanRun, Run;
    StoreIsReachable(y);
    var ops :| CanRun(Empty, ops) && Run(Empty, ops) == y.store;
    SuccessorsAreNamed(Empty, ops);
  }

  lemma TakenTells(y: System, r: Request)
    requires Happens(y) && OneChoiceOfFeatures(r.draft) && IsTaken(y.store, r)
    ensures AnswersForTheId(y.store, r, AnswerOfTaken(y.store, r))
  {
    hide Happens, IsTheContentOf, SaysTheSame;
    StoredSuccessorsAreNamed(y, r.draft.licenseId);
    ContentIsWhatItSays(y.store.licenses[r.draft.licenseId], r);
  }

  lemma ChoiceIsOne(y: System, i: nat)
    requires Happens(y) && i < |y.requests| && (y.requests[i].stage == FormRead || y.requests[i].stage == NotTheFirst)
    ensures OneChoiceOfFeatures(y.requests[i].draft)
  {
    hide Happens, Reachable, OneChoiceOfFeatures, ShownOnce, IssuedAreShown;
    InvHolds(y);
    RequestHolds(y, i);
  }

  // A free id is gone on with; a taken one is redirected when it was recorded with what the draft says,
  // and refused when not.
  lemma IdTells(y: System, i: nat)
    requires Happens(y) && i < |y.requests| && y.requests[i].stage == FormRead
    ensures CanAct(y, CheckId(i))
    ensures var r, z := y.requests[i], Next(y, CheckId(i));
            && OnlyRequest(y, z, i) && z.store == y.store
            && (r.draft.licenseId !in y.store.licenses ==> z.requests[i].stage == IdFree)
            && (r.draft.licenseId in y.store.licenses ==>
                  && z.requests[i].stage.Answered?
                  && AnswersForTheId(y.store, r, z.requests[i].stage.answer))
  {
    hide Happens, AnswerOfTaken, OneChoiceOfFeatures, AnswersForTheId;
    ChoiceIsOne(y, i);
    if IsTaken(y.store, y.requests[i]) {
      TakenTells(y, y.requests[i]);
    }
  }

  lemma SecondLookTells(y: System, i: nat)
    requires Happens(y) && i < |y.requests| && y.requests[i].stage == NotTheFirst
    ensures CanAct(y, CheckAgain(i))
    ensures var r, z := y.requests[i], Next(y, CheckAgain(i));
            && OnlyRequest(y, z, i) && z.store == y.store
            && z.requests[i].stage.Answered? && AnswersForTheId(y.store, r, z.requests[i].stage.answer)
  {
    hide Happens, AnswerOfTaken, OneChoiceOfFeatures, AnswersForTheId;
    ChoiceIsOne(y, i);
    TakenIsAlwaysReadable(y, i);
    TakenTells(y, y.requests[i]);
  }

  // ---- The signing and the record ----

  lemma SigningTells(y: System, i: nat, now: int, encoded: Option<string>)
    requires i < |y.requests| && y.requests[i].stage == IdFree
    ensures CanAct(y, Sign(i, now, encoded))
    ensures var z := Next(y, Sign(i, now, encoded));
            && OnlyRequest(y, z, i) && z.store == y.store
            && (encoded == None ==> z.requests[i].stage == Answered(SignerRefused))
            && (encoded.Some? ==> z.requests[i].stage == Signed(now, encoded.value))
  {
  }

  lemma SignedHolds(y: System, i: nat)
    requires Happens(y) && i < |y.requests| && y.requests[i].stage.Signed?
    ensures Links.Inv(y.store)
    ensures HasExternalId(y.store.customers, y.requests[i].customer, y.requests[i].draft.customerExternalId)
  {
    hide Happens, Reachable, OneChoiceOfFeatures, ShownOnce, IssuedAreShown, Links.Inv;
    InvHolds(y);
    RequestHolds(y, i);
    Links.RegistryIsLinked(y.store);
  }

  // What the row of a license issued for a request is.
  ghost predicate IsIssuedFor(row: License, r: Request, now: int, encoded: string) {
    && row.key.issuedAt == now && row.customer == r.customer && row.encoded == encoded && row.origin == FromConsole
    && row.note == r.draft.note && SaysTheSame(row, r)
    && row.key.id == r.draft.licenseId
    && row.key.customerId == r.draft.customerExternalId && row.key.issuedTo == r.draft.customerName
  }

  // The record shows the key exactly when the id and the value are free and the license to succeed, if
  // any, is of the customer and has no successor. A taken id is looked at again, a value that is kept
  // under another id breaks, and what is wrong with the license to succeed is a conflict.
  lemma RecordingTells(y: System, i: nat, operator: string)
    requires Happens(y) && i < |y.requests| && y.requests[i].stage.Signed?
    ensures CanAct(y, RecordKey(i, operator))
    ensures var r, z := y.requests[i], Next(y, RecordKey(i, operator));
            var encoded, stage := Trim(r.stage.encoded), z.requests[i].stage;
            var may := MaySucceed(y.store, r.customer, r.draft.succeeds);
            var there := r.draft.licenseId in y.store.licenses;
            var kept := EncodedIsTaken(y.store.licenses, encoded);
            var succeeded := r.draft.succeeds != "" && HasSuccessor(y.store.licenses, r.draft.succeeds);
            && OnlyRequest(y, z, i)
            && (stage == NotTheFirst <==> may && there)
            && (stage == Answered(Broke) <==> may && !there && kept)
            && (stage == Answered(Conflict) <==> !may || (!there && !kept && succeeded))
            && (stage == Answered(KeyShown(encoded)) <==> may && !there && !kept && !succeeded)
            && (stage.Answered? && stage.answer.KeyShown? ==> stage.answer.encoded == encoded)
  {
    hide Happens, Trim, EncodedIsTaken, HasSuccessor, MaySucceed, Step, RecordIssuedLicense, Links.Inv;
    var r := y.requests[i];
    StepOfARecord(y.store, RecordOp(r, operator));
    SignedHolds(y, i);
    RecordTells(y.store, RecordOp(r, operator), r.customer);
    RecordStep(y, RecordKey(i, operator));
    MayOrNot(y.store, r.customer, r.draft.succeeds);
  }

  lemma StepOfARecord(s: State, op: Op)
    requires op.Record?
    ensures Step(s, op) == RecordIssuedLicense(s, op)
  {
    hide RecordIssuedLicense;
  }

  lemma MayOrNot(s: State, c: nat, succeeds: string)
    ensures MaySucceed(s, c, succeeds) <==>
              !(succeeds != "" && succeeds !in s.licenses)
              && !(succeeds != "" && succeeds in s.licenses && s.licenses[succeeds].customer != c)
  {
  }

  // The store changes exactly when the key is shown, by the license of the request.
  lemma RecordingLeaves(y: System, i: nat, operator: string)
    requires Happens(y) && i < |y.requests| && y.requests[i].stage.Signed?
    ensures CanAct(y, RecordKey(i, operator))
    ensures var r, z := y.requests[i], Next(y, RecordKey(i, operator));
            var encoded, id := Trim(r.stage.encoded), r.draft.licenseId;
            if z.requests[i].stage == Answered(KeyShown(encoded))
            then && SameOtherLicenses(y.store, z.store, id) && z.store.customers == y.store.customers
                 && id !in y.store.licenses && id in z.store.licenses
                 && IsIssuedFor(z.store.licenses[id], r, r.stage.now, encoded)
            else z.store == y.store
  {
    hide Happens, Trim, EncodedIsTaken, HasSuccessor, Step, RecordIssuedLicense, Links.Inv, SameOtherLicenses,
         HasExternalId, IsACustomer;
    var r := y.requests[i];
    var op := RecordOp(r, operator);
    StepOfARecord(y.store, op);
    SignedHolds(y, i);
    RecordTells(y.store, op, r.customer);
    RecordLeaves(y.store, op);
    RecordStep(y, RecordKey(i, operator));
    if Step(y.store, op).outcome == Added {
      OneCustomer(y.store, r.customer, Step(y.store, op).state.licenses[r.draft.licenseId].customer,
                  r.draft.customerExternalId);
    }
  }

  lemma OneCustomer(s: State, c: nat, d: nat, externalId: string)
    requires Links.Inv(s) && HasExternalId(s.customers, c, externalId) && HasExternalId(s.customers, d, externalId)
    ensures c == d
  {
    hide Links.KeysNameTheirCustomer, Links.KeysAreDistinct, Links.Linked;
  }

  // ---- A confirmation that meets no refusal ----

  // All that is asked of the store and of the request.
  ghost predicate MeetsNoRefusal(y: System, i: nat, encoded: string) {
    && i < |y.requests| && y.requests[i].stage == Arrived
    && var r := y.requests[i];
       && CustomerIsIssuable(y.store, r) && CustomerIsAsAsked(y.store, r)
       && !(r.draft.allFeatures && r.draft.features != [])
       && r.draft.licenseId !in y.store.licenses && !EncodedIsTaken(y.store.licenses, Trim(encoded))
       && (r.draft.succeeds != "" ==>
             && r.draft.succeeds in y.store.licenses && y.store.licenses[r.draft.succeeds].customer == r.customer
             && !HasSuccessor(y.store.licenses, r.draft.succeeds))
  }

  lemma HappensOn(y: System, a: Confirmations.Action)
    requires Happens(y) && CanAct(y, a)
    ensures Happens(Next(y, a))
  {
    hide CanAct, Next;
    var actions :| Follows(Start, actions, y);
    FollowsOn(Start, actions, y, a);
    assert Follows(Start, actions + [a], Next(y, a));
  }

  lemma {:induction false} FollowsOn(
    x: System, actions: seq<Confirmations.Action>, y: System, a: Confirmations.Action)
    requires Follows(x, actions, y) && CanAct(y, a)
    ensures Follows(x, actions + [a], Next(y, a))
    decreases |actions|
  {
    hide CanAct, Next;
    var more := actions + [a];
    if actions == [] {
      assert more[0] == a && more[1..] == [];
    } else {
      assert more[0] == actions[0] && more[1..] == actions[1..] + [a];
      FollowsOn(Next(x, actions[0]), actions[1..], y, a);
    }
  }

  // Its steps, one after the other.
  function StepsTo(i: nat, now: int, encoded: string, operator: string): seq<Confirmations.Action> {
    [ReadCustomer(i), ReadForm(i, true), CheckId(i), Sign(i, now, Some(encoded)), RecordKey(i, operator)]
  }

  lemma SignedAfterFour(y: System, i: nat, now: int, encoded: string) returns (z: System)
    requires Happens(y) && MeetsNoRefusal(y, i, encoded)
    ensures Follows(y, StepsTo(i, now, encoded, "")[..4], z) && Happens(z)
    ensures z.store == y.store && OnlyRequest(y, z, i) && z.requests[i].stage == Signed(now, encoded)
  {
    hide Happens, CanAct, Next, Trim, IsTrimmed, CustomerIsAsAsked, EncodedIsTaken, HasSuccessor, Follows;
    CustomerTells(y, i);
    HappensOn(y, ReadCustomer(i));
    var read := Next(y, ReadCustomer(i));
    FormTells(read, i, true);
    HappensOn(read, ReadForm(i, true));
    var formed := Next(read, ReadForm(i, true));
    IdTells(formed, i);
    HappensOn(formed, CheckId(i));
    var free := Next(formed, CheckId(i));
    SigningTells(free, i, now, Some(encoded));
    HappensOn(free, Sign(i, now, Some(encoded)));
    z := Next(free, Sign(i, now, Some(encoded)));
    var four := [ReadCustomer(i), ReadForm(i, true), CheckId(i), Sign(i, now, Some(encoded))];
    assert StepsTo(i, now, encoded, "")[..4] == four;
    FourFollow(y, four, read, formed, free, z);
  }

  lemma FourFollow(
    y: System, actions: seq<Confirmations.Action>, a: System, b: System, c: System, z: System)
    requires |actions| == 4
    requires CanAct(y, actions[0]) && a == Next(y, actions[0]) && CanAct(a, actions[1]) && b == Next(a, actions[1])
    requires CanAct(b, actions[2]) && c == Next(b, actions[2]) && CanAct(c, actions[3]) && z == Next(c, actions[3])
    ensures Follows(y, actions, z)
  {
    hide CanAct, Next;
    assert Follows(c, actions[3..], z) by {
      assert actions[3..][1..] == [];
    }
    assert actions[2..][1..] == actions[3..] && Follows(b, actions[2..], z);
    assert actions[1..][1..] == actions[2..] && Follows(a, actions[1..], z);
  }

  // Its five steps can be taken in a row, and they end on the key, with the license recorded as asked:
  // nothing but what is told above keeps a license from being issued.
  lemma WithoutARefusalTheKeyIsShown(
    y: System, i: nat, now: int, encoded: string, operator: string) returns (z: System)
    requires Happens(y) && MeetsNoRefusal(y, i, encoded)
    ensures Follows(y, StepsTo(i, now, encoded, operator), z)
    ensures OnlyRequest(y, z, i) && z.requests[i].stage == Answered(KeyShown(Trim(encoded)))
    ensures var id := y.requests[i].draft.licenseId;
            && id in z.store.licenses && IsIssuedFor(z.store.licenses[id], y.requests[i], now, Trim(encoded))
            && SameOtherLicenses(y.store, z.store, id) && z.store.customers == y.store.customers
  {
    hide Happens, CanAct, Next, Trim, EncodedIsTaken, HasSuccessor, Follows, CustomerIsIssuable, CustomerIsAsAsked,
         IsIssuedFor, SameOtherLicenses;
    var signed := SignedAfterFour(y, i, now, encoded);
    RecordingTells(signed, i, operator);
    RecordingLeaves(signed, i, operator);
    z := Next(signed, RecordKey(i, operator));
    var four := StepsTo(i, now, encoded, "")[..4];
    FollowsOn(y, four, signed, RecordKey(i, operator));
    assert four + [RecordKey(i, operator)] == StepsTo(i, now, encoded, operator);
    SameAskedSameRow(y.requests[i], signed.requests[i], z.store.licenses[y.requests[i].draft.licenseId], now,
                     Trim(encoded));
  }

  lemma SameAskedSameRow(r: Request, q: Request, row: License, now: int, encoded: string)
    requires q.customer == r.customer && q.draft == r.draft
    ensures IsIssuedFor(row, q, now, encoded) <==> IsIssuedFor(row, r, now, encoded)
  {
  }
}
