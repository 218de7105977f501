// What becomes of the other confirmations of an id, once the key of that id was shown.
module Repeats {
  import opened Wrappers
  import opened Licensing
  import opened Registry
  import opened Texts
  import opened Confirmations
  import Links

  // Two requests that ask for the same license of the same customer.
  predicate SameAsked(first: Request, other: Request) {
    SameLicense(first.draft, other.draft) && first.customer == other.customer
  }

  // Request i shows the key of the id that request j bears.
  ghost predicate ShowsTheIdOf(y: System, i: nat, j: nat) {
    && i < |y.requests| && j < |y.requests|
    && ShowsKeyOf(y.requests[i], y.requests[j].draft.licenseId)
  }

  predicate IsPastItsForm(stage: Stage) {
    stage == FormRead || stage == IdFree || stage.Signed? || stage == NotTheFirst
  }

  // What a request is told of its customer or of its form, before its id is looked at.
  predicate IsOfTheForm(answer: Confirmations.Answer) {
    answer in {NotAConfirmation, CustomerUnknown, NotIssuable, CustomerChanged, FormRefused}
  }

  // Where a request of an id whose key was shown to another may be: without an answer, refused by the
  // signer, or answered for the id that is taken. When it asks for the same license it is redirected,
  // and when it asks for another it is refused, or told a conflict. `early` is for a request that may
  // still be answered for its customer or its form.
  ghost predicate Can(first: Request, other: Request, early: bool) {
    match other.stage
    case Answered(answer) =>
      || answer == SignerRefused
      || (early && IsOfTheForm(answer))
      || (if SameAsked(first, other) then answer == Redirected else answer == Refused || answer == Conflict)
    case _ => early || IsPastItsForm(other.stage)
  }

  // ---- The id is taken ----

  lemma ShownIsRecorded(y: System, i: nat, j: nat)
    requires Confirmations.Inv(y) && ShowsTheIdOf(y, i, j)
    ensures var first := y.requests[i];
      && first.draft.licenseId == y.requests[j].draft.licenseId && OneChoiceOfFeatures(first.draft)
      && IsRecordedAs(y.store, first, first.stage.answer.encoded)
  {
    hide Reachable, ShownOnce, IssuedAreShown, IsRecordedAs, OneChoiceOfFeatures, AllHold;
    RequestHolds(y, i);
  }

  lemma OneChoicePastItsForm(store: State, r: Request)
    requires Holds(store, r) && IsPastItsForm(r.stage)
    ensures OneChoiceOfFeatures(r.draft) && (r.stage != NotTheFirst ==> CustomerHolds(store, r))
  {
    hide OneChoiceOfFeatures, CustomerHolds, IsTaken;
  }

  // The answer for a taken id tells the same license from another.
  lemma TakenTellsApart(y: System, i: nat, j: nat)
    requires Confirmations.Inv(y) && ShowsTheIdOf(y, i, j) && IsPastItsForm(y.requests[j].stage)
    ensures var first, other := y.requests[i], y.requests[j];
      && IsTaken(y.store, other)
      && AnswerOfTaken(y.store, other) == if SameAsked(first, other) then Redirected else Refused
  {
    hide Confirmations.Inv, OneChoiceOfFeatures, IsTheContentOf, KeyOf, SameLicense, CustomerHolds;
    ShownIsRecorded(y, i, j);
    AllOfInv(y);
    RequestHolds(y, j);
    OneChoicePastItsForm(y.store, y.requests[j]);
    var first, other := y.requests[i], y.requests[j];
    var stored := y.store.licenses[first.draft.licenseId];
    ContentTellsDrafts(first.draft, other.draft, stored, first.customer, other.customer, stored.key.issuedAt);
  }

  lemma AllOfInv(y: System)
    requires Confirmations.Inv(y)
    ensures AllHold(y) && Reachable(y.store)
  {
    hide AllHold, Reachable, ShownOnce, IssuedAreShown;
  }

  // The license a recorded one succeeds is recorded, for the same customer.
  lemma SucceededIsThere(store: State, id: string, previous: string)
    requires Links.Inv(store) && id in store.licenses && previous != ""
    requires store.licenses[id].succeeds == Succeeded(previous)
    ensures previous in store.licenses && store.licenses[previous].customer == store.licenses[id].customer
  {
    hide Links.CustomersAreDistinct, Links.KeysNameTheirCustomer, Links.KeysAreDistinct, Links.OneSuccessor;
    assert Succeeds(store.licenses, id, previous);
  }

  // A record under an id that is taken adds nothing.
  lemma RecordUnderATakenId(store: State, r: Request, operator: string)
    requires r.stage.Signed? && IsTaken(store, r)
    ensures var answer := RecordIssuedLicense(store, RecordOp(r, operator));
      && answer.outcome in {NotAdded, NotFound, OtherCustomer} && answer.state == store
  {
    hide FindCustomer, Trim, HasSuccessor, EncodedIsTaken, IssuedAction, Succeeded;
  }

  lemma RecordOfTheSame(store: State, r: Request, operator: string, c: nat)
    requires r.stage.Signed? && IsTaken(store, r) && FindCustomer(store.customers, r.draft.customerExternalId) == Some(c)
    requires r.draft.succeeds != "" ==>
               r.draft.succeeds in store.licenses && store.licenses[r.draft.succeeds].customer == c
    ensures RecordIssuedLicense(store, RecordOp(r, operator)).outcome == NotAdded
  {
    hide FindCustomer, Trim, HasSuccessor, EncodedIsTaken, IssuedAction, Succeeded;
  }

  // The record of a repeat past its first check leaves the license alone: it is never told a conflict,
  // and never fails.
  lemma RecordOfARepeat(y: System, i: nat, j: nat, operator: string)
    requires Confirmations.Inv(y) && ShowsTheIdOf(y, i, j) && y.requests[j].stage.Signed?
    ensures var first, other := y.requests[i], y.requests[j];
      var answer := RecordIssuedLicense(y.store, RecordOp(other, operator));
      && answer.state == y.store && answer.outcome in {NotAdded, NotFound, OtherCustomer}
      && (SameAsked(first, other) ==> answer.outcome == NotAdded)
  {
    hide Confirmations.Inv, OneChoiceOfFeatures, KeyOf, RecordIssuedLicense, Links.Inv, Succeeded;
    TakenTellsApart(y, i, j);
    AllOfInv(y);
    RequestHolds(y, j);
    OneChoicePastItsForm(y.store, y.requests[j]);
    Links.RegistryIsLinked(y.store);
    var first, other := y.requests[i], y.requests[j];
    RecordUnderATakenId(y.store, other, operator);
    if SameAsked(first, other) {
      ShownIsRecorded(y, i, j);
      CustomerIsFound(y.store, other);
      if other.draft.succeeds != "" {
        SucceededIsThere(y.store, other.draft.licenseId, other.draft.succeeds);
      }
      RecordOfTheSame(y.store, other, operator, other.customer);
    }
  }

  lemma CustomerIsFound(store: State, r: Request)
    requires Links.Inv(store) && CustomerHolds(store, r)
    ensures FindCustomer(store.customers, r.draft.customerExternalId) == Some(r.customer)
  {
    hide Links.KeysNameTheirCustomer, Links.KeysAreDistinct, Links.Linked, FindCustomer, Links.CustomersAreDistinct;
    Links.FoundIsTheCustomer(store.customers, r.customer, r.draft.customerExternalId);
  }

  // ---- One step ----

  // A request keeps its customer and its draft.
  predicate SameForm(r: Request, next: Request) {
    next.customer == r.customer && next.draft == r.draft
  }

  lemma StepKeepsTheForm(store: State, r: Request, a: Confirmations.Action)
    requires IsStepOf(r, a)
    ensures SameForm(r, After(store, r, a))
  {
    hide Trim, RecordIssuedLicense, IsTheContentOf, OneChoiceOfFeatures;
  }

  // The step of a request whose id is taken by a key shown to another.
  lemma StepStays(y: System, a: Confirmations.Action, i: nat, j: nat, early: bool)
    requires Confirmations.Inv(y) && ShowsTheIdOf(y, i, j) && IsStepOf(y.requests[j], a)
    requires Can(y.requests[i], y.requests[j], early)
    ensures Can(y.requests[i], After(y.store, y.requests[j], a), early)
  {
    hide Confirmations.Inv, RecordIssuedLicense, AnswerOfTaken, SameLicense, OneChoiceOfFeatures, Trim;
    var first, other := y.requests[i], y.requests[j];
    if IsPastItsForm(other.stage) {
      TakenTellsApart(y, i, j);
    }
    if a.RecordKey? {
      RecordOfARepeat(y, i, j, a.operator);
    }
    StepKeepsTheForm(y.store, other, a);
  }

  // What an action makes of the requests: only the one whose step it is changes, and new ones arrive.
  lemma RequestsAfter(y: System, a: Confirmations.Action, k: nat)
    requires CanAct(y, a) && k < |y.requests|
    ensures |y.requests| <= |Next(y, a).requests|
    ensures var r, next := y.requests[k], Next(y, a).requests[k];
      if !a.Arrive? && !a.Other? && a.i == k then IsStepOf(r, a) && next == After(y.store, r, a) else next == r
  {
    hide After, StoreAfter, Step, IsStepOf, Arriving;
  }

  lemma ShownStaysShown(y: System, a: Confirmations.Action, i: nat)
    requires CanAct(y, a) && i < |y.requests| && y.requests[i].stage.Answered?
    ensures i < |Next(y, a).requests| && Next(y, a).requests[i] == y.requests[i]
  {
    hide Next, After;
    RequestsAfter(y, a, i);
  }

  lemma NextStays(y: System, a: Confirmations.Action, i: nat, j: nat, early: bool)
    requires Confirmations.Inv(y) && CanAct(y, a) && ShowsTheIdOf(y, i, j)
    requires Can(y.requests[i], y.requests[j], early)
    ensures ShowsTheIdOf(Next(y, a), i, j) && SameForm(y.requests[j], Next(y, a).requests[j])
    ensures Next(y, a).requests[i] == y.requests[i]
    ensures Can(y.requests[i], Next(y, a).requests[j], early)
  {
    hide Confirmations.Inv, Next, After, Can, CanAct;
    ShownStaysShown(y, a, i);
    RequestsAfter(y, a, j);
    if !a.Arrive? && !a.Other? && a.i == j {
      StepStays(y, a, i, j, early);
      StepKeepsTheForm(y.store, y.requests[j], a);
    }
  }

  lemma {:induction false} FollowsStays(
    y: System, actions: seq<Confirmations.Action>, z: System, i: nat, j: nat, early: bool)
    requires Confirmations.Inv(y) && Follows(y, actions, z) && ShowsTheIdOf(y, i, j)
    requires Can(y.requests[i], y.requests[j], early)
    ensures ShowsTheIdOf(z, i, j) && z.requests[i] == y.requests[i] && SameForm(y.requests[j], z.requests[j])
    ensures Can(z.requests[i], z.requests[j], early)
    decreases |actions|
  {
    hide Confirmations.Inv, Next, CanAct, Can;
    if actions == [] {
    } else {
      NextStays(y, actions[0], i, j, early);
      NextKeeps(y, actions[0]);
      FollowsStays(Next(y, actions[0]), actions[1..], z, i, j, early);
    }
  }

  // ---- What every interleaving gives ----

  // From the moment a confirmation is answered by the key, whatever follows: another one of that id
  // whose form was accepted ends redirected when it asks for the same license of the same customer,
  // unless the signer refuses it; and when it asks for anything else, it is refused, or told a
  // conflict, or the signer refuses it. It is never answered by a key, and never fails.
  lemma RepeatsAreRedirected(y: System, actions: seq<Confirmations.Action>, z: System, i: nat, j: nat)
    requires Happens(y) && Follows(y, actions, z) && ShowsTheIdOf(y, i, j) && IsPastItsForm(y.requests[j].stage)
    ensures j < |z.requests| && SameForm(y.requests[j], z.requests[j])
    ensures z.requests[j].stage.Answered? ==>
              var answer := z.requests[j].stage.answer;
              if SameAsked(y.requests[i], y.requests[j]) then answer in {Redirected, SignerRefused}
              else answer in {Refused, Conflict, SignerRefused}
  {
    hide Happens, Follows, Confirmations.Inv, SameLicense;
    InvHolds(y);
    FollowsStays(y, actions, z, i, j, false);
  }

  // And a confirmation of that id that is at any step, its first one included, is told of its customer
  // or of its form, or ends the same way.
  lemma LaterOnesToo(y: System, actions: seq<Confirmations.Action>, z: System, i: nat, j: nat)
    requires Happens(y) && Follows(y, actions, z) && ShowsTheIdOf(y, i, j) && !y.requests[j].stage.Answered?
    ensures j < |z.requests| && SameForm(y.requests[j], z.requests[j])
    ensures z.requests[j].stage.Answered? ==>
              var answer := z.requests[j].stage.answer;
              || IsOfTheForm(answer)
              || (if SameAsked(y.requests[i], y.requests[j]) then answer in {Redirected, SignerRefused}
                  else answer in {Refused, Conflict, SignerRefused})
  {
    hide Happens, Follows, Confirmations.Inv, SameLicense;
    InvHolds(y);
    FollowsStays(y, actions, z, i, j, true);
  }

  // The first look at the id decides: a repeat read then is redirected at once, and another draft under
  // that id is refused at once.
  lemma TheLookAtTheIdDecides(y: System, i: nat, j: nat)
    requires Happens(y) && ShowsTheIdOf(y, i, j)
    requires y.requests[j].stage == FormRead || y.requests[j].stage == NotTheFirst
    ensures var a := if y.requests[j].stage == FormRead then CheckId(j) else CheckAgain(j);
      && CanAct(y, a)
      && Next(y, a).requests[j].stage ==
         Answered(if SameAsked(y.requests[i], y.requests[j]) then Redirected else Refused)
  {
    hide Happens, Confirmations.Inv, SameLicense, AnswerOfTaken;
    InvHolds(y);
    TakenTellsApart(y, i, j);
  }
}
