// The requests that confirm licenses, each in its steps, in any order with one another and with all
// else the registry does.
module Confirmations {
  import opened Wrappers
  import opened Licensing
  import opened Registry
  import opened Texts
  import Links

  datatype Answer =
    | KeyShown(encoded: string)
    | Redirected    // to the page of the license recorded
    | Refused       // the id is the one of a license of other content
    | NotAConfirmation
    | CustomerUnknown
    | NotIssuable
    | CustomerChanged
    | FormRefused
    | SignerRefused
    | Conflict      // told by the store
    | Broke
    | TakenByUnreadable

  // Where a request is. Signed holds the instant of the signing and the value of the key.
  datatype Stage =
    | Arrived
    | CustomerRead
    | FormRead
    | IdFree
    | Signed(now: int, encoded: string)
    | NotTheFirst
    | Answered(answer: Answer)

  // A form carries the customer and the draft.
  datatype Request = Request(customer: nat, draft: Draft, stage: Stage)

  datatype System = System(store: State, requests: seq<Request>)

  const Start := System(Empty, [])

  // A step of the request i, or another act on the registry. `accepted` is what the rules of a form say
  // besides what is told here, and `encoded` what the signer gives, if it does.
  datatype Action =
    | Arrive(customer: nat, draft: Draft)
    | ReadCustomer(i: nat)
    | ReadForm(i: nat, accepted: bool)
    | CheckId(i: nat)
    | Sign(i: nat, now: int, encoded: Option<string>)
    | RecordKey(i: nat, operator: string)
    | CheckAgain(i: nat)
    | Other(op: Op)

  // ---- The steps ----

  function AnsweredWith(r: Request, answer: Answer): Request { r.(stage := Answered(answer)) }

  function CustomerOfForm(store: State, r: Request): Request {
    if r.customer !in store.customers then AnsweredWith(r, CustomerUnknown)
    else
      var customer := store.customers[r.customer];
      if customer.externalId != Trim(customer.externalId) then AnsweredWith(r, NotIssuable)
      else if r.draft.customerExternalId != customer.externalId || r.draft.customerName != Trim(customer.name) then
        AnsweredWith(r, CustomerChanged)
      else r.(stage := CustomerRead)
  }

  // What answers for an id that is taken.
  predicate IsTaken(store: State, r: Request) { r.draft.licenseId in store.licenses }

  function AnswerOfTaken(store: State, r: Request): Answer
    requires IsTaken(store, r)
  {
    var id := r.draft.licenseId;
    if IsTheContentOf(r.draft, id, store.licenses[id], r.customer) then Redirected else Refused
  }

  function RecordOp(r: Request, operator: string): Op
    requires r.stage.Signed?
  {
    Record(operator, KeyOf(r.draft, r.stage.now), r.stage.encoded, r.draft.succeeds, r.draft.note, r.stage.now)
  }

  function Recorded(r: Request, outcome: Outcome): Request
    requires r.stage.Signed?
  {
    match outcome
    case Added => AnsweredWith(r, KeyShown(Trim(r.stage.encoded)))
    case NotAdded => r.(stage := NotTheFirst)
    case AlreadySucceeded => AnsweredWith(r, Conflict)
    case OtherCustomer => AnsweredWith(r, Conflict)
    case NotFound => AnsweredWith(r, Conflict)
    case _ => AnsweredWith(r, Broke)
  }

  // The step of a request, and when it is one.
  predicate IsStepOf(r: Request, a: Action) {
    match a
    case ReadCustomer(_) => r.stage == Arrived
    case ReadForm(_, _) => r.stage == CustomerRead
    case CheckId(_) => r.stage == FormRead
    case Sign(_, _, _) => r.stage == IdFree
    case RecordKey(_, _) => r.stage.Signed?
    case CheckAgain(_) => r.stage == NotTheFirst
    case _ => false
  }

  ghost function After(store: State, r: Request, a: Action): Request
    requires IsStepOf(r, a)
  {
    match a
    case ReadCustomer(_) => CustomerOfForm(store, r)
    case ReadForm(_, accepted) =>
      if accepted && OneChoiceOfFeatures(r.draft) then r.(stage := FormRead) else AnsweredWith(r, FormRefused)
    case CheckId(_) =>
      if IsTaken(store, r) then AnsweredWith(r, AnswerOfTaken(store, r)) else r.(stage := IdFree)
    case Sign(_, now, encoded) =>
      if encoded.None? then AnsweredWith(r, SignerRefused) else r.(stage := Signed(now, encoded.value))
    case RecordKey(_, operator) => Recorded(r, RecordIssuedLicense(store, RecordOp(r, operator)).outcome)
    case CheckAgain(_) =>
      AnsweredWith(r, if IsTaken(store, r) then AnswerOfTaken(store, r) else TakenByUnreadable)
  }

  ghost function StoreAfter(store: State, r: Request, a: Action): State
    requires IsStepOf(r, a)
  {
    if a.RecordKey? then Step(store, RecordOp(r, a.operator)).state else store
  }

  function Arriving(customer: nat, draft: Draft): Request {
    Request(customer, draft, if draft.licenseId == "" then Answered(NotAConfirmation) else Arrived)
  }

  // Nothing else records an issued license.
  predicate CanAct(y: System, a: Action) {
    match a
    case Arrive(_, _) => true
    case Other(op) => !op.Record? && CanHappen(y.store, op)
    case _ => a.i < |y.requests| && IsStepOf(y.requests[a.i], a)
  }

  ghost function Next(y: System, a: Action): System
    requires CanAct(y, a)
  {
    match a
    case Arrive(customer, draft) => y.(requests := y.requests + [Arriving(customer, draft)])
    case Other(op) => y.(store := Step(y.store, op).state)
    case _ =>
      var r := y.requests[a.i];
      System(StoreAfter(y.store, r, a), y.requests[a.i := After(y.store, r, a)])
  }

  ghost predicate Follows(y: System, actions: seq<Action>, z: System)
    decreases |actions|
  {
    if actions == [] then z == y
    else CanAct(y, actions[0]) && Follows(Next(y, actions[0]), actions[1..], z)
  }

  ghost predicate Happens(y: System) {
    exists actions :: Follows(Start, actions, y)
  }

  // ---- What holds of a request ----

  // The license of a request, recorded as its draft.
  ghost predicate IsRecordedAs(store: State, r: Request, encoded: string) {
    && IsTaken(store, r)
    && var row := store.licenses[r.draft.licenseId];
      row.customer == r.customer && row.encoded == encoded && row.succeeds == Succeeded(r.draft.succeeds)
      && row.key == KeyOf(r.draft, row.key.issuedAt) && row.origin == FromConsole
  }

  ghost predicate CustomerHolds(store: State, r: Request) {
    HasExternalId(store.customers, r.customer, r.draft.customerExternalId)
  }

  ghost predicate Holds(store: State, r: Request) {
    match r.stage
    case Arrived => true
    case CustomerRead => CustomerHolds(store, r)
    case FormRead => CustomerHolds(store, r) && OneChoiceOfFeatures(r.draft)
    case IdFree => CustomerHolds(store, r) && OneChoiceOfFeatures(r.draft)
    case Signed(_, _) => CustomerHolds(store, r) && OneChoiceOfFeatures(r.draft)
    case NotTheFirst => OneChoiceOfFeatures(r.draft) && IsTaken(store, r)
    case Answered(answer) => AnswerHolds(store, r, answer)
  }

  ghost predicate AnswerHolds(store: State, r: Request, answer: Answer) {
    match answer
    case KeyShown(encoded) => OneChoiceOfFeatures(r.draft) && IsRecordedAs(store, r, encoded)
    case Redirected => OneChoiceOfFeatures(r.draft) && IsTaken(store, r) && AnswerOfTaken(store, r) == Redirected
    case Refused => OneChoiceOfFeatures(r.draft) && IsTaken(store, r) && AnswerOfTaken(store, r) == Refused
    case TakenByUnreadable => false
    case _ => true
  }

  predicate ShowsKeyOf(r: Request, id: string) {
    r.stage.Answered? && r.stage.answer.KeyShown? && r.draft.licenseId == id
  }

  ghost predicate AllHold(y: System) {
    forall i :: 0 <= i < |y.requests| ==> Holds(y.store, y.requests[i])
  }

  ghost predicate ShownOnce(requests: seq<Request>) {
    forall i, j, id ::
      (0 <= i < |requests| && 0 <= j < |requests| && ShowsKeyOf(requests[i], id) && ShowsKeyOf(requests[j], id)) ==>
        i == j
  }

  predicate FromTheConsole(licenses: map<string, License>, id: string) {
    id in licenses && licenses[id].origin == FromConsole
  }

  ghost predicate IssuedAreShown(store: State, requests: seq<Request>) {
    forall id :: FromTheConsole(store.licenses, id) ==> exists i :: 0 <= i < |requests| && ShowsKeyOf(requests[i], id)
  }

  ghost predicate Inv(y: System) {
    Reachable(y.store) && AllHold(y) && ShownOnce(y.requests) && IssuedAreShown(y.store, y.requests)
  }

  // ---- What holds of a request goes on holding ----

  lemma HoldsOn(s: State, t: State, r: Request)
    requires Holds(s, r) && Links.Stays(s, t)
    ensures Holds(t, r)
  {
    hide IsTheContentOf, KeyOf, OneChoiceOfFeatures;
    var id := r.draft.licenseId;
    assert id in s.licenses ==> id in t.licenses && t.licenses[id] == s.licenses[id];
  }

  lemma AllHoldOn(y: System, t: State)
    requires AllHold(y) && Links.Stays(y.store, t)
    ensures AllHold(y.(store := t))
  {
    hide Holds, Links.Stays;
    forall i | 0 <= i < |y.requests|
      ensures Holds(t, y.requests[i])
    {
      HoldsOn(y.store, t, y.requests[i]);
    }
  }

  lemma OneChanges(y: System, i: nat, r: Request)
    requires AllHold(y) && i < |y.requests| && Holds(y.store, r)
    ensures AllHold(y.(requests := y.requests[i := r]))
  {
    hide Holds;
  }

  // ---- The record of a key ----

  // Before: the id is free of any license. After: the license is recorded as the draft.
  lemma RecordingIsOfTheDraft(store: State, r: Request, operator: string)
    requires Links.Inv(store) && r.stage.Signed? && CustomerHolds(store, r)
    requires RecordIssuedLicense(store, RecordOp(r, operator)).outcome == Added
    ensures !IsTaken(store, r)
    ensures IsRecordedAs(RecordIssuedLicense(store, RecordOp(r, operator)).state,
                         AnsweredWith(r, KeyShown(Trim(r.stage.encoded))), Trim(r.stage.encoded))
  {
    hide FindCustomer, Trim, HasSuccessor, EncodedIsTaken, IssuedAction, Links.KeysNameTheirCustomer,
         Links.KeysAreDistinct, Links.Linked, Links.CustomersAreDistinct, HasExternalId, Succeeded;
    Links.FoundIsTheCustomer(store.customers, r.customer, r.draft.customerExternalId);
  }

  lemma NotAddedIsTaken(store: State, r: Request, operator: string)
    requires r.stage.Signed? && RecordIssuedLicense(store, RecordOp(r, operator)).outcome == NotAdded
    ensures IsTaken(store, r.(stage := NotTheFirst))
  {
    hide FindCustomer, Trim, HasSuccessor, EncodedIsTaken, IssuedAction, Succeeded;
  }

  lemma RecordingHolds(store: State, r: Request, operator: string)
    requires Links.Inv(store) && r.stage.Signed? && Holds(store, r)
    ensures var a := RecordIssuedLicense(store, RecordOp(r, operator));
      Holds(a.state, Recorded(r, a.outcome))
  {
    hide Links.Inv, RecordIssuedLicense, IsRecordedAs, IsTaken, Trim, CustomerHolds, OneChoiceOfFeatures, AnswerOfTaken;
    var a := RecordIssuedLicense(store, RecordOp(r, operator));
    if a.outcome == Added {
      RecordingIsOfTheDraft(store, r, operator);
    } else if a.outcome == NotAdded {
      NotAddedIsTaken(store, r, operator);
      OneLineForARecord(store, RecordOp(r, operator));
    }
  }

  lemma OneLineForARecord(s: State, op: Op)
    requires op.Record?
    ensures RecordIssuedLicense(s, op).outcome != Added ==> RecordIssuedLicense(s, op).state == s
  {
    hide FindCustomer, Trim, HasSuccessor, EncodedIsTaken, IssuedAction, IssuedRow, InsertionOf;
  }

  // ---- One step keeps it all ----

  lemma OtherStepHolds(store: State, r: Request, a: Action)
    requires IsStepOf(r, a) && Holds(store, r) && !a.RecordKey?
    ensures Holds(store, After(store, r, a))
    ensures forall id :: ShowsKeyOf(After(store, r, a), id) <==> ShowsKeyOf(r, id)
  {
    hide IsTheContentOf, KeyOf, OneChoiceOfFeatures, Trim, IsRecordedAs;
  }

  lemma SameShown(requests: seq<Request>, i: nat, r: Request)
    requires ShownOnce(requests) && i < |requests|
    requires forall id :: ShowsKeyOf(r, id) <==> ShowsKeyOf(requests[i], id)
    ensures ShownOnce(requests[i := r])
  {
    hide ShowsKeyOf;
    var after := requests[i := r];
    forall j, k, id | 0 <= j < |after| && 0 <= k < |after| && ShowsKeyOf(after[j], id) && ShowsKeyOf(after[k], id)
      ensures j == k
    {
      assert ShowsKeyOf(requests[j], id) && ShowsKeyOf(requests[k], id);
    }
  }

  lemma StillShown(store: State, requests: seq<Request>, i: nat, r: Request)
    requires IssuedAreShown(store, requests) && i < |requests|
    requires forall id :: ShowsKeyOf(requests[i], id) ==> ShowsKeyOf(r, id)
    ensures IssuedAreShown(store, requests[i := r])
  {
    hide ShowsKeyOf, FromTheConsole;
    var after := requests[i := r];
    forall id | FromTheConsole(store.licenses, id)
      ensures exists k :: 0 <= k < |after| && ShowsKeyOf(after[k], id)
    {
      var k :| 0 <= k < |requests| && ShowsKeyOf(requests[k], id);
      assert ShowsKeyOf(after[k], id);
    }
  }

  lemma StepOfRequestKeeps(y: System, a: Action)
    requires Inv(y) && CanAct(y, a) && !a.Arrive? && !a.Other? && !a.RecordKey?
    ensures Inv(Next(y, a))
  {
    hide Reachable, AllHold, ShownOnce, IssuedAreShown, Holds, After, ShowsKeyOf, IsStepOf;
    var r := y.requests[a.i];
    RequestHolds(y, a.i);
    OtherStepHolds(y.store, r, a);
    var next := After(y.store, r, a);
    OneChanges(y, a.i, next);
    SameShown(y.requests, a.i, next);
    StillShown(y.store, y.requests, a.i, next);
  }

  lemma RequestHolds(y: System, i: nat)
    requires AllHold(y) && i < |y.requests|
    ensures Holds(y.store, y.requests[i])
  {
  }

  // ---- The record ----

  lemma ShownIsTaken(y: System, id: string)
    requires AllHold(y) && id !in y.store.licenses
    ensures forall i :: 0 <= i < |y.requests| ==> !ShowsKeyOf(y.requests[i], id)
  {
    hide IsTheContentOf, KeyOf, OneChoiceOfFeatures, CustomerHolds;
    forall i | 0 <= i < |y.requests|
      ensures !ShowsKeyOf(y.requests[i], id)
    {
      RequestHolds(y, i);
    }
  }

  lemma FirstShown(requests: seq<Request>, i: nat, r: Request, id: string)
    requires ShownOnce(requests) && i < |requests| && r.draft.licenseId == id
    requires forall k :: 0 <= k < |requests| ==> !ShowsKeyOf(requests[k], id)
    ensures ShownOnce(requests[i := r])
  {
    var after := requests[i := r];
    forall j, k, other |
      0 <= j < |after| && 0 <= k < |after| && ShowsKeyOf(after[j], other) && ShowsKeyOf(after[k], other)
      ensures j == k
    {
      if other == id {
        assert j == i && k == i;
      } else {
        assert ShowsKeyOf(requests[j], other) && ShowsKeyOf(requests[k], other);
      }
    }
  }

  lemma AddedIsShown(store: State, t: State, requests: seq<Request>, i: nat, r: Request, id: string)
    requires IssuedAreShown(store, requests) && i < |requests| && ShowsKeyOf(r, id)
    requires forall other :: FromTheConsole(t.licenses, other) && other != id ==> FromTheConsole(store.licenses, other)
    requires forall other :: !ShowsKeyOf(requests[i], other)
    ensures IssuedAreShown(t, requests[i := r])
  {
    hide ShowsKeyOf, FromTheConsole;
    var after := requests[i := r];
    forall other | FromTheConsole(t.licenses, other)
      ensures exists k :: 0 <= k < |after| && ShowsKeyOf(after[k], other)
    {
      if other == id {
        assert ShowsKeyOf(after[i], other);
      } else {
        var k :| 0 <= k < |requests| && ShowsKeyOf(requests[k], other);
        assert ShowsKeyOf(after[k], other);
      }
    }
  }

  lemma OnlyItsIdIsAdded(store: State, op: Op)
    requires op.Record?
    ensures forall other ::
              FromTheConsole(RecordIssuedLicense(store, op).state.licenses, other) && other != op.key.id ==>
                FromTheConsole(store.licenses, other)
  {
    hide FindCustomer, Trim, HasSuccessor, EncodedIsTaken, IssuedAction, Succeeded, IssuedRow, InsertionOf;
  }

  // What the record of a key makes of the store and of the request.
  lemma RecordStep(y: System, a: Action)
    requires CanAct(y, a) && a.RecordKey?
    ensures var r := y.requests[a.i]; var answer := RecordIssuedLicense(y.store, RecordOp(r, a.operator));
      Next(y, a) == System(answer.state, y.requests[a.i := Recorded(r, answer.outcome)])
  {
    hide RecordIssuedLicense, Recorded;
  }

  lemma RecordKeeps(y: System, a: Action)
    requires Inv(y) && CanAct(y, a) && a.RecordKey?
    ensures Inv(Next(y, a))
  {
    hide Reachable, ShownOnce, IssuedAreShown, Holds, AllHold, Next, RecordIssuedLicense, Links.Inv;
    RecordStep(y, a);
    Links.RegistryIsLinked(y.store);
    var r := y.requests[a.i];
    var op := RecordOp(r, a.operator);
    ReachesOnRecord(y.store, op);
    RequestHolds(y, a.i);
    RecordingHolds(y.store, r, a.operator);
    Links.RecordStays(y.store, op);
    AllHoldOn(y, RecordIssuedLicense(y.store, op).state);
    OneChanges(y.(store := RecordIssuedLicense(y.store, op).state), a.i,
               Recorded(r, RecordIssuedLicense(y.store, op).outcome));
    ShownAfterRecord(y, a.i, a.operator);
  }

  lemma ReachesOnRecord(s: State, op: Op)
    requires Reachable(s) && op.Record?
    ensures Reachable(RecordIssuedLicense(s, op).state)
  {
    hide Reachable, RecordIssuedLicense;
    ReachesOn(s, op);
  }

  lemma ShownAfterRecord(y: System, i: nat, operator: string)
    requires Reachable(y.store) && AllHold(y) && ShownOnce(y.requests) && IssuedAreShown(y.store, y.requests)
    requires i < |y.requests| && y.requests[i].stage.Signed?
    ensures var r := y.requests[i]; var answer := RecordIssuedLicense(y.store, RecordOp(r, operator));
      var after := y.requests[i := Recorded(r, answer.outcome)];
      ShownOnce(after) && IssuedAreShown(answer.state, after)
  {
    hide Reachable, ShownOnce, IssuedAreShown, AllHold, RecordIssuedLicense, Trim, FromTheConsole, Links.Inv;
    var r := y.requests[i];
    var op := RecordOp(r, operator);
    var answer := RecordIssuedLicense(y.store, op);
    var next := Recorded(r, answer.outcome);
    if answer.outcome == Added {
      Links.RegistryIsLinked(y.store);
      RequestHolds(y, i);
      RecordingIsOfTheDraft(y.store, r, operator);
      ShownIsTaken(y, r.draft.licenseId);
      FirstShown(y.requests, i, next, r.draft.licenseId);
      OnlyItsIdIsAdded(y.store, op);
      AddedIsShown(y.store, answer.state, y.requests, i, next, r.draft.licenseId);
    } else {
      OneLineForARecord(y.store, op);
      SameShown(y.requests, i, next);
      StillShown(y.store, y.requests, i, next);
    }
  }

  // ---- Another act, another request ----

  lemma NothingIssued(s: State, op: Op)
    requires !op.Record?
    ensures forall id :: FromTheConsole(Step(s, op).state.licenses, id) ==> FromTheConsole(s.licenses, id)
  {
    hide FindCustomer, Trim, HasSuccessor, EncodedIsTaken, CustomerOfKey, WithCustomerOfKey;
    if op.Import? {
      Links.UpsertLeavesLicenses(s, op.key, op.drawn);
    }
  }

  lemma OtherKeeps(y: System, op: Op)
    requires Inv(y) && !op.Record? && CanHappen(y.store, op)
    ensures Inv(y.(store := Step(y.store, op).state))
  {
    hide Reachable, Step, CanHappen, AllHold, ShownOnce, FromTheConsole, ShowsKeyOf, Links.Stays;
    ReachesOn(y.store, op);
    Links.StepStays(y.store, op);
    AllHoldOn(y, Step(y.store, op).state);
    NothingIssued(y.store, op);
  }

  lemma ArrivalKeeps(y: System, customer: nat, draft: Draft)
    requires Inv(y)
    ensures Inv(y.(requests := y.requests + [Arriving(customer, draft)]))
  {
    hide Reachable;
    var r := Arriving(customer, draft);
    var after := y.requests + [r];
    assert Holds(y.store, r);
    ArrivalHolds(y, r);
    ArrivalShowsNothing(y.requests, r);
    ArrivalLeavesShown(y.store, y.requests, r);
  }

  lemma ArrivalHolds(y: System, r: Request)
    requires AllHold(y) && Holds(y.store, r)
    ensures AllHold(y.(requests := y.requests + [r]))
  {
    hide Holds;
  }

  lemma ArrivalShowsNothing(requests: seq<Request>, r: Request)
    requires ShownOnce(requests) && forall id :: !ShowsKeyOf(r, id)
    ensures ShownOnce(requests + [r])
  {
    hide ShowsKeyOf;
    var after := requests + [r];
    forall j, k, id | 0 <= j < |after| && 0 <= k < |after| && ShowsKeyOf(after[j], id) && ShowsKeyOf(after[k], id)
      ensures j == k
    {
      assert ShowsKeyOf(requests[j], id) && ShowsKeyOf(requests[k], id);
    }
  }

  lemma ArrivalLeavesShown(store: State, requests: seq<Request>, r: Request)
    requires IssuedAreShown(store, requests)
    ensures IssuedAreShown(store, requests + [r])
  {
    hide ShowsKeyOf, FromTheConsole;
    var after := requests + [r];
    forall id | FromTheConsole(store.licenses, id)
      ensures exists k :: 0 <= k < |after| && ShowsKeyOf(after[k], id)
    {
      var k :| 0 <= k < |requests| && ShowsKeyOf(requests[k], id);
      assert ShowsKeyOf(after[k], id);
    }
  }

  lemma NextKeeps(y: System, a: Action)
    requires Inv(y) && CanAct(y, a)
    ensures Inv(Next(y, a))
  {
    hide Inv, Step, StoreAfter, After, Arriving, CanHappen, IsStepOf;
    match a
    case Arrive(customer, draft) => ArrivalKeeps(y, customer, draft);
    case Other(op) => OtherKeeps(y, op);
    case RecordKey(_, _) => RecordKeeps(y, a);
    case _ => StepOfRequestKeeps(y, a);
  }

  lemma {:induction false} FollowsKeeps(y: System, actions: seq<Action>, z: System)
    requires Inv(y) && Follows(y, actions, z)
    ensures Inv(z)
    decreases |actions|
  {
    hide Inv, Next, CanAct;
    if actions == [] {
    } else {
      NextKeeps(y, actions[0]);
      FollowsKeeps(Next(y, actions[0]), actions[1..], z);
    }
  }

  lemma StartHolds()
    ensures Inv(Start)
  {
    assert CanRun(Empty, []) && Run(Empty, []) == Empty;
  }

  lemma InvHolds(y: System)
    requires Happens(y)
    ensures Inv(y)
  {
    hide Inv, Follows;
    StartHolds();
    var actions :| Follows(Start, actions, y);
    FollowsKeeps(Start, actions, y);
  }

  // ---- What every interleaving gives ----

  // Every license issued from the console is shown by exactly one confirmation, with the value kept of
  // it, recorded for the customer and with the content that confirmation asked for.
  lemma ShownByExactlyOne(y: System, id: string)
    requires Happens(y)
    ensures FromTheConsole(y.store.licenses, id) <==> exists i :: 0 <= i < |y.requests| && ShowsKeyOf(y.requests[i], id)
    ensures forall i, j ::
              (0 <= i < |y.requests| && 0 <= j < |y.requests| && ShowsKeyOf(y.requests[i], id)
               && ShowsKeyOf(y.requests[j], id)) ==> i == j
    ensures forall i :: 0 <= i < |y.requests| && ShowsKeyOf(y.requests[i], id) ==>
              IsRecordedAs(y.store, y.requests[i], y.requests[i].stage.answer.encoded)
  {
    hide Happens, Reachable, OneChoiceOfFeatures, IsTheContentOf, KeyOf;
    InvHolds(y);
    forall i | 0 <= i < |y.requests| && ShowsKeyOf(y.requests[i], id)
      ensures IsRecordedAs(y.store, y.requests[i], y.requests[i].stage.answer.encoded)
      ensures FromTheConsole(y.store.licenses, id)
    {
      RequestHolds(y, i);
    }
  }

  // The row of an id that is taken can always be read back: that failure of a confirmation is dead.
  lemma TakenIsAlwaysReadable(y: System, i: nat)
    requires Happens(y) && i < |y.requests|
    ensures y.requests[i].stage != Answered(TakenByUnreadable)
    ensures y.requests[i].stage == NotTheFirst ==> IsTaken(y.store, y.requests[i])
  {
    hide Happens, Reachable, OneChoiceOfFeatures, IsTheContentOf, KeyOf, ShownOnce, IssuedAreShown;
    InvHolds(y);
    RequestHolds(y, i);
  }

  // Whatever the requests do, the store is one the registry reaches.
  lemma StoreIsReachable(y: System)
    requires Happens(y)
    ensures Reachable(y.store)
  {
    hide Happens, Reachable, AllHold, ShownOnce, IssuedAreShown;
    InvHolds(y);
  }
}
