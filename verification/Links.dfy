// What holds of the customers and the licenses in every state the registry reaches: keys name their
// customer for ever, and the licenses that succeed one another form lines.
module Links {
  import opened Wrappers
  import opened Licensing
  import opened Registry
  import opened Texts

  // No two customers of one external id.
  ghost predicate CustomersAreDistinct(customers: map<nat, Customer>) {
    forall c, d :: c in customers && d in customers && customers[c].externalId == customers[d].externalId ==> c == d
  }

  // A license is of the customer its key names.
  ghost predicate KeysNameTheirCustomer(customers: map<nat, Customer>, licenses: map<string, License>) {
    forall id :: id in licenses ==>
      HasExternalId(customers, licenses[id].customer, licenses[id].key.customerId) && licenses[id].key.id == id
  }

  ghost predicate KeysAreDistinct(licenses: map<string, License>) {
    forall a, b :: a in licenses && b in licenses && licenses[a].encoded == licenses[b].encoded ==> a == b
  }

  // A license succeeds one of its customer, recorded before it.
  ghost predicate LinksGoBack(licenses: map<string, License>) {
    && (forall id :: id in licenses ==> licenses[id].rank < |licenses|)
    && (forall id, previous :: Succeeds(licenses, id, previous) ==>
          previous in licenses && licenses[previous].customer == licenses[id].customer
          && licenses[previous].rank < licenses[id].rank)
  }

  // A license has one successor at most.
  ghost predicate OneSuccessor(licenses: map<string, License>) {
    forall a, b, previous :: Succeeds(licenses, a, previous) && Succeeds(licenses, b, previous) ==> a == b
  }

  ghost predicate Linked(licenses: map<string, License>) {
    LinksGoBack(licenses) && OneSuccessor(licenses)
  }

  ghost predicate Inv(s: State) {
    && CustomersAreDistinct(s.customers)
    && KeysNameTheirCustomer(s.customers, s.licenses)
    && KeysAreDistinct(s.licenses)
    && Linked(s.licenses)
  }

  // ---- The customer found is the one there is ----

  lemma FoundIsTheCustomer(customers: map<nat, Customer>, c: nat, externalId: string)
    requires CustomersAreDistinct(customers) && HasExternalId(customers, c, externalId)
    ensures FindCustomer(customers, externalId) == Some(c)
  {
  }

  lemma FoundHasTheId(customers: map<nat, Customer>, externalId: string)
    ensures FindCustomer(customers, externalId).Some? ==>
              HasExternalId(customers, FindCustomer(customers, externalId).value, externalId)
    ensures FindCustomer(customers, externalId).None? ==>
              forall c :: c in customers ==> customers[c].externalId != externalId
  {
    if c :| c in customers && customers[c].externalId == externalId {
      assert HasExternalId(customers, c, externalId);
    }
  }

  // ---- A new customer, a renamed customer ----

  lemma NewCustomerKeeps(s: State, c: nat, customer: Customer)
    requires Inv(s) && c !in s.customers
    requires FindCustomer(s.customers, customer.externalId).None?
    ensures Inv(WithCustomer(s, c, customer))
  {
    hide FindCustomer, Linked, KeysAreDistinct;
    FoundHasTheId(s.customers, customer.externalId);
  }

  lemma RenamingKeeps(s: State, c: nat, customer: Customer)
    requires Inv(s) && c in s.customers && customer.externalId == s.customers[c].externalId
    ensures Inv(WithCustomer(s, c, customer))
  {
    hide FindCustomer, Linked, KeysAreDistinct;
  }

  // ---- A new license ----

  predicate GoesBack(licenses: map<string, License>, row: License) {
    && row.rank == |licenses|
    && (row.succeeds.Some? ==>
          row.succeeds.value in licenses && licenses[row.succeeds.value].customer == row.customer)
  }

  lemma NewLinkGoesBack(licenses: map<string, License>, id: string, row: License)
    requires LinksGoBack(licenses) && id !in licenses && GoesBack(licenses, row)
    ensures LinksGoBack(licenses[id := row])
  {
    var after := licenses[id := row];
    assert after.Keys == licenses.Keys + {id};
    forall a, previous | Succeeds(after, a, previous)
      ensures previous in after && after[previous].customer == after[a].customer && after[previous].rank < after[a].rank
    {
      if a != id {
        assert Succeeds(licenses, a, previous);
      }
    }
  }

  lemma NewLinkIsTheOnlyOne(licenses: map<string, License>, id: string, row: License)
    requires OneSuccessor(licenses) && id !in licenses
    requires row.succeeds.Some? ==> !HasSuccessor(licenses, row.succeeds.value)
    ensures OneSuccessor(licenses[id := row])
  {
    var after := licenses[id := row];
    forall a, b, previous | Succeeds(after, a, previous) && Succeeds(after, b, previous)
      ensures a == b
    {
      if a != id {
        assert Succeeds(licenses, a, previous);
      }
      if b != id {
        assert Succeeds(licenses, b, previous);
      }
    }
  }

  lemma NewKeyIsDistinct(licenses: map<string, License>, id: string, row: License)
    requires KeysAreDistinct(licenses) && id !in licenses && !EncodedIsTaken(licenses, row.encoded)
    ensures KeysAreDistinct(licenses[id := row])
  {
  }

  lemma NewKeyNamesItsCustomer(customers: map<nat, Customer>, licenses: map<string, License>, id: string, row: License)
    requires KeysNameTheirCustomer(customers, licenses)
    requires HasExternalId(customers, row.customer, row.key.customerId) && row.key.id == id
    ensures KeysNameTheirCustomer(customers, licenses[id := row])
  {
    hide HasExternalId;
  }

  lemma NewLicenseKeeps(s: State, id: string, row: License)
    requires Inv(s) && InsertionOf(s.licenses, id, row) == Inserted && GoesBack(s.licenses, row)
    requires HasExternalId(s.customers, row.customer, row.key.customerId) && row.key.id == id
    ensures Inv(WithLicense(s, id, row))
  {
    hide KeysNameTheirCustomer, KeysAreDistinct, LinksGoBack, OneSuccessor, CustomersAreDistinct, HasExternalId,
         GoesBack, EncodedIsTaken, HasSuccessor;
    NewLinkGoesBack(s.licenses, id, row);
    NewLinkIsTheOnlyOne(s.licenses, id, row);
    NewKeyIsDistinct(s.licenses, id, row);
    NewKeyNamesItsCustomer(s.customers, s.licenses, id, row);
  }

  // ---- Each operation ----

  lemma CreateKeeps(s: State, op: Op)
    requires Inv(s) && op.Create? && CanHappen(s, op)
    ensures Inv(CreateCustomer(s, op).state)
  {
    hide FindCustomer, Trim, CustomersAreDistinct, KeysNameTheirCustomer, KeysAreDistinct, Linked, WithCustomer;
    var externalId, name := Trim(op.externalId), Trim(op.name);
    if externalId != "" && name != "" && FindCustomer(s.customers, externalId).None? {
      NewCustomerKeeps(s, op.drawn, Customer(externalId, name, op.note));
    }
  }

  lemma UpdateKeeps(s: State, op: Op)
    requires Inv(s) && op.Update?
    ensures Inv(UpdateCustomer(s, op).state)
  {
    hide Trim, CustomersAreDistinct, KeysNameTheirCustomer, KeysAreDistinct, Linked, WithCustomer;
    if op.customer in s.customers {
      RenamingKeeps(s, op.customer, s.customers[op.customer].(name := Trim(op.name), note := op.note));
    }
  }

  lemma UpsertKeeps(s: State, key: Key, drawn: nat)
    requires Inv(s) && drawn !in s.customers
    ensures Inv(WithCustomerOfKey(s, key, drawn))
    ensures HasExternalId(WithCustomerOfKey(s, key, drawn).customers, CustomerOfKey(s, key, drawn), key.customerId)
    ensures WithCustomerOfKey(s, key, drawn).licenses == s.licenses
  {
    hide FindCustomer, CustomersAreDistinct, KeysNameTheirCustomer, KeysAreDistinct, Linked;
    FoundHasTheId(s.customers, key.customerId);
    if FindCustomer(s.customers, key.customerId).None? {
      NewCustomerKeeps(s, drawn, Customer(key.customerId, key.issuedTo, ""));
    }
  }

  lemma ImportKeeps(s: State, op: Op)
    requires Inv(s) && op.Import? && CanHappen(s, op)
    ensures Inv(AddLicense(s, op).state)
  {
    hide Inv, InsertionOf, HasExternalId, WithCustomerOfKey, CustomerOfKey, WithLicense;
    UpsertKeeps(s, op.key, op.drawn);
    var row := ImportedRow(s, CustomerOfKey(s, op.key, op.drawn), op);
    if InsertionOf(s.licenses, op.key.id, row) == Inserted {
      NewLicenseKeeps(WithCustomerOfKey(s, op.key, op.drawn), op.key.id, row);
    }
  }

  lemma RecordKeeps(s: State, op: Op)
    requires Inv(s) && op.Record?
    ensures Inv(RecordIssuedLicense(s, op).state)
  {
    hide InsertionOf, HasExternalId, FindCustomer, Trim, WithLicense, CustomersAreDistinct, KeysNameTheirCustomer,
         KeysAreDistinct, Linked, IssuedAction;
    FoundHasTheId(s.customers, op.key.customerId);
    if RecordIssuedLicense(s, op).outcome == Added {
      var row := IssuedRow(s, FindCustomer(s.customers, op.key.customerId).value, op);
      NewLicenseKeeps(s, op.key.id, row);
    }
  }

  lemma StepKeepsInv(s: State, op: Op)
    requires Inv(s) && CanHappen(s, op)
    ensures Inv(Step(s, op).state)
  {
    hide CreateCustomer, UpdateCustomer, AddLicense, RecordIssuedLicense, CanHappen, CustomersAreDistinct,
         KeysNameTheirCustomer, KeysAreDistinct, Linked;
    match op
    case Create(_, _, _, _, _, _) => CreateKeeps(s, op);
    case Update(_, _, _, _, _) => UpdateKeeps(s, op);
    case Import(_, _, _, _) => ImportKeeps(s, op);
    case Record(_, _, _, _, _, _) => RecordKeeps(s, op);
    case Show(_, _, _) =>
  }

  // In every state the registry reaches: one customer per external id, every key kept is of the
  // customer it names and is kept once, a license succeeds one of its own customer recorded before
  // it, and has one successor at most.
  lemma RegistryIsLinked(s: State)
    requires Reachable(s)
    ensures Inv(s)
  {
    hide Step, CanHappen, CanRun, Run;
    var ops :| CanRun(Empty, ops) && Run(Empty, ops) == s;
    forall t, op | Inv(t) && CanHappen(t, op)
      ensures Inv(Step(t, op).state)
    {
      StepKeepsInv(t, op);
    }
    RunKeeps(Empty, ops, t => Inv(t));
  }

  // ---- What is recorded stays ----

  // A license keeps its row and a customer its external id.
  ghost predicate Stays(s: State, t: State) {
    && (forall id :: id in s.licenses ==> id in t.licenses && t.licenses[id] == s.licenses[id])
    && (forall c :: c in s.customers ==> HasExternalId(t.customers, c, s.customers[c].externalId))
    && s.journal <= t.journal
  }

  lemma UpsertStays(s: State, key: Key, drawn: nat)
    requires drawn !in s.customers
    ensures Stays(s, WithCustomerOfKey(s, key, drawn))
  {
    hide FindCustomer;
  }

  lemma ImportStays(s: State, op: Op)
    requires op.Import? && CanHappen(s, op)
    ensures Stays(s, AddLicense(s, op).state)
  {
    hide FindCustomer, HasSuccessor, EncodedIsTaken, WithCustomerOfKey, CustomerOfKey;
    UpsertStays(s, op.key, op.drawn);
    assert WithCustomerOfKey(s, op.key, op.drawn).licenses == s.licenses by {
      UpsertLeavesLicenses(s, op.key, op.drawn);
    }
  }

  lemma UpsertLeavesLicenses(s: State, key: Key, drawn: nat)
    ensures WithCustomerOfKey(s, key, drawn).licenses == s.licenses
  {
    hide FindCustomer;
  }

  lemma RecordStays(s: State, op: Op)
    requires op.Record?
    ensures Stays(s, RecordIssuedLicense(s, op).state)
  {
    hide FindCustomer, HasSuccessor, EncodedIsTaken, Trim, IssuedAction;
  }

  lemma StepStays(s: State, op: Op)
    requires CanHappen(s, op)
    ensures Stays(s, Step(s, op).state)
  {
    hide FindCustomer, Trim, AddLicense, RecordIssuedLicense;
    match op
    case Import(_, _, _, _) => ImportStays(s, op);
    case Record(_, _, _, _, _, _) => RecordStays(s, op);
    case _ =>
  }

  // Whatever follows, the row of a license, the external id of a customer and the lines of the journal
  // are never changed nor deleted.
  lemma {:induction false} RunStays(s: State, ops: seq<Op>)
    requires CanRun(s, ops)
    ensures Stays(s, Run(s, ops))
    decreases |ops|
  {
    hide Step, CanHappen, HasExternalId, Stays;
    if ops == [] {
      StaysItself(s);
    } else {
      var t := Step(s, ops[0]).state;
      StepStays(s, ops[0]);
      RunStays(t, ops[1..]);
      StaysOn(s, t, Run(s, ops));
    }
  }

  lemma StaysItself(s: State)
    ensures Stays(s, s)
  {
  }

  lemma StaysOn(s: State, t: State, u: State)
    requires Stays(s, t) && Stays(t, u)
    ensures Stays(s, u)
  {
  }

  // ---- What was done is not done again, nor undone ----

  lemma AddedTakes(s: State, op: Op, id: string)
    requires op.Record? && Step(s, op).outcome == Added && id == op.key.id
    ensures var licenses := Step(s, op).state.licenses;
            && id in licenses && licenses[id].encoded == Trim(op.encoded)
            && (op.succeeds != "" ==> licenses[id].succeeds == Some(op.succeeds))
  {
    hide FindCustomer, HasSuccessor, EncodedIsTaken, Trim, IssuedAction;
  }

  // A license issued, nothing is issued ever after under its id, of its value, or to succeed the license
  // it succeeds.
  lemma NeverIssuedAgain(s: State, op: Op, ops: seq<Op>, later: Op)
    requires op.Record? && later.Record? && Step(s, op).outcome == Added && CanRun(Step(s, op).state, ops)
    requires || later.key.id == op.key.id || Trim(later.encoded) == Trim(op.encoded)
             || (later.succeeds == op.succeeds && op.succeeds != "")
    ensures Step(Run(Step(s, op).state, ops), later).outcome != Added
  {
    hide Step, CanRun, Run, Trim, FindCustomer;
    var id, after := op.key.id, Run(Step(s, op).state, ops);
    AddedTakes(s, op, id);
    RunStays(Step(s, op).state, ops);
    assert id in after.licenses && after.licenses[id] == Step(s, op).state.licenses[id];
    assert op.succeeds != "" ==> Succeeds(after.licenses, id, op.succeeds);
    IssuedExactlyWhen(after, later);
  }

  lemma LeavesCustomer(s: State, op: Op, c: nat)
    requires CanHappen(s, op) && c in s.customers && !(op.Update? && op.customer == c)
    ensures c in Step(s, op).state.customers && Step(s, op).state.customers[c] == s.customers[c]
  {
    hide FindCustomer, HasSuccessor, EncodedIsTaken, Trim, IssuedAction, CustomerOfKey;
  }

  lemma {:induction false} CustomerStays(s: State, ops: seq<Op>, c: nat)
    requires CanRun(s, ops) && c in s.customers
    requires forall op :: op in ops ==> !(op.Update? && op.customer == c)
    ensures c in Run(s, ops).customers && Run(s, ops).customers[c] == s.customers[c]
    decreases |ops|
  {
    hide Step, CanHappen;
    if ops != [] {
      LeavesCustomer(s, ops[0], c);
      CustomerStays(Step(s, ops[0]).state, ops[1..], c);
    }
  }

  // A customer bears the name and the note of the last act on it that was done, trimmed, whatever else
  // happens: other customers, imports and licenses change neither.
  lemma CustomerIsAsLastSaid(s: State, op: Op, ops: seq<Op>, c: nat)
    requires CanHappen(s, op) && Step(s, op).outcome == Done(c) && CanRun(Step(s, op).state, ops)
    requires forall other :: other in ops ==> !(other.Update? && other.customer == c)
    ensures op.Create? || op.Update?
    ensures c in Run(Step(s, op).state, ops).customers
    ensures var customer := Run(Step(s, op).state, ops).customers[c];
            && customer.name == Trim(op.name) && customer.note == op.note
            && customer.externalId == if op.Create? then Trim(op.externalId) else s.customers[c].externalId
  {
    DoneIsAnAct(s, op, c);
    DoneIsStored(s, op);
    hide Step, CanHappen, CanRun, Run, Trim;
    CustomerStays(Step(s, op).state, ops, c);
  }

  lemma DoneIsAnAct(s: State, op: Op, c: nat)
    requires Step(s, op).outcome == Done(c)
    ensures (op.Create? && op.drawn == c) || (op.Update? && op.customer == c && c in s.customers)
  {
    hide FindCustomer, InsertionOf, Trim, IssuedAction, CustomerOfKey;
  }

  // ---- No constraint is met that the registry does not tell of ----

  // A key is what its encoded value reads as.
  ghost predicate ReadsAs(meaning: string -> Key, op: Op) {
    match op
    case Import(key, encoded, _, _) => key == meaning(encoded)
    case Record(_, key, encoded, _, _, _) => key == meaning(Trim(encoded))
    case _ => true
  }

  ghost predicate AllReadAs(meaning: string -> Key, licenses: map<string, License>) {
    forall id :: id in licenses ==> licenses[id].key == meaning(licenses[id].encoded) && licenses[id].key.id == id
  }

  // A value that is kept is kept under the id its key bears: the id is met first.
  lemma IdIsMetFirst(meaning: string -> Key, licenses: map<string, License>, row: License)
    requires AllReadAs(meaning, licenses) && row.key == meaning(row.encoded)
    ensures InsertionOf(licenses, row.key.id, row) != EncodedTwice
  {
    hide HasSuccessor;
  }

  lemma ImportReads(meaning: string -> Key, s: State, op: Op)
    requires AllReadAs(meaning, s.licenses) && ReadsAs(meaning, op) && op.Import?
    ensures AllReadAs(meaning, AddLicense(s, op).state.licenses) && AddLicense(s, op).outcome != Broken
  {
    hide FindCustomer, HasSuccessor, EncodedIsTaken, WithCustomerOfKey, CustomerOfKey;
    UpsertLeavesLicenses(s, op.key, op.drawn);
    IdIsMetFirst(meaning, s.licenses, ImportedRow(s, CustomerOfKey(s, op.key, op.drawn), op));
  }

  lemma RecordReads(meaning: string -> Key, s: State, op: Op)
    requires AllReadAs(meaning, s.licenses) && ReadsAs(meaning, op) && op.Record?
    ensures AllReadAs(meaning, RecordIssuedLicense(s, op).state.licenses)
    ensures RecordIssuedLicense(s, op).outcome != Broken
  {
    hide FindCustomer, HasSuccessor, EncodedIsTaken, Trim, IssuedAction, Succeeded;
    if FindCustomer(s.customers, op.key.customerId).Some? {
      IdIsMetFirst(meaning, s.licenses, IssuedRow(s, FindCustomer(s.customers, op.key.customerId).value, op));
    }
  }

  lemma StepReads(meaning: string -> Key, s: State, op: Op)
    requires AllReadAs(meaning, s.licenses) && ReadsAs(meaning, op)
    ensures AllReadAs(meaning, Step(s, op).state.licenses) && Step(s, op).outcome != Broken
  {
    hide AddLicense, RecordIssuedLicense, AllReadAs, ReadsAs, FindCustomer, Trim;
    match op
    case Import(_, _, _, _) => ImportReads(meaning, s, op);
    case Record(_, _, _, _, _, _) => RecordReads(meaning, s, op);
    case _ =>
  }

  // As long as each key is what its encoded value reads as, no write ever fails on a value kept twice:
  // what is recorded again is left alone on its id.
  lemma {:induction false} NeverBroken(meaning: string -> Key, s: State, ops: seq<Op>, op: Op)
    requires AllReadAs(meaning, s.licenses) && CanRun(s, ops) && CanHappen(Run(s, ops), op)
    requires ReadsAs(meaning, op) && forall earlier :: earlier in ops ==> ReadsAs(meaning, earlier)
    ensures Step(Run(s, ops), op).outcome != Broken
    decreases |ops|
  {
    hide Step, CanHappen, ReadsAs, AllReadAs;
    if ops == [] {
      StepReads(meaning, s, op);
    } else {
      StepReads(meaning, s, ops[0]);
      NeverBroken(meaning, Step(s, ops[0]).state, ops[1..], op);
    }
  }
}
