// When each act on the registry gets which outcome, and what it leaves, told of the rows alone.
module RegistryOutcomes {
  import opened Wrappers
  import opened Licensing
  import opened Registry
  import opened Texts
  import Links

  ghost predicate IsACustomer(s: State, externalId: string) {
    exists c :: HasExternalId(s.customers, c, externalId)
  }

  lemma FoundIfThere(s: State, externalId: string)
    ensures FindCustomer(s.customers, externalId).Some? <==> IsACustomer(s, externalId)
  {
  }

  // Only the customer c may differ.
  ghost predicate SameOtherCustomers(s: State, t: State, c: nat) {
    && (forall d :: d != c ==> (d in t.customers <==> d in s.customers))
    && (forall d :: d != c && d in s.customers ==> t.customers[d] == s.customers[d])
  }

  // Only the license `id` may differ.
  ghost predicate SameOtherLicenses(s: State, t: State, id: string) {
    && (forall other :: other != id ==> (other in t.licenses <==> other in s.licenses))
    && (forall other :: other != id && other in s.licenses ==> t.licenses[other] == s.licenses[other])
  }

  // A customer is created unless a name is missing or its external id is there already.
  lemma CreateTells(s: State, op: Op)
    requires op.Create?
    ensures var a := Step(s, op);
            var incomplete := Trim(op.externalId) == "" || Trim(op.name) == "";
            var taken := IsACustomer(s, Trim(op.externalId));
            && (a.outcome == CustomerIncomplete <==> incomplete)
            && (a.outcome == CustomerExists <==> !incomplete && taken)
            && (a.outcome == Done(op.drawn) <==> !incomplete && !taken)
            && (incomplete || taken ==> a.state == s)
            && (!incomplete && !taken ==>
                  && op.drawn in a.state.customers && SameOtherCustomers(s, a.state, op.drawn)
                  && a.state.customers[op.drawn] == Customer(Trim(op.externalId), Trim(op.name), op.note)
                  && a.state.licenses == s.licenses)
  {
    hide FindCustomer, Trim, IsACustomer;
    FoundIfThere(s, Trim(op.externalId));
  }

  // A customer is renamed unless the name is missing, it is not there, or the trimmed name and the note
  // are both those stored.
  lemma UpdateTells(s: State, op: Op)
    requires op.Update?
    ensures var a := Step(s, op);
            var there := op.customer in s.customers;
            var same := there && s.customers[op.customer].name == Trim(op.name)
                        && s.customers[op.customer].note == op.note;
            && (a.outcome == CustomerIncomplete <==> Trim(op.name) == "")
            && (a.outcome == NotFound <==> Trim(op.name) != "" && !there)
            && (a.outcome == Unchanged <==> Trim(op.name) != "" && same)
            && (a.outcome == Done(op.customer) <==> Trim(op.name) != "" && there && !same)
            && (a.outcome != Done(op.customer) ==> a.state == s)
            && (a.outcome == Done(op.customer) ==>
                  && op.customer in a.state.customers && SameOtherCustomers(s, a.state, op.customer)
                  && a.state.customers[op.customer] ==
                     Customer(s.customers[op.customer].externalId, Trim(op.name), op.note)
                  && a.state.licenses == s.licenses)
  {
    hide FindCustomer, Trim;
  }

  // A license of the registry file is added unless its id is there; one that is not and has a value that
  // is kept breaks, and leaves nothing.
  lemma ImportTells(s: State, op: Op)
    requires op.Import? && CanHappen(s, op)
    ensures var a := Step(s, op);
            var there := op.key.id in s.licenses;
            && (a.outcome == NotAdded <==> there)
            && (a.outcome == Broken <==> !there && EncodedIsTaken(s.licenses, op.encoded))
            && (a.outcome == Added <==> !there && !EncodedIsTaken(s.licenses, op.encoded))
            && (a.outcome == Broken ==> a.state == s)
            && (a.outcome == NotAdded ==> a.state.licenses == s.licenses)
            && (a.outcome == Added ==>
                  && op.key.id in a.state.licenses && SameOtherLicenses(s, a.state, op.key.id)
                  && var row := a.state.licenses[op.key.id];
                     && row.encoded == op.encoded && row.key == op.key && row.note == op.note
                     && row.origin == FromRegistry && row.succeeds == None
                     && HasExternalId(a.state.customers, row.customer, op.key.customerId))
  {
    hide FindCustomer, EncodedIsTaken, HasSuccessor, WithCustomerOfKey, CustomerOfKey;
    Links.UpsertLeavesLicenses(s, op.key, op.drawn);
    CustomerOfAKeyIsThere(s, op.key, op.drawn);
  }

  lemma CustomerOfAKeyIsThere(s: State, key: Key, drawn: nat)
    ensures HasExternalId(WithCustomerOfKey(s, key, drawn).customers, CustomerOfKey(s, key, drawn), key.customerId)
  {
  }

  // The customer of a license of the registry file is created when it is not there, under the name of the
  // key and with no note, and left as it is when it is, unless the license is refused.
  lemma ImportTellsOfItsCustomer(s: State, op: Op)
    requires op.Import? && CanHappen(s, op)
    ensures var a := Step(s, op);
            && (IsACustomer(s, op.key.customerId) || a.outcome == Broken ==> a.state.customers == s.customers)
            && (!IsACustomer(s, op.key.customerId) && a.outcome != Broken ==>
                  && op.drawn in a.state.customers && SameOtherCustomers(s, a.state, op.drawn)
                  && a.state.customers[op.drawn] == Customer(op.key.customerId, op.key.issuedTo, ""))
  {
    hide FindCustomer, EncodedIsTaken, HasSuccessor, CustomerOfKey, IsACustomer;
    FoundIfThere(s, op.key.customerId);
  }

  // The license to succeed, when there is one, is there, for that customer.
  ghost predicate MaySucceed(s: State, c: nat, succeeds: string) {
    succeeds != "" ==> succeeds in s.licenses && s.licenses[succeeds].customer == c
  }

  // What a license issued from the console is told, c being the customer its key names.
  lemma RecordTells(s: State, op: Op, c: nat)
    requires op.Record? && Links.Inv(s) && HasExternalId(s.customers, c, op.key.customerId)
    ensures var a := Step(s, op);
            var there := op.key.id in s.licenses;
            var kept := EncodedIsTaken(s.licenses, Trim(op.encoded));
            var succeeded := op.succeeds != "" && HasSuccessor(s.licenses, op.succeeds);
            && (a.outcome == NotFound <==> op.succeeds != "" && op.succeeds !in s.licenses)
            && (a.outcome == OtherCustomer <==>
                  op.succeeds in s.licenses && op.succeeds != "" && s.licenses[op.succeeds].customer != c)
            && (a.outcome == NotAdded <==> MaySucceed(s, c, op.succeeds) && there)
            && (a.outcome == Broken <==> MaySucceed(s, c, op.succeeds) && !there && kept)
            && (a.outcome == AlreadySucceeded <==> MaySucceed(s, c, op.succeeds) && !there && !kept && succeeded)
            && (a.outcome == Added <==> MaySucceed(s, c, op.succeeds) && !there && !kept && !succeeded)
  {
    hide FindCustomer, EncodedIsTaken, HasSuccessor, Trim, IssuedAction, Links.CustomersAreDistinct, HasExternalId,
         Links.KeysNameTheirCustomer, Links.KeysAreDistinct, Links.Linked;
    Links.FoundIsTheCustomer(s.customers, c, op.key.customerId);
  }

  // Without that customer, it is not found; and what is issued is the row that was asked for.
  lemma RecordLeaves(s: State, op: Op)
    requires op.Record?
    ensures var a := Step(s, op);
            && (!IsACustomer(s, op.key.customerId) ==> a.outcome == NotFound)
            && a.state.customers == s.customers
            && (a.outcome != Added ==> a.state == s)
            && (a.outcome == Added ==>
                  && op.key.id in a.state.licenses && SameOtherLicenses(s, a.state, op.key.id)
                  && var row := a.state.licenses[op.key.id];
                     && row.encoded == Trim(op.encoded) && row.key == op.key && row.note == op.note
                     && row.origin == FromConsole
                     && row.succeeds == (if op.succeeds == "" then None else Some(op.succeeds))
                     && HasExternalId(s.customers, row.customer, op.key.customerId))
  {
    hide FindCustomer, EncodedIsTaken, HasSuccessor, Trim, IssuedAction, IsACustomer;
    FoundIfThere(s, op.key.customerId);
    Links.FoundHasTheId(s.customers, op.key.customerId);
  }

  // A key is shown exactly when its license is recorded, and it is the value recorded.
  lemma ShowTells(s: State, op: Op)
    requires op.Show?
    ensures var a := Step(s, op);
            && (a.outcome == NotFound <==> op.license !in s.licenses)
            && (op.license in s.licenses ==> a.outcome == Shown(s.licenses[op.license].encoded))
            && a.state.customers == s.customers && a.state.licenses == s.licenses
            && (a.outcome == NotFound ==> a.state == s)
  {
  }

  // The line an act leaves: who, when, what with its values, of whom.
  ghost predicate IsTheLine(s: State, t: State, op: Op, line: Line) {
    && !op.Import? && line.at == op.now && line.operator == op.operator
    && match op
       case Create(_, externalId, name, _, drawn, _) =>
         line.action == CustomerCreated(Trim(externalId), Trim(name)) && line.customer == drawn && line.license == None
       case Update(_, c, name, note, _) =>
         && c in s.customers && line.customer == c && line.license == None
         && line.action == CustomerUpdated(s.customers[c].name, Trim(name), note != s.customers[c].note)
       case Record(_, key, _, succeeds, _, _) =>
         var telemetry := if key.telemetry in {"offline_report", "none"} then key.telemetry else "online";
         && key.id in t.licenses && line.customer == t.licenses[key.id].customer && line.license == Some(key.id)
         && (succeeds == "" ==> line.action == LicenseIssued(key.plan, key.expiresAt, telemetry))
         && (succeeds != "" ==> line.action == LicenseRenewed(key.plan, key.expiresAt, telemetry, succeeds))
       case Show(_, license, _) =>
         && license in s.licenses && line.customer == s.licenses[license].customer
         && line.license == Some(license) && line.action == LicenseKeyShown
  }

  // One line at the end of the journal for what was done, and none otherwise.
  lemma JournalAfterAnAct(s: State, op: Op)
    ensures var a := Step(s, op);
            if a.outcome.Done? || a.outcome.Shown? || (a.outcome.Added? && op.Record?)
            then |a.state.journal| == |s.journal| + 1 && a.state.journal[..|s.journal|] == s.journal
                 && IsTheLine(s, a.state, op, a.state.journal[|s.journal|])
            else a.state.journal == s.journal
  {
    hide FindCustomer, Trim, InsertionOf, CustomerOfKey, ImportedRow;
  }
}
