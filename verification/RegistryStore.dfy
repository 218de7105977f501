// The tables of the registry, written in place. Each method is one transaction.
module RegistryStore {
  import opened Wrappers
  import opened Licensing
  import opened Registry
  import opened Texts
  import Links

  class Store {
    var customers: map<nat, Customer>
    var licenses: map<string, License>
    var journal: seq<Line>
    ghost var imported: map<nat, Customer>

    ghost function State(): State
      reads this
    {
      Registry.State(customers, licenses, journal, imported)
    }

    ghost predicate Valid()
      reads this
    {
      Links.Inv(State())
    }

    constructor ()
      ensures Valid() && State() == Empty
    {
      customers, licenses, journal, imported := map[], map[], [], map[];
    }

    // ---- The queries ----

    method CustomerIdByExternalId(externalId: string) returns (found: Option<nat>)
      requires Valid()
      ensures found == FindCustomer(customers, externalId)
    {
      hide Links.KeysNameTheirCustomer, Links.KeysAreDistinct, Links.Linked;
      if c: nat :| c in customers && customers[c].externalId == externalId {
        Links.FoundIsTheCustomer(customers, c, externalId);
        found := Some(c);
      } else {
        Links.FoundHasTheId(customers, externalId);
        found := None;
      }
    }

    // The row is left out when its id is there, and refused on the other constraints.
    method InsertRow(id: string, row: License) returns (insertion: Insertion)
      modifies this`licenses
      ensures insertion == InsertionOf(old(licenses), id, row)
      ensures licenses == if insertion == Inserted then old(licenses)[id := row] else old(licenses)
    {
      if id in licenses {
        return Present;
      }
      if exists other :: other in licenses && licenses[other].encoded == row.encoded {
        return EncodedTwice;
      }
      if row.succeeds.Some? {
        var successors := set other | other in licenses && licenses[other].succeeds == row.succeeds;
        SuccessorsAreThere(licenses, row.succeeds.value, successors);
        if successors != {} {
          return SuccessorTwice;
        }
      }
      licenses := licenses[id := row];
      return Inserted;
    }

    static lemma SuccessorsAreThere(licenses: map<string, License>, previous: string, successors: set<string>)
      requires successors == set other | other in licenses && licenses[other].succeeds == Some(previous)
      ensures successors == {} <==> !HasSuccessor(licenses, previous)
    {
      if id :| Succeeds(licenses, id, previous) {
        assert id in successors;
      } else if successors != {} {
        var id :| id in successors;
        assert Succeeds(licenses, id, previous);
      }
    }

    method AddLine(line: Line)
      modifies this`journal
      ensures journal == old(journal) + [line]
    {
      journal := journal + [line];
    }

    // ---- The acts of the operator ----

    method CreateCustomer(operator: string, externalId: string, name: string, note: string, drawn: nat, now: int)
      returns (outcome: Outcome)
      requires Valid() && drawn !in customers
      modifies this`customers, this`journal
      ensures Valid()
      ensures Answer(State(), outcome) ==
              Registry.CreateCustomer(old(State()), Create(operator, externalId, name, note, drawn, now))
    {
      hide FindCustomer, Trim, Links.Inv;
      ghost var op := Create(operator, externalId, name, note, drawn, now);
      Links.CreateKeeps(State(), op);
      var id, called := Trim(externalId), Trim(name);
      if id == "" || called == "" {
        return CustomerIncomplete;
      }
      var found := CustomerIdByExternalId(id);
      if found.Some? {
        return CustomerExists;
      }
      customers := customers[drawn := Customer(id, called, note)];
      AddLine(Line(now, operator, CustomerCreated(id, called), drawn, None));
      return Done(drawn);
    }

    method UpdateCustomer(operator: string, customer: nat, name: string, note: string, now: int)
      returns (outcome: Outcome)
      requires Valid()
      modifies this`customers, this`journal
      ensures Valid()
      ensures Answer(State(), outcome) ==
              Registry.UpdateCustomer(old(State()), Update(operator, customer, name, note, now))
    {
      hide Trim, Links.Inv;
      Links.UpdateKeeps(State(), Update(operator, customer, name, note, now));
      var called := Trim(name);
      if called == "" {
        return CustomerIncomplete;
      }
      if customer !in customers {
        return NotFound;
      }
      var stored := customers[customer];
      if stored.name == called && stored.note == note {
        return Unchanged;
      }
      customers := customers[customer := stored.(name := called, note := note)];
      AddLine(Line(now, operator, CustomerUpdated(stored.name, called, stored.note != note), customer, None));
      return Done(customer);
    }

    method ShowLicenseKey(operator: string, license: string, now: int) returns (outcome: Outcome)
      requires Valid()
      modifies this`journal
      ensures Valid()
      ensures Answer(State(), outcome) == Registry.ShowLicenseKey(old(State()), Show(operator, license, now))
    {
      if license !in licenses {
        return NotFound;
      }
      var row := licenses[license];
      AddLine(Line(now, operator, LicenseKeyShown, row.customer, Some(license)));
      return Shown(row.encoded);
    }

    // ---- The licenses ----

    // The customer is written before the license, and rolled back with it.
    method AddLicense(key: Key, encoded: string, note: string, drawn: nat) returns (outcome: Outcome)
      requires Valid() && drawn !in customers
      modifies this`customers, this`licenses, this`imported
      ensures Valid()
      ensures Answer(State(), outcome) == Registry.AddLicense(old(State()), Import(key, encoded, note, drawn))
    {
      hide FindCustomer, Links.Inv, InsertionOf;
      ghost var op := Import(key, encoded, note, drawn);
      Links.ImportKeeps(State(), op);
      var before, rank := customers, |licenses|;
      ghost var importedBefore := imported;
      var found := CustomerIdByExternalId(key.customerId);
      var customer := drawn;
      if found.Some? {
        customer := found.value;
      } else {
        customers := customers[drawn := Customer(key.customerId, key.issuedTo, "")];
        imported := imported[drawn := Customer(key.customerId, key.issuedTo, "")];
      }
      var insertion := InsertRow(key.id, License(customer, encoded, key, note, FromRegistry, None, rank));
      match insertion
      case Present => return NotAdded;
      case Inserted => return Added;
      case _ =>
        customers, imported := before, importedBefore;
        return Broken;
    }

    method RecordIssuedLicense(operator: string, key: Key, encoded: string, succeeds: string, note: string, now: int)
      returns (outcome: Outcome)
      requires Valid()
      modifies this`licenses, this`journal
      ensures Valid()
      ensures Answer(State(), outcome) ==
              Registry.RecordIssuedLicense(old(State()), Record(operator, key, encoded, succeeds, note, now))
    {
      hide FindCustomer, Links.Inv, InsertionOf, Trim, IssuedAction;
      ghost var op := Record(operator, key, encoded, succeeds, note, now);
      Links.RecordKeeps(State(), op);
      var found := CustomerIdByExternalId(key.customerId);
      if found.None? {
        return NotFound;
      }
      if succeeds != "" {
        if succeeds !in licenses {
          return NotFound;
        }
        if licenses[succeeds].customer != found.value {
          return OtherCustomer;
        }
      }
      var row := License(found.value, Trim(encoded), key, note, FromConsole, Succeeded(succeeds), |licenses|);
      var insertion := InsertRow(key.id, row);
      match insertion
      case Present => return NotAdded;
      case EncodedTwice => return Broken;
      case SuccessorTwice => return AlreadySucceeded;
      case Inserted =>
        AddLine(Line(now, operator, IssuedAction(key, succeeds), found.value, Some(key.id)));
        return Added;
    }
  }
}
