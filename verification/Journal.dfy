// Reading the journal again tells the customers and the licenses issued from the console as they are.
module Journal {
  import opened Wrappers
  import opened Licensing
  import opened Registry
  import opened Texts
  import opened Links

  // The values carried by a line of issue, without the id of its license.
  datatype Terms = Terms(customer: nat, plan: string, expiresAt: int, telemetry: string, succeeds: Option<string>)

  // The customers, by name and by external id, and the licenses issued from the console.
  datatype Told = Told(names: map<nat, string>, externalIds: map<nat, string>, issued: map<string, Terms>)

  function WithTerms(told: Told, license: Option<string>, terms: Terms): Told {
    if license.None? then told else told.(issued := told.issued[license.value := terms])
  }

  // One line, read after the others.
  function Tell(told: Told, line: Line): Told {
    match line.action
    case CustomerCreated(externalId, name) =>
      told.(names := told.names[line.customer := name], externalIds := told.externalIds[line.customer := externalId])
    case CustomerUpdated(_, newName, _) => told.(names := told.names[line.customer := newName])
    case LicenseIssued(plan, expiresAt, telemetry) =>
      WithTerms(told, line.license, Terms(line.customer, plan, expiresAt, telemetry, None))
    case LicenseRenewed(plan, expiresAt, telemetry, succeeds) =>
      WithTerms(told, line.license, Terms(line.customer, plan, expiresAt, telemetry, Some(succeeds)))
    case LicenseKeyShown => told
  }

  function Replay(told: Told, journal: seq<Line>): Told {
    if journal == [] then told else Tell(Replay(told, journal[..|journal| - 1]), journal[|journal| - 1])
  }

  function Names(customers: map<nat, Customer>): map<nat, string> { map c | c in customers :: customers[c].name }

  function ExternalIds(customers: map<nat, Customer>): map<nat, string> {
    map c | c in customers :: customers[c].externalId
  }

  function TermsOf(row: License): Terms {
    Terms(row.customer, row.key.plan, row.key.expiresAt, TelemetryMode(row.key.telemetry), row.succeeds)
  }

  function Issued(licenses: map<string, License>): map<string, Terms> {
    map id | id in licenses && licenses[id].origin == FromConsole :: TermsOf(licenses[id])
  }

  // The customers the registry created are what there is before the first line.
  function Imported(imported: map<nat, Customer>): Told { Told(Names(imported), ExternalIds(imported), map[]) }

  function Current(s: State): Told { Told(Names(s.customers), ExternalIds(s.customers), Issued(s.licenses)) }

  ghost predicate JournalTells(s: State) {
    Replay(Imported(s.imported), s.journal) == Current(s)
  }

  // The old name a line tells is the one the lines before it give.
  ghost predicate OldNameIsTrue(told: Told, journal: seq<Line>, k: nat) {
    k < |journal| && journal[k].action.CustomerUpdated? ==>
      var before := Replay(told, journal[..k]).names;
      var line := journal[k];
      line.customer in before && before[line.customer] == line.action.oldName
      && (line.action.oldName != line.action.newName || line.action.noteChanged)
  }

  ghost predicate OldNamesAreTrue(s: State) {
    forall k: nat :: OldNameIsTrue(Imported(s.imported), s.journal, k)
  }

  ghost predicate Inv(s: State) {
    JournalTells(s) && OldNamesAreTrue(s)
  }

  // ---- One more line ----

  lemma ReplayOneMore(told: Told, journal: seq<Line>, line: Line)
    ensures Replay(told, journal + [line]) == Tell(Replay(told, journal), line)
  {
    assert (journal + [line])[..|journal|] == journal;
  }

  lemma OldNameOneMore(told: Told, journal: seq<Line>, line: Line, k: nat)
    requires OldNameIsTrue(told, journal, k)
    requires k == |journal| && line.action.CustomerUpdated? ==>
               var before := Replay(told, journal).names;
               line.customer in before && before[line.customer] == line.action.oldName
               && (line.action.oldName != line.action.newName || line.action.noteChanged)
    ensures OldNameIsTrue(told, journal + [line], k)
  {
    hide Replay;
    if k < |journal| {
      assert (journal + [line])[..k] == journal[..k];
    } else if k == |journal| {
      assert (journal + [line])[..k] == journal;
    }
  }

  // A line that tells what the state became.
  lemma LineKeeps(s: State, t: State, line: Line)
    requires Inv(s) && t.imported == s.imported && t.journal == s.journal + [line]
    requires Current(t) == Tell(Current(s), line)
    requires line.action.CustomerUpdated? ==>
               line.customer in s.customers && s.customers[line.customer].name == line.action.oldName
               && (line.action.oldName != line.action.newName || line.action.noteChanged)
    ensures Inv(t)
  {
    hide Replay, OldNameIsTrue, Tell, Imported;
    ReplayOneMore(Imported(s.imported), s.journal, line);
    forall k: nat
      ensures OldNameIsTrue(Imported(t.imported), t.journal, k)
    {
      OldNameOneMore(Imported(s.imported), s.journal, line, k);
    }
  }

  // ---- One more imported customer ----

  function WithImported(told: Told, c: nat, customer: Customer): Told {
    told.(names := told.names[c := customer.name], externalIds := told.externalIds[c := customer.externalId])
  }

  lemma EitherFirst<T>(m: map<nat, T>, c: nat, x: T, d: nat, y: T)
    requires c != d
    ensures m[c := x][d := y] == m[d := y][c := x]
  {
  }

  // A line tells nothing of a customer that is not there after it.
  lemma TellBesides(told: Told, line: Line, c: nat, customer: Customer)
    requires c !in Tell(told, line).names
    ensures c !in told.names
    ensures Tell(WithImported(told, c, customer), line) == WithImported(Tell(told, line), c, customer)
  {
    match line.action
    case CustomerCreated(externalId, name) =>
      EitherFirst(told.names, c, customer.name, line.customer, name);
      EitherFirst(told.externalIds, c, customer.externalId, line.customer, externalId);
    case CustomerUpdated(_, newName, _) =>
      EitherFirst(told.names, c, customer.name, line.customer, newName);
    case _ =>
  }

  lemma {:induction false} ReplayBesides(told: Told, journal: seq<Line>, c: nat, customer: Customer)
    requires c !in Replay(told, journal).names
    ensures Replay(WithImported(told, c, customer), journal) == WithImported(Replay(told, journal), c, customer)
  {
    hide Tell, WithImported;
    if journal == [] {
    } else {
      var n := |journal| - 1;
      TellBesides(Replay(told, journal[..n]), journal[n], c, customer);
      ReplayBesides(told, journal[..n], c, customer);
    }
  }

  // Who is told of stays told of.
  lemma {:induction false} NamesGrow(told: Told, journal: seq<Line>, k: nat, c: nat)
    requires k <= |journal| && c in Replay(told, journal[..k]).names
    ensures c in Replay(told, journal).names
    decreases |journal|
  {
    hide Tell;
    var n := |journal| - 1;
    if k == |journal| {
      assert journal[..k] == journal;
    } else {
      assert journal[..n][..k] == journal[..k];
      NamesGrow(told, journal[..n], k, c);
      TellKeepsNames(Replay(told, journal[..n]), journal[n], c);
    }
  }

  lemma TellKeepsNames(told: Told, line: Line, c: nat)
    requires c in told.names
    ensures c in Tell(told, line).names
  {
  }

  lemma OldNameBesides(told: Told, journal: seq<Line>, k: nat, c: nat, customer: Customer)
    requires OldNameIsTrue(told, journal, k) && c !in Replay(told, journal).names
    ensures OldNameIsTrue(WithImported(told, c, customer), journal, k)
  {
    hide Replay;
    if k < |journal| && journal[k].action.CustomerUpdated? {
      if c in Replay(told, journal[..k]).names {
        NamesGrow(told, journal, k, c);
      } else {
        ReplayBesides(told, journal[..k], c, customer);
      }
    }
  }

  lemma ImportedOneMore(imported: map<nat, Customer>, c: nat, customer: Customer)
    ensures Imported(imported[c := customer]) == WithImported(Imported(imported), c, customer)
  {
    assert Names(imported[c := customer]) == Names(imported)[c := customer.name];
    assert ExternalIds(imported[c := customer]) == ExternalIds(imported)[c := customer.externalId];
  }

  lemma ImportingKeeps(s: State, t: State, c: nat, customer: Customer)
    requires Inv(s) && c !in s.customers
    requires t == WithCustomer(s, c, customer).(imported := s.imported[c := customer])
    ensures Inv(t)
  {
    hide Replay, OldNameIsTrue, Imported;
    var told := Imported(s.imported);
    assert Current(t) == WithImported(Current(s), c, customer) by {
      CurrentWithCustomer(s, c, customer);
    }
    ImportedOneMore(s.imported, c, customer);
    ReplayBesides(told, s.journal, c, customer);
    forall k: nat
      ensures OldNameIsTrue(Imported(t.imported), t.journal, k)
    {
      OldNameBesides(told, s.journal, k, c, customer);
    }
  }

  // ---- What an operation changes ----

  lemma CurrentWithCustomer(s: State, c: nat, customer: Customer)
    ensures Current(WithCustomer(s, c, customer)) == WithImported(Current(s), c, customer)
  {
    ImportedOneMore(s.customers, c, customer);
  }

  lemma CurrentWithLicense(s: State, id: string, row: License)
    requires id !in s.licenses
    ensures row.origin == FromConsole ==>
              Current(WithLicense(s, id, row)) == WithTerms(Current(s), Some(id), TermsOf(row))
    ensures row.origin == FromRegistry ==> Current(WithLicense(s, id, row)) == Current(s)
  {
    hide TermsOf;
    var t := WithLicense(s, id, row);
    if row.origin == FromConsole {
      assert Issued(t.licenses) == Issued(s.licenses)[id := TermsOf(row)];
    } else {
      assert Issued(t.licenses) == Issued(s.licenses);
    }
  }

  lemma CreateKeeps(s: State, op: Op)
    requires Inv(s) && op.Create?
    ensures Inv(CreateCustomer(s, op).state)
  {
    hide FindCustomer, Trim, Inv, Current;
    var externalId, name := Trim(op.externalId), Trim(op.name);
    if externalId != "" && name != "" && FindCustomer(s.customers, externalId).None? {
      var customer := Customer(externalId, name, op.note);
      CurrentWithCustomer(s, op.drawn, customer);
      var line := Line(op.now, op.operator, CustomerCreated(externalId, name), op.drawn, None);
      LineIsNotCurrent(WithCustomer(s, op.drawn, customer), line);
      LineKeeps(s, CreateCustomer(s, op).state, line);
    }
  }

  lemma LineIsNotCurrent(s: State, line: Line)
    ensures Current(WithLine(s, line)) == Current(s)
  {
  }

  lemma RenamedIsCurrent(s: State, c: nat, name: string, note: string, line: Line)
    requires c in s.customers && line.action.CustomerUpdated? && line.customer == c && line.action.newName == name
    ensures Current(WithCustomer(s, c, s.customers[c].(name := name, note := note))) == Tell(Current(s), line)
  {
    var t := WithCustomer(s, c, s.customers[c].(name := name, note := note));
    assert Names(t.customers) == Names(s.customers)[c := name];
    assert ExternalIds(t.customers) == ExternalIds(s.customers);
  }

  lemma UpdateKeeps(s: State, op: Op)
    requires Inv(s) && op.Update?
    ensures Inv(UpdateCustomer(s, op).state)
  {
    hide Trim, Inv, Current, Tell;
    var name := Trim(op.name);
    if UpdateCustomer(s, op).outcome.Done? {
      var stored := s.customers[op.customer];
      var action := CustomerUpdated(stored.name, name, stored.note != op.note);
      var line := Line(op.now, op.operator, action, op.customer, None);
      var t := WithCustomer(s, op.customer, stored.(name := name, note := op.note));
      RenamedIsCurrent(s, op.customer, name, op.note, line);
      LineIsNotCurrent(t, line);
      LineKeeps(s, WithLine(t, line), line);
    }
  }

  lemma LicenseFromRegistryKeeps(s: State, id: string, row: License)
    requires Inv(s) && id !in s.licenses && row.origin == FromRegistry
    ensures Inv(WithLicense(s, id, row))
  {
    hide Replay, OldNameIsTrue, Imported, Current;
    CurrentWithLicense(s, id, row);
  }

  lemma UpsertKeeps(s: State, key: Key, drawn: nat)
    requires Inv(s) && drawn !in s.customers
    ensures Inv(WithCustomerOfKey(s, key, drawn))
  {
    hide FindCustomer, Inv;
    if FindCustomer(s.customers, key.customerId).None? {
      ImportingKeeps(s, WithCustomerOfKey(s, key, drawn), drawn, Customer(key.customerId, key.issuedTo, ""));
    }
  }

  lemma ImportKeeps(s: State, op: Op)
    requires Inv(s) && op.Import? && CanHappen(s, op)
    ensures Inv(AddLicense(s, op).state)
  {
    hide Inv, WithCustomerOfKey, CustomerOfKey, WithLicense, HasSuccessor, EncodedIsTaken;
    UpsertKeeps(s, op.key, op.drawn);
    UpsertLeavesLicenses(s, op.key, op.drawn);
    var row := ImportedRow(s, CustomerOfKey(s, op.key, op.drawn), op);
    if InsertionOf(s.licenses, op.key.id, row) == Inserted {
      LicenseFromRegistryKeeps(WithCustomerOfKey(s, op.key, op.drawn), op.key.id, row);
    }
  }

  lemma IssuedIsTold(told: Told, op: Op, row: License, line: Line)
    requires op.Record? && line.action == IssuedAction(op.key, op.succeeds) && line.license == Some(op.key.id)
    requires line.customer == row.customer && row.key == op.key && row.succeeds == Succeeded(op.succeeds)
    ensures Tell(told, line) == WithTerms(told, Some(op.key.id), TermsOf(row))
  {
  }

  lemma RecordKeeps(s: State, op: Op)
    requires Inv(s) && op.Record?
    ensures Inv(RecordIssuedLicense(s, op).state)
  {
    hide Inv, FindCustomer, Trim, WithTerms, TermsOf, IssuedAction, HasSuccessor, EncodedIsTaken, Tell, Current,
         Succeeded;
    if RecordIssuedLicense(s, op).outcome == Added {
      var c := FindCustomer(s.customers, op.key.customerId).value;
      var row := IssuedRow(s, c, op);
      var line := Line(op.now, op.operator, IssuedAction(op.key, op.succeeds), c, Some(op.key.id));
      CurrentWithLicense(s, op.key.id, row);
      LineIsNotCurrent(WithLicense(s, op.key.id, row), line);
      IssuedIsTold(Current(s), op, row, line);
      ActionIsIssuing(op);
      LineKeeps(s, WithLine(WithLicense(s, op.key.id, row), line), line);
    }
  }

  lemma ActionIsIssuing(op: Op)
    requires op.Record?
    ensures IssuedAction(op.key, op.succeeds).LicenseIssued? || IssuedAction(op.key, op.succeeds).LicenseRenewed?
  {
  }

  lemma ShowKeeps(s: State, op: Op)
    requires Inv(s) && op.Show?
    ensures Inv(ShowLicenseKey(s, op).state)
  {
    hide Inv, Current;
    if op.license in s.licenses {
      var line := Line(op.now, op.operator, LicenseKeyShown, s.licenses[op.license].customer, Some(op.license));
      LineIsNotCurrent(s, line);
      LineKeeps(s, WithLine(s, line), line);
    }
  }

  lemma StepKeepsInv(s: State, op: Op)
    requires Inv(s) && CanHappen(s, op)
    ensures Inv(Step(s, op).state)
  {
    hide CreateCustomer, UpdateCustomer, AddLicense, RecordIssuedLicense, ShowLicenseKey, CanHappen, Inv;
    match op
    case Create(_, _, _, _, _, _) => CreateKeeps(s, op);
    case Update(_, _, _, _, _) => UpdateKeeps(s, op);
    case Import(_, _, _, _) => ImportKeeps(s, op);
    case Record(_, _, _, _, _, _) => RecordKeeps(s, op);
    case Show(_, _, _) => ShowKeeps(s, op);
  }

  // In every state the registry reaches, reading the whole journal again over the customers the
  // registry created gives the current name and the external id of every customer, and exactly the
  // licenses issued from the console, each with its customer, its terms and the one it succeeds. And
  // every renaming tells the name the customer had.
  lemma JournalTellsAll(s: State)
    requires Reachable(s)
    ensures Replay(Imported(s.imported), s.journal) == Current(s)
    ensures forall k: nat :: OldNameIsTrue(Imported(s.imported), s.journal, k)
  {
    hide Step, CanHappen, CanRun, Run, Replay, Current, OldNameIsTrue;
    var ops :| CanRun(Empty, ops) && Run(Empty, ops) == s;
    forall t, op | Inv(t) && CanHappen(t, op)
      ensures Inv(Step(t, op).state)
    {
      StepKeepsInv(t, op);
    }
    NothingIsTold();
    RunKeeps(Empty, ops, t => Inv(t));
  }

  lemma NothingIsTold()
    ensures Inv(Empty)
  {
  }

  // ---- A license is issued once ----

  predicate TellsIssueOf(line: Line, id: string) {
    (line.action.LicenseIssued? || line.action.LicenseRenewed?) && line.license == Some(id)
  }

  // Of each license issued from the console the journal tells the issue once, and of no other.
  ghost predicate ToldOnce(s: State) {
    && (forall i, j, id ::
          (0 <= i < |s.journal| && 0 <= j < |s.journal| && TellsIssueOf(s.journal[i], id)
           && TellsIssueOf(s.journal[j], id)) ==> i == j)
    && (forall i, id :: 0 <= i < |s.journal| && TellsIssueOf(s.journal[i], id) ==> id in s.licenses)
  }

  lemma OtherLineKeepsToldOnce(s: State, t: State, line: Line)
    requires ToldOnce(s) && t.journal == s.journal + [line] && t.licenses == s.licenses
    requires forall id :: !TellsIssueOf(line, id)
    ensures ToldOnce(t)
  {
    hide TellsIssueOf;
    forall i, id | 0 <= i < |t.journal| && TellsIssueOf(t.journal[i], id)
      ensures i < |s.journal| && t.journal[i] == s.journal[i]
    {
    }
  }

  lemma IssueKeepsToldOnce(s: State, t: State, line: Line, id: string)
    requires ToldOnce(s) && t.journal == s.journal + [line] && id !in s.licenses && line.license == Some(id)
    requires forall other :: other in s.licenses || other == id ==> other in t.licenses
    ensures ToldOnce(t)
  {
    forall i, other | 0 <= i < |t.journal| && TellsIssueOf(t.journal[i], other)
      ensures if i < |s.journal| then other in s.licenses && TellsIssueOf(s.journal[i], other) else other == id
    {
      if i < |s.journal| {
        assert t.journal[i] == s.journal[i];
      }
    }
  }

  lemma CreateOrUpdateTellsNoIssue(s: State, op: Op)
    requires ToldOnce(s) && (op.Create? || op.Update?)
    ensures ToldOnce(Step(s, op).state)
  {
    hide FindCustomer, Trim, ToldOnce;
    var t := Step(s, op).state;
    if t != s {
      OtherLineKeepsToldOnce(s, t, t.journal[|s.journal|]);
    }
  }

  lemma ImportTellsNothing(s: State, op: Op)
    requires ToldOnce(s) && op.Import?
    ensures ToldOnce(AddLicense(s, op).state)
  {
    hide FindCustomer, HasSuccessor, EncodedIsTaken, TellsIssueOf, ImportedRow, CustomerOfKey;
  }

  lemma RecordTellsItsIssue(s: State, op: Op)
    requires ToldOnce(s) && op.Record?
    ensures ToldOnce(RecordIssuedLicense(s, op).state)
  {
    hide FindCustomer, Trim, HasSuccessor, EncodedIsTaken, IssuedAction, IssuedRow, ToldOnce;
    var t := RecordIssuedLicense(s, op).state;
    if t != s {
      IssueKeepsToldOnce(s, t, t.journal[|s.journal|], op.key.id);
    }
  }

  lemma ShowTellsNoIssue(s: State, op: Op)
    requires ToldOnce(s) && op.Show?
    ensures ToldOnce(ShowLicenseKey(s, op).state)
  {
    hide ToldOnce;
    var t := ShowLicenseKey(s, op).state;
    if t != s {
      OtherLineKeepsToldOnce(s, t, t.journal[|s.journal|]);
    }
  }

  lemma StepKeepsToldOnce(s: State, op: Op)
    requires ToldOnce(s)
    ensures ToldOnce(Step(s, op).state)
  {
    hide AddLicense, RecordIssuedLicense, ShowLicenseKey, CreateCustomer, UpdateCustomer, ToldOnce;
    match op
    case Import(_, _, _, _) => ImportTellsNothing(s, op);
    case Record(_, _, _, _, _, _) => RecordTellsItsIssue(s, op);
    case Show(_, _, _) => ShowTellsNoIssue(s, op);
    case _ => CreateOrUpdateTellsNoIssue(s, op);
  }

  lemma {:induction false} OneWhoIsTold(told: Told, journal: seq<Line>, id: string) returns (i: nat)
    requires id in Replay(told, journal).issued && id !in told.issued
    ensures i < |journal| && TellsIssueOf(journal[i], id)
    decreases |journal|
  {
    if journal == [] {
      assert false;
    } else {
      var n := |journal| - 1;
      if TellsIssueOf(journal[n], id) {
        i := n;
      } else {
        i := OneWhoIsTold(told, journal[..n], id);
      }
    }
  }

  // In every state the registry reaches, the journal tells exactly once of the issue of each license
  // issued from the console.
  lemma IssuedOnce(s: State, id: string)
    requires Reachable(s) && id in s.licenses && s.licenses[id].origin == FromConsole
    ensures exists i :: 0 <= i < |s.journal| && TellsIssueOf(s.journal[i], id)
    ensures forall i, j ::
              (0 <= i < |s.journal| && 0 <= j < |s.journal| && TellsIssueOf(s.journal[i], id)
               && TellsIssueOf(s.journal[j], id)) ==> i == j
  {
    hide Reachable, Step, CanHappen, CanRun, Run, Replay, OldNameIsTrue, TellsIssueOf, TermsOf, Names, ExternalIds;
    JournalTellsAll(s);
    var k := OneWhoIsTold(Imported(s.imported), s.journal, id);
    IsToldOnce(s);
  }

  lemma IsToldOnce(s: State)
    requires Reachable(s)
    ensures ToldOnce(s)
  {
    hide Step, CanHappen, CanRun, Run;
    var ops :| CanRun(Empty, ops) && Run(Empty, ops) == s;
    forall t, op | ToldOnce(t) && CanHappen(t, op)
      ensures ToldOnce(Step(t, op).state)
    {
      StepKeepsToldOnce(t, op);
    }
    RunKeeps(Empty, ops, t => ToldOnce(t));
  }
}
