// The customers and the licenses, and the journal of what the operator does from the console. Each
// operation is one transaction.
module Registry {
  import opened Wrappers
  import opened Licensing
  import opened Texts

  datatype Customer = Customer(externalId: string, name: string, note: string)

  // The act of a line, with the values it carries.
  datatype Action =
    | CustomerCreated(externalId: string, name: string)
    | CustomerUpdated(oldName: string, newName: string, noteChanged: bool)
    | LicenseIssued(plan: string, expiresAt: int, telemetry: string)
    | LicenseRenewed(plan: string, expiresAt: int, telemetry: string, succeeds: string)
    | LicenseKeyShown

  datatype Line = Line(at: int, operator: string, action: Action, customer: nat, license: Option<string>)

  // The three tables. `imported` is a history, not a table: the customers as the registry created
  // them.
  datatype State = State(
    customers: map<nat, Customer>, licenses: map<string, License>, journal: seq<Line>,
    imported: map<nat, Customer>)

  const Empty := State(map[], map[], [], map[])

  datatype Outcome =
    | Done(customer: nat)
    | Unchanged
    | Added
    | NotAdded
    | Shown(encoded: string)
    | CustomerExists
    | CustomerIncomplete
    | NotFound
    | OtherCustomer
    | AlreadySucceeded
    | Broken  // a constraint none of these tells of

  // What a key that says nothing known of telemetry is read as.
  function TelemetryMode(telemetry: string): string {
    if telemetry == "offline_report" || telemetry == "none" then telemetry else "online"
  }

  // ---- What the queries read ----

  // The customer of an external id.
  ghost predicate HasExternalId(customers: map<nat, Customer>, c: nat, externalId: string) {
    c in customers && customers[c].externalId == externalId
  }

  ghost function FindCustomer(customers: map<nat, Customer>, externalId: string): Option<nat> {
    if c: nat :| HasExternalId(customers, c, externalId) then Some(c) else None
  }

  ghost predicate EncodedIsTaken(licenses: map<string, License>, encoded: string) {
    exists id :: id in licenses && licenses[id].encoded == encoded
  }

  // A license names another as the one it succeeds.
  predicate Succeeds(licenses: map<string, License>, id: string, previous: string) {
    id in licenses && licenses[id].succeeds == Some(previous)
  }

  ghost predicate HasSuccessor(licenses: map<string, License>, previous: string) {
    exists id :: Succeeds(licenses, id, previous)
  }

  // ---- What the statements write ----

  function WithCustomer(s: State, c: nat, customer: Customer): State {
    s.(customers := s.customers[c := customer])
  }

  function WithLine(s: State, line: Line): State {
    s.(journal := s.journal + [line])
  }

  datatype Insertion = Inserted | Present | EncodedTwice | SuccessorTwice

  // A license whose id is present is left alone, before any other constraint is looked at.
  ghost function InsertionOf(licenses: map<string, License>, id: string, row: License): Insertion {
    if id in licenses then Present
    else if EncodedIsTaken(licenses, row.encoded) then EncodedTwice
    else if row.succeeds.Some? && HasSuccessor(licenses, row.succeeds.value) then SuccessorTwice
    else Inserted
  }

  function WithLicense(s: State, id: string, row: License): State {
    s.(licenses := s.licenses[id := row])
  }

  // ---- The operations ----

  datatype Answer = Answer(state: State, outcome: Outcome)

  // `drawn` is the id the store draws for a customer it creates.
  datatype Op =
    | Create(operator: string, externalId: string, name: string, note: string, drawn: nat, now: int)
    | Update(operator: string, customer: nat, name: string, note: string, now: int)
    | Import(key: Key, encoded: string, note: string, drawn: nat)
    | Record(operator: string, key: Key, encoded: string, succeeds: string, note: string, now: int)
    | Show(operator: string, license: string, now: int)

  ghost function CreateCustomer(s: State, op: Op): Answer
    requires op.Create?
  {
    var externalId, name := Trim(op.externalId), Trim(op.name);
    if externalId == "" || name == "" then Answer(s, CustomerIncomplete)
    else if FindCustomer(s.customers, externalId).Some? then Answer(s, CustomerExists)
    else
      var line := Line(op.now, op.operator, CustomerCreated(externalId, name), op.drawn, None);
      Answer(WithLine(WithCustomer(s, op.drawn, Customer(externalId, name, op.note)), line), Done(op.drawn))
  }

  ghost function UpdateCustomer(s: State, op: Op): Answer
    requires op.Update?
  {
    var name := Trim(op.name);
    if name == "" then Answer(s, CustomerIncomplete)
    else if op.customer !in s.customers then Answer(s, NotFound)
    else
      var stored := s.customers[op.customer];
      if stored.name == name && stored.note == op.note then Answer(s, Unchanged)
      else
        var action := CustomerUpdated(stored.name, name, stored.note != op.note);
        var line := Line(op.now, op.operator, action, op.customer, None);
        Answer(WithLine(WithCustomer(s, op.customer, stored.(name := name, note := op.note)), line), Done(op.customer))
  }

  // The row of the customer of a key, or the id drawn for it when a row has to be added.
  ghost function CustomerOfKey(s: State, key: Key, drawn: nat): nat {
    var found := FindCustomer(s.customers, key.customerId);
    if found.Some? then found.value else drawn
  }

  ghost function WithCustomerOfKey(s: State, key: Key, drawn: nat): State {
    if FindCustomer(s.customers, key.customerId).Some? then s
    else
      var customer := Customer(key.customerId, key.issuedTo, "");
      WithCustomer(s, drawn, customer).(imported := s.imported[drawn := customer])
  }

  function ImportedRow(s: State, customer: nat, op: Op): License
    requires op.Import?
  {
    License(customer, op.encoded, op.key, op.note, FromRegistry, None, |s.licenses|)
  }

  // The customer stays when the license is left alone, and is rolled back with it when it is refused.
  ghost function AddLicense(s: State, op: Op): Answer
    requires op.Import?
  {
    var upserted := WithCustomerOfKey(s, op.key, op.drawn);
    var row := ImportedRow(s, CustomerOfKey(s, op.key, op.drawn), op);
    match InsertionOf(s.licenses, op.key.id, row)
    case Present => Answer(upserted, NotAdded)
    case Inserted => Answer(WithLicense(upserted, op.key.id, row), Added)
    case _ => Answer(s, Broken)
  }

  function IssuedRow(s: State, customer: nat, op: Op): License
    requires op.Record?
  {
    License(customer, Trim(op.encoded), op.key, op.note, FromConsole, Succeeded(op.succeeds), |s.licenses|)
  }

  function IssuedAction(key: Key, succeeds: string): Action {
    var telemetry := TelemetryMode(key.telemetry);
    if succeeds == "" then LicenseIssued(key.plan, key.expiresAt, telemetry)
    else LicenseRenewed(key.plan, key.expiresAt, telemetry, succeeds)
  }

  ghost function RecordIssuedLicense(s: State, op: Op): Answer
    requires op.Record?
  {
    var found := FindCustomer(s.customers, op.key.customerId);
    if found.None? then Answer(s, NotFound)
    else if op.succeeds != "" && op.succeeds !in s.licenses then Answer(s, NotFound)
    else if op.succeeds != "" && s.licenses[op.succeeds].customer != found.value then Answer(s, OtherCustomer)
    else
      var row := IssuedRow(s, found.value, op);
      match InsertionOf(s.licenses, op.key.id, row)
      case Present => Answer(s, NotAdded)
      case EncodedTwice => Answer(s, Broken)
      case SuccessorTwice => Answer(s, AlreadySucceeded)
      case Inserted =>
        var line := Line(op.now, op.operator, IssuedAction(op.key, op.succeeds), found.value, Some(op.key.id));
        Answer(WithLine(WithLicense(s, op.key.id, row), line), Added)
  }

  ghost function ShowLicenseKey(s: State, op: Op): Answer
    requires op.Show?
  {
    if op.license !in s.licenses then Answer(s, NotFound)
    else
      var row := s.licenses[op.license];
      Answer(WithLine(s, Line(op.now, op.operator, LicenseKeyShown, row.customer, Some(op.license))), Shown(row.encoded))
  }

  // ---- Runs ----

  ghost function Step(s: State, op: Op): Answer {
    match op
    case Create(_, _, _, _, _, _) => CreateCustomer(s, op)
    case Update(_, _, _, _, _) => UpdateCustomer(s, op)
    case Import(_, _, _, _) => AddLicense(s, op)
    case Record(_, _, _, _, _, _) => RecordIssuedLicense(s, op)
    case Show(_, _, _) => ShowLicenseKey(s, op)
  }

  // The ids the store draws are new.
  predicate CanHappen(s: State, op: Op) {
    match op
    case Create(_, _, _, _, drawn, _) => drawn !in s.customers
    case Import(_, _, _, drawn) => drawn !in s.customers
    case _ => true
  }

  ghost predicate CanRun(s: State, ops: seq<Op>)
    decreases |ops|
  {
    ops != [] ==> CanHappen(s, ops[0]) && CanRun(Step(s, ops[0]).state, ops[1..])
  }

  ghost function Run(s: State, ops: seq<Op>): State
    decreases |ops|
  {
    if ops == [] then s else Run(Step(s, ops[0]).state, ops[1..])
  }

  ghost predicate Reachable(s: State) {
    exists ops :: CanRun(Empty, ops) && Run(Empty, ops) == s
  }

  // What one operation keeps, every run keeps.
  lemma {:induction false} RunKeeps(s: State, ops: seq<Op>, keeps: State -> bool)
    requires CanRun(s, ops) && keeps(s)
    requires forall t, op :: keeps(t) && CanHappen(t, op) ==> keeps(Step(t, op).state)
    ensures keeps(Run(s, ops))
    decreases |ops|
  {
    hide Step, CanHappen;
    if ops == [] {
    } else {
      RunKeeps(Step(s, ops[0]).state, ops[1..], keeps);
    }
  }

  lemma {:induction false} OneMoreStep(s: State, ops: seq<Op>, op: Op)
    requires CanRun(s, ops) && CanHappen(Run(s, ops), op)
    ensures CanRun(s, ops + [op]) && Run(s, ops + [op]) == Step(Run(s, ops), op).state
    decreases |ops|
  {
    hide Step, CanHappen;
    var more := ops + [op];
    if ops == [] {
      assert more[1..] == [];
      OnlyOneStep(s, more);
    } else {
      assert more[0] == ops[0] && more[1..] == ops[1..] + [op];
      OneMoreStep(Step(s, ops[0]).state, ops[1..], op);
    }
  }

  lemma OnlyOneStep(s: State, ops: seq<Op>)
    requires |ops| == 1 && ops[1..] == [] && CanHappen(s, ops[0])
    ensures CanRun(s, ops) && Run(s, ops) == Step(s, ops[0]).state
  {
    hide Step, CanHappen;
    assert Run(Step(s, ops[0]).state, []) == Step(s, ops[0]).state;
  }

  lemma ReachesOn(s: State, op: Op)
    requires Reachable(s) && CanHappen(s, op)
    ensures Reachable(Step(s, op).state)
  {
    hide Step, CanHappen, CanRun, Run;
    var ops :| CanRun(Empty, ops) && Run(Empty, ops) == s;
    OneMoreStep(Empty, ops, op);
  }

  // ---- What a write leaves ----

  predicate IsWritten(op: Op, outcome: Outcome) {
    outcome.Done? || outcome.Shown? || (outcome.Added? && op.Record?)
  }

  // The line of an act tells its operator, its instant, its customer and its license.
  ghost predicate TellsOf(line: Line, op: Op, outcome: Outcome) {
    match op
    case Create(operator, _, _, _, drawn, now) =>
      line.operator == operator && line.at == now && line.customer == drawn
    case Update(operator, customer, _, _, now) =>
      line.operator == operator && line.at == now && line.customer == customer
    case Record(operator, key, _, _, _, now) =>
      line.operator == operator && line.at == now && line.license == Some(key.id)
    case Show(operator, license, now) =>
      line.operator == operator && line.at == now && line.license == Some(license)
    case Import(_, _, _, _) => false
  }

  // An act that is done leaves one line, at the end of the journal; a refused or unchanged one leaves
  // neither a row nor a line. What comes from the registry file is not journaled, and the customer
  // of a license that is left alone is all it may leave.
  lemma OneLineForAWrite(s: State, op: Op)
    ensures var a := Step(s, op);
      && (IsWritten(op, a.outcome) ==>
            exists line :: TellsOf(line, op, a.outcome) && a.state.journal == s.journal + [line])
      && (!IsWritten(op, a.outcome) && !op.Import? ==> a.state == s)
      && (op.Import? ==> a.state.journal == s.journal)
      && (op.Import? && a.outcome == NotAdded ==> a.state.licenses == s.licenses)
      && (op.Import? && a.outcome == Broken ==> a.state == s)
  {
    hide InsertionOf, FindCustomer, Trim, IssuedRow, IssuedAction, ImportedRow, CustomerOfKey;
    var a := Step(s, op);
    if IsWritten(op, a.outcome) {
      assert a.state.journal[|s.journal|] == a.state.journal[|a.state.journal| - 1];
      assert TellsOf(a.state.journal[|s.journal|], op, a.outcome);
    }
  }

  // What an act that is done stored, read back: what was asked for, trimmed, under the id it gives.
  lemma DoneIsStored(s: State, op: Op)
    ensures var a := Step(s, op);
      && (op.Create? && a.outcome.Done? ==>
            && a.outcome.customer == op.drawn && op.drawn in a.state.customers
            && a.state.customers[op.drawn] == Customer(Trim(op.externalId), Trim(op.name), op.note)
            && a.state.licenses == s.licenses)
      && (op.Update? && a.outcome.Done? ==>
            && op.customer in s.customers && op.customer in a.state.customers
            && a.state.customers[op.customer] == s.customers[op.customer].(name := Trim(op.name), note := op.note)
            && a.state.licenses == s.licenses)
      && (op.Show? && a.outcome.Shown? ==>
            op.license in s.licenses && a.outcome.encoded == s.licenses[op.license].encoded)
  {
    hide InsertionOf, FindCustomer, Trim, IssuedRow, IssuedAction, ImportedRow, CustomerOfKey, WithCustomerOfKey;
  }

  // A license is issued exactly when its customer is recorded, its id and its value are not, and the
  // license it succeeds, if any, is one of that customer that nothing succeeds yet.
  lemma IssuedExactlyWhen(s: State, op: Op)
    requires op.Record?
    ensures Step(s, op).outcome == Added <==>
              && FindCustomer(s.customers, op.key.customerId).Some?
              && op.key.id !in s.licenses && !EncodedIsTaken(s.licenses, Trim(op.encoded))
              && (op.succeeds != "" ==>
                    op.succeeds in s.licenses && !HasSuccessor(s.licenses, op.succeeds)
                    && Some(s.licenses[op.succeeds].customer) == FindCustomer(s.customers, op.key.customerId))
    ensures Step(s, op).outcome == AlreadySucceeded ==> op.succeeds != "" && HasSuccessor(s.licenses, op.succeeds)
  {
    hide FindCustomer, Trim, IssuedAction, HasSuccessor, EncodedIsTaken, WithLine, WithLicense;
  }
}
