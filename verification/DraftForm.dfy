// A draft written as the fields of a form, and read from them.
module DraftForm {
  import opened Wrappers
  import opened Licensing
  import opened Texts
  import opened Numbers

  // ---- What is given ----

  // The characters a page does not show, the days as texts, and the last day a draft may expire.
  // Instants are in seconds, and days are counted from the same one.
  datatype Given = Given(
    isControl: char -> bool, isUnseen: char -> bool,
    dayText: int -> string, readDay: string -> Option<int>, lastDay: int -> int)

  const DAY := 86400
  // The instant that stands for none.
  const NO_INSTANT := -62135596800

  function DayOf(t: int): int { t / DAY }

  function EndOf(day: int): int { day * DAY + DAY - 1 }

  // The days a draft may expire are read as they are written.
  ghost predicate IsCalendar(g: Given, now: int) {
    forall day :: DayOf(now) <= day <= g.lastDay(now) ==>
      var text := g.dayText(day);
      text != [] && IsTrimmed(text) && g.readDay(text) == Some(day)
  }

  const MAX_GRACE_DAYS := 3650
  const MAX_SOURCES_CAP := 100000
  const MAX_CUSTOMER_NAME_LENGTH := 200
  const MAX_PLAN_LENGTH := 64
  const MAX_NOTE_LENGTH := 1000
  const MAX_LICENSE_ID_LENGTH := 128
  const LICENSE_ID_LENGTH := 16

  const DECLARED: seq<string> := [
    "job_hooks", "account_hooks", "pii_text", "pii_detection", "custom_transformers", "subsetting", "scheduling",
    "mapping_review", "api_keys", "mcp", "rbac", "sso", "run_logs"]

  const TELEMETRY_MODES: seq<string> := ["online", "offline_report", "none"]

  // ---- The problems of a draft ----

  datatype Subject = CustomerId | CustomerName | Plan | Predecessor
  datatype Quantity = Sources | Grace

  datatype Problem =
    | BadLicenseId
    | Missing(Subject)
    | NotShown(Subject)
    | Untrimmed(Subject)
    | TooLong(Subject)
    | NoteNotCarried
    | NoteTooLong
    | AllAndSome
    | NotDeclared(name: string)
    | ListedTwice(name: string)
    | NotANumber(quantity: Quantity)
    | Negative(quantity: Quantity)
    | TooHigh(quantity: Quantity)
    | NoExpiry
    | ExpiryUnreadable
    | ExpiryPast
    | ExpiryTooFar
    | UnknownTelemetry
    | ChoiceUnreadable

  predicate Carriable(g: Given, text: string, severalLines: bool) {
    forall c :: c in text ==>
      if severalLines then c == '\n' || c == '\r' || c == '\t' || !g.isControl(c) else !g.isUnseen(c)
  }

  predicate ValidLicenseId(id: string) {
    |id| == LICENSE_ID_LENGTH && forall c :: c in id ==> '0' <= c <= '9' || 'a' <= c <= 'f'
  }

  function If(condition: bool, problem: Problem): seq<Problem> { if condition then [problem] else [] }

  // A text a page shows, of a bounded length unless the bound is zero.
  function Shown(g: Given, subject: Subject, text: string, maxLength: nat): seq<Problem> {
    if !Carriable(g, text, false) then [NotShown(subject)]
    else if text != Trim(text) then [Untrimmed(subject)]
    else If(maxLength > 0 && |text| > maxLength, TooLong(subject))
  }

  function NoteProblems(g: Given, note: string): seq<Problem> {
    if !Carriable(g, note, true) then [NoteNotCarried] else If(|note| > MAX_NOTE_LENGTH, NoteTooLong)
  }

  predicate IsDeclared(name: string) { name in DECLARED }

  // Of a name that comes after some.
  function NameProblems(name: string, seen: set<string>): seq<Problem> {
    if !IsDeclared(name) then [NotDeclared(name)] else If(name in seen, ListedTwice(name))
  }

  // Of the names that come after some.
  function FeatureProblems(names: seq<string>, seen: set<string>): seq<Problem> {
    if names == [] then []
    else
      var name := names[0];
      NameProblems(name, seen) + FeatureProblems(names[1..], seen + {name})
  }

  function Highest(quantity: Quantity): nat {
    match quantity case Sources => MAX_SOURCES_CAP case Grace => MAX_GRACE_DAYS
  }

  function OutOfBounds(quantity: Quantity, n: Option<int>): seq<Problem> {
    if n.None? then []
    else if n.value < 0 then [Negative(quantity)]
    else If(n.value > Highest(quantity), TooHigh(quantity))
  }

  function ExpiryProblems(g: Given, expiresAt: int, now: int, expiryTold: bool): seq<Problem> {
    if expiresAt == NO_INSTANT then If(!expiryTold, NoExpiry)
    else if expiresAt <= now then [ExpiryPast]
    else If(expiresAt > EndOf(g.lastDay(now)), ExpiryTooFar)
  }

  function SucceedsProblems(g: Given, succeeds: string): seq<Problem> {
    if |succeeds| > MAX_LICENSE_ID_LENGTH then [TooLong(Predecessor)] else Shown(g, Predecessor, succeeds, 0)
  }

  function TextProblems(g: Given, d: Draft): seq<Problem> {
    If(!ValidLicenseId(d.licenseId), BadLicenseId)
    + If(d.customerExternalId == "", Missing(CustomerId)) + Shown(g, CustomerId, d.customerExternalId, 0)
    + If(d.customerName == "", Missing(CustomerName)) + Shown(g, CustomerName, d.customerName, MAX_CUSTOMER_NAME_LENGTH)
    + Shown(g, Plan, d.plan, MAX_PLAN_LENGTH)
    + NoteProblems(g, d.note)
  }

  function TermProblems(d: Draft): seq<Problem> {
    If(d.allFeatures && d.features != [], AllAndSome) + FeatureProblems(d.features, {})
    + OutOfBounds(Sources, d.maxSources) + OutOfBounds(Grace, d.graceDays)
  }

  function LastProblems(g: Given, d: Draft): seq<Problem> {
    If(d.telemetry != "" && d.telemetry !in TELEMETRY_MODES, UnknownTelemetry) + SucceedsProblems(g, d.succeeds)
  }

  // Every rule of a draft: the form tells them, and the signing refuses on them.
  function Problems(g: Given, d: Draft, now: int, expiryTold: bool): seq<Problem> {
    TextProblems(g, d) + TermProblems(d) + ExpiryProblems(g, d.expiresAt, now, expiryTold) + LastProblems(g, d)
  }

  // ---- The form ----

  datatype Field =
    | LicenseId | CustomerExternalId | CustomerNameField | PlanField | Features | AllFeatures | MaxSources
    | ExpiresAt | GraceDays | Telemetry | Note | Succeeds

  type Form = map<Field, seq<string>>

  function Get(form: Form, field: Field): string {
    if field in form && form[field] != [] then form[field][0] else ""
  }

  function Values(form: Form, field: Field): seq<string> {
    if field in form then form[field] else []
  }

  function Typed(form: Form, field: Field): string { Trim(Get(form, field)) }

  function WithTexts(d: Draft): Form {
    map[LicenseId := [d.licenseId], CustomerExternalId := [d.customerExternalId],
        CustomerNameField := [d.customerName], PlanField := [d.plan], Telemetry := [d.telemetry],
        Note := [d.note], Succeeds := [d.succeeds]]
  }

  function NumberText(n: Option<int>): Option<string> {
    match n case None => None case Some(value) => Some(Itoa(value))
  }

  function With(form: Form, field: Field, text: Option<string>): Form {
    if text.None? then form else form[field := [text.value]]
  }

  function FeaturesOf(form: Form, d: Draft): Form {
    var chosen := With(form, AllFeatures, if d.allFeatures then Some("1") else None);
    if d.features == [] then chosen else chosen[Features := d.features]
  }

  function FormOf(g: Given, d: Draft): Form {
    var f := FeaturesOf(WithTexts(d), d);
    var f1 := With(f, MaxSources, NumberText(d.maxSources));
    var f2 := With(f1, ExpiresAt, if d.expiresAt == NO_INSTANT then None else Some(g.dayText(DayOf(d.expiresAt))));
    With(f2, GraceDays, NumberText(d.graceDays))
  }

  // ---- Reading a form ----

  // A number, absent when the text is empty or cannot be read.
  function WholeNumber(text: string): Option<int> {
    if text == "" then None else match Atoi(text) case Number(n) => Some(n) case _ => None
  }

  function NumberProblems(quantity: Quantity, text: string): seq<Problem> {
    if text == "" then []
    else
      match Atoi(text)
      case Number(_) => []
      case Unreadable => [NotANumber(quantity)]
      case OutOfRange => [if text[0] == '-' then Negative(quantity) else TooHigh(quantity)]
  }

  predicate ExpiryTold(g: Given, form: Form) {
    Typed(form, ExpiresAt) != "" && g.readDay(Typed(form, ExpiresAt)).None?
  }

  function ExpiryOf(g: Given, form: Form): int {
    var text := Typed(form, ExpiresAt);
    if text == "" || g.readDay(text).None? then NO_INSTANT else EndOf(g.readDay(text).value)
  }

  function DraftOf(g: Given, form: Form, drawn: string): Draft {
    var id := Typed(form, LicenseId);
    Draft(
      if id == "" then drawn else id, Typed(form, CustomerExternalId), Typed(form, CustomerNameField),
      Typed(form, PlanField), Values(form, Features), Typed(form, AllFeatures) == "1",
      WholeNumber(Typed(form, MaxSources)), ExpiryOf(g, form), WholeNumber(Typed(form, GraceDays)),
      Typed(form, Telemetry), Typed(form, Note), Get(form, Succeeds))
  }

  // The problems of the fields as texts: a choice, a number or a date that is not one.
  function FormProblems(g: Given, form: Form): seq<Problem> {
    If(Typed(form, AllFeatures) != "" && Typed(form, AllFeatures) != "1", ChoiceUnreadable)
    + NumberProblems(Sources, Typed(form, MaxSources)) + NumberProblems(Grace, Typed(form, GraceDays))
    + If(ExpiryTold(g, form), ExpiryUnreadable)
  }

  datatype Parsed = Accepted(draft: Draft) | Rejected(problems: seq<Problem>)

  // `drawn` is the id that is drawn for a form that carries none.
  function Parse(g: Given, form: Form, now: int, drawn: string): Parsed {
    var d := DraftOf(g, form, drawn);
    var problems := FormProblems(g, form) + Problems(g, d, now, ExpiryTold(g, form));
    if problems == [] then Accepted(d) else Rejected(problems)
  }

  // ---- A draft that comes back ----

  predicate IsEndOfDay(t: int) { t == EndOf(DayOf(t)) }

  // What a form cannot carry of a draft without problems: an instant within a day, and the space around
  // a note.
  predicate IsOfAForm(d: Draft) { IsEndOfDay(d.expiresAt) && d.note == Trim(d.note) }

  lemma NoneOfBoth<T>(a: seq<T>, b: seq<T>)
    ensures a + b == [] <==> a == [] && b == []
  {
    if a + b == [] {
      assert |a + b| == 0;
    }
  }

  lemma NoProblemAtAll(g: Given, d: Draft, now: int, told: bool)
    ensures Problems(g, d, now, told) == [] <==>
              TextProblems(g, d) == [] && TermProblems(d) == [] && ExpiryProblems(g, d.expiresAt, now, told) == []
              && LastProblems(g, d) == []
  {
    hide TextProblems, TermProblems, ExpiryProblems, LastProblems;
    var a, b := TextProblems(g, d), TermProblems(d);
    var c, e := ExpiryProblems(g, d.expiresAt, now, told), LastProblems(g, d);
    NoneOfBoth(a + b + c, e);
    NoneOfBoth(a + b, c);
    NoneOfBoth(a, b);
  }

  // ---- What the form says ----

  lemma WithSays(form: Form, a: Field, text: Option<string>, b: Field)
    ensures Get(With(form, a, text), b) == if a == b && text.Some? then text.value else Get(form, b)
    ensures Values(With(form, a, text), b) == if a == b && text.Some? then [text.value] else Values(form, b)
  {
  }

  // The fields that are written after the texts.
  function Written(g: Given, d: Draft, field: Field): string {
    match field
    case MaxSources => ValueOr(NumberText(d.maxSources), "")
    case GraceDays => ValueOr(NumberText(d.graceDays), "")
    case ExpiresAt => if d.expiresAt == NO_INSTANT then "" else g.dayText(DayOf(d.expiresAt))
    case _ => Get(FeaturesOf(WithTexts(d), d), field)
  }

  lemma FormSays(g: Given, d: Draft, field: Field)
    ensures Get(FormOf(g, d), field) == Written(g, d, field)
    ensures field == Features ==> Values(FormOf(g, d), field) == Values(FeaturesOf(WithTexts(d), d), field)
  {
    hide With, Get, FeaturesOf, WithTexts, Values, NumberText;
    var f := FeaturesOf(WithTexts(d), d);
    var expiry := if d.expiresAt == NO_INSTANT then None else Some(g.dayText(DayOf(d.expiresAt)));
    var f1 := With(f, MaxSources, NumberText(d.maxSources));
    var f2 := With(f1, ExpiresAt, expiry);
    WithSays(f, MaxSources, NumberText(d.maxSources), field);
    WithSays(f1, ExpiresAt, expiry, field);
    WithSays(f2, GraceDays, NumberText(d.graceDays), field);
    NothingBesides(d, field);
  }

  lemma NothingBesides(d: Draft, field: Field)
    ensures field in {MaxSources, GraceDays, ExpiresAt} ==> Get(FeaturesOf(WithTexts(d), d), field) == ""
  {
  }

  lemma TextsSay(d: Draft)
    ensures var f := FeaturesOf(WithTexts(d), d);
      && Get(f, LicenseId) == d.licenseId && Get(f, CustomerExternalId) == d.customerExternalId
      && Get(f, CustomerNameField) == d.customerName && Get(f, PlanField) == d.plan && Get(f, Telemetry) == d.telemetry
      && Get(f, Note) == d.note && Get(f, Succeeds) == d.succeeds
  {
  }

  lemma FeaturesSay(d: Draft)
    ensures var f := FeaturesOf(WithTexts(d), d);
      Values(f, Features) == d.features && Get(f, AllFeatures) == if d.allFeatures then "1" else ""
  {
  }

  // ---- What is read of it ----

  lemma ShownIsTrimmed(g: Given, subject: Subject, text: string, maxLength: nat)
    requires Shown(g, subject, text, maxLength) == []
    ensures Trim(text) == text
  {
    hide Trim, Carriable;
  }

  lemma IdIsTrimmed(id: string)
    requires ValidLicenseId(id)
    ensures Trim(id) == id && id != ""
  {
    assert id[0] in id && id[|id| - 1] in id;
    TrimmedStays(id);
  }

  lemma ModeIsTrimmed(telemetry: string)
    requires telemetry == "" || telemetry in TELEMETRY_MODES
    ensures Trim(telemetry) == telemetry
  {
    hide Trim;
    TrimmedStays(telemetry);
  }

  lemma TextsAreTrimmed(g: Given, d: Draft)
    requires TextProblems(g, d) == []
    ensures Trim(d.licenseId) == d.licenseId && d.licenseId != ""
    ensures Trim(d.customerExternalId) == d.customerExternalId && Trim(d.customerName) == d.customerName
    ensures Trim(d.plan) == d.plan
  {
    hide Trim, Shown, ValidLicenseId, NoteProblems;
    var id := If(!ValidLicenseId(d.licenseId), BadLicenseId);
    var noCustomer := If(d.customerExternalId == "", Missing(CustomerId));
    var customer := Shown(g, CustomerId, d.customerExternalId, 0);
    var noName := If(d.customerName == "", Missing(CustomerName));
    var name := Shown(g, CustomerName, d.customerName, MAX_CUSTOMER_NAME_LENGTH);
    var plan, note := Shown(g, Plan, d.plan, MAX_PLAN_LENGTH), NoteProblems(g, d.note);
    SevenNone(id, noCustomer, customer, noName, name, plan, note);
    IdIsTrimmed(d.licenseId);
    ShownIsTrimmed(g, CustomerId, d.customerExternalId, 0);
    ShownIsTrimmed(g, CustomerName, d.customerName, MAX_CUSTOMER_NAME_LENGTH);
    ShownIsTrimmed(g, Plan, d.plan, MAX_PLAN_LENGTH);
  }

  lemma SevenNone<T>(a: seq<T>, b: seq<T>, c: seq<T>, d: seq<T>, e: seq<T>, f: seq<T>, h: seq<T>)
    requires a + b + c + d + e + f + h == []
    ensures a == [] && b == [] && c == [] && d == [] && e == [] && f == [] && h == []
  {
    NoneOfBoth(a + b + c + d + e + f, h);
    NoneOfBoth(a + b + c + d + e, f);
    NoneOfBoth(a + b + c + d, e);
    NoneOfBoth(a + b + c, d);
    NoneOfBoth(a + b, c);
    NoneOfBoth(a, b);
  }

  lemma NumberComesBack(quantity: Quantity, n: Option<int>)
    requires OutOfBounds(quantity, n) == []
    ensures var text := Trim(ValueOr(NumberText(n), ""));
      WholeNumber(text) == n && NumberProblems(quantity, text) == []
  {
    hide Trim, Itoa, Atoi;
    if n.Some? {
      WrittenIsRead(n.value);
      TrimmedStays(Itoa(n.value));
    } else {
      TrimmedStays("");
    }
  }

  lemma ExpiryComesBack(g: Given, form: Form, expiresAt: int, now: int)
    requires IsCalendar(g, now) && ExpiryProblems(g, expiresAt, now, false) == [] && IsEndOfDay(expiresAt)
    requires Get(form, ExpiresAt) == g.dayText(DayOf(expiresAt))
    ensures ExpiryOf(g, form) == expiresAt && !ExpiryTold(g, form)
  {
    hide Trim, Get;
    var day := DayOf(expiresAt);
    assert DayOf(now) <= day <= g.lastDay(now);
    TrimmedStays(g.dayText(day));
  }

  lemma TermsAreOne(d: Draft)
    requires TermProblems(d) == []
    ensures OneChoiceOfFeatures(d) && OutOfBounds(Sources, d.maxSources) == [] && OutOfBounds(Grace, d.graceDays) == []
  {
    hide OutOfBounds, FeatureProblems;
    var both, features := If(d.allFeatures && d.features != [], AllAndSome), FeatureProblems(d.features, {});
    var sources, grace := OutOfBounds(Sources, d.maxSources), OutOfBounds(Grace, d.graceDays);
    NoneOfBoth(both + features + sources, grace);
    NoneOfBoth(both + features, sources);
    NoneOfBoth(both, features);
  }

  lemma TelemetryIsAMode(g: Given, d: Draft)
    requires LastProblems(g, d) == []
    ensures d.telemetry == "" || d.telemetry in TELEMETRY_MODES
  {
    hide SucceedsProblems;
    var unknown := If(d.telemetry != "" && d.telemetry !in TELEMETRY_MODES, UnknownTelemetry);
    NoneOfBoth(unknown, SucceedsProblems(g, d.succeeds));
  }

  // The texts, and the choice of the features.
  lemma TextsComeBack(g: Given, d: Draft, now: int, drawn: string)
    requires Problems(g, d, now, false) == [] && d.note == Trim(d.note)
    ensures var r, f := DraftOf(g, FormOf(g, d), drawn), FormOf(g, d);
      && r.licenseId == d.licenseId && r.customerExternalId == d.customerExternalId && r.customerName == d.customerName
      && r.plan == d.plan && r.telemetry == d.telemetry && r.note == d.note && r.succeeds == d.succeeds
      && r.features == d.features && r.allFeatures == d.allFeatures
      && (Typed(f, AllFeatures) == "" || Typed(f, AllFeatures) == "1")
  {
    hide Trim, Get, FormOf, FeaturesOf, Values, TextProblems, TermProblems, LastProblems, ExpiryProblems, Problems,
         ExpiryOf, WholeNumber;
    NoProblemAtAll(g, d, now, false);
    TextsAreTrimmed(g, d);
    TelemetryIsAMode(g, d);
    ModeIsTrimmed(d.telemetry);
    TextsSay(d);
    FeaturesSay(d);
    FormSays(g, d, LicenseId);
    FormSays(g, d, CustomerExternalId);
    FormSays(g, d, CustomerNameField);
    FormSays(g, d, PlanField);
    FormSays(g, d, Telemetry);
    FormSays(g, d, Note);
    FormSays(g, d, Succeeds);
    FormSays(g, d, Features);
    FormSays(g, d, AllFeatures);
    TrimmedStays("");
    TrimmedStays("1");
  }

  // The numbers and the day of the expiry.
  lemma NumbersComeBack(g: Given, d: Draft, now: int, drawn: string)
    requires IsCalendar(g, now) && Problems(g, d, now, false) == [] && IsEndOfDay(d.expiresAt)
    ensures var r, f := DraftOf(g, FormOf(g, d), drawn), FormOf(g, d);
      && r.maxSources == d.maxSources && r.graceDays == d.graceDays && r.expiresAt == d.expiresAt
      && NumberProblems(Sources, Typed(f, MaxSources)) == [] && NumberProblems(Grace, Typed(f, GraceDays)) == []
      && !ExpiryTold(g, f)
  {
    hide Trim, Get, FormOf, FeaturesOf, Values, TextProblems, TermProblems, LastProblems, ExpiryProblems, Problems,
         ExpiryOf, ExpiryTold, WholeNumber, NumberProblems, NumberText, IsCalendar, IsEndOfDay, OutOfBounds;
    NoProblemAtAll(g, d, now, false);
    TermsAreOne(d);
    FormSays(g, d, MaxSources);
    FormSays(g, d, GraceDays);
    FormSays(g, d, ExpiresAt);
    NumberComesBack(Sources, d.maxSources);
    NumberComesBack(Grace, d.graceDays);
    HasExpiry(g, d.expiresAt, now);
    ExpiryComesBack(g, FormOf(g, d), d.expiresAt, now);
  }

  lemma HasExpiry(g: Given, expiresAt: int, now: int)
    requires ExpiryProblems(g, expiresAt, now, false) == []
    ensures expiresAt != NO_INSTANT && now < expiresAt
  {
  }

  lemma NoFormProblem(g: Given, form: Form)
    ensures FormProblems(g, form) == [] <==>
              (Typed(form, AllFeatures) == "" || Typed(form, AllFeatures) == "1")
              && NumberProblems(Sources, Typed(form, MaxSources)) == []
              && NumberProblems(Grace, Typed(form, GraceDays)) == [] && !ExpiryTold(g, form)
  {
    hide Typed, NumberProblems, ExpiryTold;
    var choice := If(Typed(form, AllFeatures) != "" && Typed(form, AllFeatures) != "1", ChoiceUnreadable);
    var sources := NumberProblems(Sources, Typed(form, MaxSources));
    var grace := NumberProblems(Grace, Typed(form, GraceDays));
    var told := If(ExpiryTold(g, form), ExpiryUnreadable);
    NoneOfBoth(choice + sources + grace, told);
    NoneOfBoth(choice + sources, grace);
    NoneOfBoth(choice, sources);
  }

  // What is accepted of any form has no problem for the signing either, expires at the end of a day
  // and has its note trimmed.
  lemma AcceptedIsSound(g: Given, form: Form, now: int, drawn: string)
    requires Parse(g, form, now, drawn).Accepted?
    ensures var d := Parse(g, form, now, drawn).draft;
      Problems(g, d, now, false) == [] && IsOfAForm(d) && OneChoiceOfFeatures(d)
  {
    hide Problems, FormProblems, ExpiryTold, ExpiryOf, WholeNumber, Trim, Get, Values, IsEndOfDay, TextProblems,
         TermProblems, LastProblems, ExpiryProblems;
    var d := DraftOf(g, form, drawn);
    NoneOfBoth(FormProblems(g, form), Problems(g, d, now, ExpiryTold(g, form)));
    NoFormProblem(g, form);
    NoProblemAtAll(g, d, now, false);
    TermsAreOne(d);
    HasExpiry(g, d.expiresAt, now);
    ReadIsEndOfDay(g, form);
    TrimIsTrimmed(Get(form, Note));
  }

  lemma ReadIsEndOfDay(g: Given, form: Form)
    ensures ExpiryOf(g, form) != NO_INSTANT ==> IsEndOfDay(ExpiryOf(g, form))
  {
    hide Typed;
  }

  // A draft, whoever built it, comes back from its own form as it is exactly when it has no problem,
  // expires at the end of a day and has its note trimmed: decimal numbers, features and expiry included.
  lemma ComesBack(g: Given, d: Draft, now: int, drawn: string)
    requires IsCalendar(g, now)
    ensures Parse(g, FormOf(g, d), now, drawn) == Accepted(d) <==> Problems(g, d, now, false) == [] && IsOfAForm(d)
  {
    hide Problems, FormProblems, ExpiryTold, FormOf, IsCalendar, DraftOf, Trim, IsEndOfDay, NumberProblems, Typed;
    var form := FormOf(g, d);
    if Problems(g, d, now, false) == [] && IsOfAForm(d) {
      TextsComeBack(g, d, now, drawn);
      NumbersComeBack(g, d, now, drawn);
      assert DraftOf(g, form, drawn) == d;
      NoFormProblem(g, form);
      NoneOfBoth(FormProblems(g, form), Problems(g, d, now, ExpiryTold(g, form)));
    } else if Parse(g, form, now, drawn) == Accepted(d) {
      AcceptedIsSound(g, form, now, drawn);
    }
  }

  // The draft a form was accepted as comes back at the confirmation exactly as long as it has not
  // expired.
  lemma ConfirmedUntilItExpires(g: Given, form: Form, now: int, drawn: string, later: int, drawnLater: string)
    requires IsCalendar(g, later) && now <= later && g.lastDay(now) <= g.lastDay(later)
    requires Parse(g, form, now, drawn).Accepted?
    ensures var d := Parse(g, form, now, drawn).draft;
      Parse(g, FormOf(g, d), later, drawnLater) == Accepted(d) <==> later < d.expiresAt
  {
    hide Parse, Problems, IsCalendar, FormOf, IsOfAForm, TextProblems, TermProblems, LastProblems;
    var d := Parse(g, form, now, drawn).draft;
    AcceptedIsSound(g, form, now, drawn);
    ComesBack(g, d, later, drawnLater);
    NoProblemAtAll(g, d, now, false);
    NoProblemAtAll(g, d, later, false);
  }

  lemma FirstOfFeatures(names: seq<string>, seen: set<string>)
    requires names != []
    ensures FeatureProblems(names, seen) ==
            NameProblems(names[0], seen) + FeatureProblems(names[1..], seen + {names[0]})
  {
  }
}
