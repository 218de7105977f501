// What a draft without problems is, what each problem is told of, and what a form says.
module DraftRules {
  import opened Wrappers
  import opened Licensing
  import opened Texts
  import opened Numbers
  import opened DraftForm

  // ---- The rules, told of the draft alone ----

  predicate NothingUnseen(g: Given, text: string) {
    forall c :: c in text ==> !g.isUnseen(c)
  }

  // A text of a page: every character is seen, no space stands around it, and it is not too long.
  predicate IsShown(g: Given, text: string, maxLength: nat) {
    NothingUnseen(g, text) && IsTrimmed(text) && (maxLength == 0 || |text| <= maxLength)
  }

  // A note may be of several lines.
  predicate IsCarried(g: Given, note: string) {
    forall c :: c in note ==> c in "\n\r\t" || !g.isControl(c)
  }

  predicate IsHexId(id: string) {
    |id| == 16 && forall k :: 0 <= k < 16 ==> id[k] in "0123456789abcdef"
  }

  predicate AreDistinct(names: seq<string>) {
    forall i, j :: 0 <= i < j < |names| ==> names[i] != names[j]
  }

  predicate AreDeclared(names: seq<string>) {
    forall i :: 0 <= i < |names| ==> names[i] in DECLARED
  }

  predicate IsWithin(n: Option<int>, highest: int) {
    n.Some? ==> 0 <= n.value <= highest
  }

  predicate TextsMeetTheRules(g: Given, d: Draft) {
    && IsHexId(d.licenseId)
    && d.customerExternalId != "" && IsShown(g, d.customerExternalId, 0)
    && d.customerName != "" && IsShown(g, d.customerName, 200)
    && IsShown(g, d.plan, 64)
    && IsCarried(g, d.note) && |d.note| <= 1000
  }

  predicate TermsMeetTheRules(d: Draft) {
    && AreDeclared(d.features) && AreDistinct(d.features) && (d.allFeatures ==> d.features == [])
    && IsWithin(d.maxSources, 100000) && IsWithin(d.graceDays, 3650)
  }

  predicate LastMeetsTheRules(g: Given, d: Draft) {
    && (d.telemetry == "" || d.telemetry == "online" || d.telemetry == "offline_report" || d.telemetry == "none")
    && |d.succeeds| <= 128 && IsShown(g, d.succeeds, 0)
  }

  predicate ExpiryMeetsTheRules(g: Given, expiresAt: int, now: int) {
    expiresAt != NO_INSTANT && now < expiresAt < (g.lastDay(now) + 1) * 86400
  }

  predicate MeetsTheRules(g: Given, d: Draft, now: int) {
    && TextsMeetTheRules(g, d) && TermsMeetTheRules(d) && LastMeetsTheRules(g, d)
    && ExpiryMeetsTheRules(g, d.expiresAt, now)
  }

  // ---- No problem is told exactly of what meets the rules ----

  lemma ShownIsShown(g: Given, subject: Subject, text: string, maxLength: nat)
    ensures Shown(g, subject, text, maxLength) == [] <==> IsShown(g, text, maxLength)
  {
    hide Trim, IsTrimmed;
    TrimmedIsItself(text);
  }

  lemma HexIsValid(id: string)
    ensures ValidLicenseId(id) <==> IsHexId(id)
  {
    if ValidLicenseId(id) {
      forall k | 0 <= k < 16 ensures id[k] in "0123456789abcdef" {
        assert id[k] in id;
        HexDigits(id[k]);
      }
    }
    if IsHexId(id) {
      forall c | c in id ensures '0' <= c <= '9' || 'a' <= c <= 'f' {
        var k :| 0 <= k < |id| && id[k] == c;
        HexDigits(id[k]);
      }
    }
  }

  lemma HexDigits(c: char)
    ensures c in "0123456789abcdef" <==> '0' <= c <= '9' || 'a' <= c <= 'f'
  {
  }

  lemma NoteIsCarried(g: Given, note: string)
    ensures Carriable(g, note, true) <==> IsCarried(g, note)
  {
  }

  lemma SevenAreNone<T>(a: seq<T>, b: seq<T>, c: seq<T>, d: seq<T>, e: seq<T>, f: seq<T>, h: seq<T>)
    ensures a + b + c + d + e + f + h == [] <==>
            a == [] && b == [] && c == [] && d == [] && e == [] && f == [] && h == []
  {
    if a + b + c + d + e + f + h == [] {
      SevenNone(a, b, c, d, e, f, h);
    }
  }

  lemma TextsAreRuled(g: Given, d: Draft)
    ensures TextProblems(g, d) == [] <==> TextsMeetTheRules(g, d)
  {
    ShownIsShown(g, CustomerId, d.customerExternalId, 0);
    ShownIsShown(g, CustomerName, d.customerName, 200);
    ShownIsShown(g, Plan, d.plan, 64);
    HexIsValid(d.licenseId);
    NoteIsCarried(g, d.note);
    hide Shown, IsShown, ValidLicenseId, IsHexId, Carriable, IsCarried;
    SevenAreNone(
      If(!ValidLicenseId(d.licenseId), BadLicenseId), If(d.customerExternalId == "", Missing(CustomerId)),
      Shown(g, CustomerId, d.customerExternalId, 0), If(d.customerName == "", Missing(CustomerName)),
      Shown(g, CustomerName, d.customerName, MAX_CUSTOMER_NAME_LENGTH), Shown(g, Plan, d.plan, MAX_PLAN_LENGTH),
      NoteProblems(g, d.note));
  }

  predicate NoneSeen(names: seq<string>, seen: set<string>) {
    forall i :: 0 <= i < |names| ==> names[i] !in seen
  }

  lemma {:induction false} FeaturesAreRuled(names: seq<string>, seen: set<string>)
    ensures FeatureProblems(names, seen) == [] <==>
            AreDeclared(names) && AreDistinct(names) && NoneSeen(names, seen)
  {
    if names != [] {
      var name, rest := names[0], names[1..];
      FeaturesAreRuled(rest, seen + {name});
      FirstOfFeatures(names, seen);
      NoneOfBoth(NameProblems(name, seen), FeatureProblems(rest, seen + {name}));
      FirstAndRest(names, seen);
      hide FeatureProblems, AreDeclared, AreDistinct, NoneSeen;
    }
  }

  lemma FirstAndRest(names: seq<string>, seen: set<string>)
    requires names != []
    ensures AreDeclared(names) <==> names[0] in DECLARED && AreDeclared(names[1..])
    ensures AreDistinct(names) && NoneSeen(names, seen) <==>
            names[0] !in seen && AreDistinct(names[1..]) && NoneSeen(names[1..], seen + {names[0]})
  {
    assert names == [names[0]] + names[1..];
    hide IsDeclared;
    if names[0] !in seen && AreDistinct(names[1..]) && NoneSeen(names[1..], seen + {names[0]}) {
      forall i, j | 0 <= i < j < |names| ensures names[i] != names[j] {
        assert names[j] == names[1..][j - 1];
      }
      forall i | 0 <= i < |names| ensures names[i] !in seen {
        assert i > 0 ==> names[i] == names[1..][i - 1];
      }
    }
    if AreDistinct(names) && NoneSeen(names, seen) {
      forall i | 0 <= i < |names[1..]| ensures names[1..][i] !in seen + {names[0]} {
        assert names[1..][i] == names[i + 1];
      }
    }
    if AreDeclared(names[1..]) && names[0] in DECLARED {
      forall i | 0 <= i < |names| ensures names[i] in DECLARED {
        assert i > 0 ==> names[i] == names[1..][i - 1];
      }
    }
  }

  lemma TermsAreRuled(d: Draft)
    ensures TermProblems(d) == [] <==> TermsMeetTheRules(d)
  {
    FeaturesAreRuled(d.features, {});
    hide FeatureProblems, AreDeclared, AreDistinct;
    var both, features := If(d.allFeatures && d.features != [], AllAndSome), FeatureProblems(d.features, {});
    NoneOfBoth(both + features + OutOfBounds(Sources, d.maxSources), OutOfBounds(Grace, d.graceDays));
    NoneOfBoth(both + features, OutOfBounds(Sources, d.maxSources));
    NoneOfBoth(both, features);
  }

  lemma LastIsRuled(g: Given, d: Draft)
    ensures LastProblems(g, d) == [] <==> LastMeetsTheRules(g, d)
  {
    ShownIsShown(g, Predecessor, d.succeeds, 0);
    hide Shown, IsShown;
    NoneOfBoth(If(d.telemetry != "" && d.telemetry !in TELEMETRY_MODES, UnknownTelemetry),
               SucceedsProblems(g, d.succeeds));
  }

  // A draft has no problem exactly when it meets the rules.
  lemma NoProblemIsTheRules(g: Given, d: Draft, now: int)
    ensures Problems(g, d, now, false) == [] <==> MeetsTheRules(g, d, now)
  {
    hide Problems, TextProblems, TermProblems, LastProblems, TextsMeetTheRules, TermsMeetTheRules, LastMeetsTheRules;
    NoProblemAtAll(g, d, now, false);
    TextsAreRuled(g, d);
    TermsAreRuled(d);
    LastIsRuled(g, d);
  }

  // ---- What each problem is told of ----

  function NumberOf(d: Draft, quantity: Quantity): Option<int> {
    match quantity case Sources => d.maxSources case Grace => d.graceDays
  }

  predicate IsTwice(names: seq<string>, name: string) {
    exists i, j :: 0 <= i < j < |names| && names[i] == name && names[j] == name
  }

  // What makes a problem one of a text a page shows: the first of these that it has.
  predicate HasShownProblem(g: Given, subject: Subject, text: string, maxLength: nat, p: Problem) {
    || (p == NotShown(subject) && !NothingUnseen(g, text))
    || (p == Untrimmed(subject) && NothingUnseen(g, text) && !IsTrimmed(text))
    || (p == TooLong(subject) && maxLength > 0 && |text| > maxLength && NothingUnseen(g, text) && IsTrimmed(text))
  }

  predicate HasTextProblem(g: Given, d: Draft, p: Problem) {
    || (p == BadLicenseId && !IsHexId(d.licenseId))
    || (p == Missing(CustomerId) && d.customerExternalId == "")
    || (p == Missing(CustomerName) && d.customerName == "")
    || HasShownProblem(g, CustomerId, d.customerExternalId, 0, p)
    || HasShownProblem(g, CustomerName, d.customerName, 200, p)
    || HasShownProblem(g, Plan, d.plan, 64, p)
    || (p == NoteNotCarried && !IsCarried(g, d.note))
    || (p == NoteTooLong && IsCarried(g, d.note) && |d.note| > 1000)
  }

  predicate HasTermProblem(d: Draft, p: Problem) {
    || (p == AllAndSome && d.allFeatures && d.features != [])
    || (p.NotDeclared? && p.name in d.features && p.name !in DECLARED)
    || (p.ListedTwice? && p.name in DECLARED && IsTwice(d.features, p.name))
    || (p.Negative? && NumberOf(d, p.quantity).Some? && NumberOf(d, p.quantity).value < 0)
    || (p.TooHigh? && NumberOf(d, p.quantity).Some?
        && NumberOf(d, p.quantity).value > if p.quantity == Sources then 100000 else 3650)
  }

  // Without an expiry, or with one that is past or too far; `told` is for one that was told unreadable.
  predicate HasExpiryProblem(g: Given, expiresAt: int, now: int, told: bool, p: Problem) {
    || (p == NoExpiry && expiresAt == NO_INSTANT && !told)
    || (p == ExpiryPast && expiresAt != NO_INSTANT && expiresAt <= now)
    || (p == ExpiryTooFar && expiresAt != NO_INSTANT && now < expiresAt && (g.lastDay(now) + 1) * 86400 <= expiresAt)
  }

  predicate HasLastProblem(g: Given, d: Draft, p: Problem) {
    || (p == UnknownTelemetry && d.telemetry !in {"", "online", "offline_report", "none"})
    || (p == TooLong(Predecessor) && |d.succeeds| > 128)
    || (|d.succeeds| <= 128 && HasShownProblem(g, Predecessor, d.succeeds, 0, p))
  }

  // What makes a problem one of the draft.
  predicate HasProblem(g: Given, d: Draft, now: int, told: bool, p: Problem) {
    HasTextProblem(g, d, p) || HasTermProblem(d, p) || HasExpiryProblem(g, d.expiresAt, now, told, p)
    || HasLastProblem(g, d, p)
  }

  lemma ShownTells(g: Given, subject: Subject, text: string, maxLength: nat, p: Problem)
    ensures p in Shown(g, subject, text, maxLength) <==> HasShownProblem(g, subject, text, maxLength, p)
  {
    hide Trim, IsTrimmed;
    TrimmedIsItself(text);
  }

  lemma TextsTell(g: Given, d: Draft, p: Problem)
    ensures p in TextProblems(g, d) <==> HasTextProblem(g, d, p)
  {
    hide TextProblems, Shown, HasShownProblem, ValidLicenseId, IsHexId, NoteProblems, IsCarried;
    ShownTells(g, CustomerId, d.customerExternalId, 0, p);
    ShownTells(g, CustomerName, d.customerName, 200, p);
    ShownTells(g, Plan, d.plan, 64, p);
    HexIsValid(d.licenseId);
    NoteTells(g, d.note, p);
    TextParts(g, d, p);
  }

  lemma NoteTells(g: Given, note: string, p: Problem)
    ensures p in NoteProblems(g, note) <==>
              || (p == NoteNotCarried && !IsCarried(g, note))
              || (p == NoteTooLong && IsCarried(g, note) && |note| > 1000)
  {
    hide Carriable, IsCarried;
    NoteIsCarried(g, note);
  }

  lemma TextParts(g: Given, d: Draft, p: Problem)
    ensures p in TextProblems(g, d) <==>
              || (p == BadLicenseId && !ValidLicenseId(d.licenseId))
              || (p == Missing(CustomerId) && d.customerExternalId == "")
              || p in Shown(g, CustomerId, d.customerExternalId, 0)
              || (p == Missing(CustomerName) && d.customerName == "")
              || p in Shown(g, CustomerName, d.customerName, 200)
              || p in Shown(g, Plan, d.plan, 64)
              || p in NoteProblems(g, d.note)
  {
    hide Shown, ValidLicenseId, NoteProblems;
  }

  lemma {:induction false} FeaturesTell(names: seq<string>, seen: set<string>, p: Problem)
    ensures p in FeatureProblems(names, seen) <==>
              || (p.NotDeclared? && p.name in names && p.name !in DECLARED)
              || (p.ListedTwice? && p.name in names && p.name in DECLARED
                  && (p.name in seen || IsTwice(names, p.name)))
  {
    hide IsDeclared, IsTwice;
    if names != [] {
      var name, rest := names[0], names[1..];
      FeaturesTell(rest, seen + {name}, p);
      FirstOfFeatures(names, seen);
      hide FeatureProblems;
      assert names == [name] + rest;
      if p.ListedTwice? {
        TwiceOfMore(names, p.name);
        TwiceIsThere(rest, p.name);
      }
      FirstTells(name, seen, p);
    } else {
      NoneIsTwice(p);
    }
  }

  lemma NoneIsTwice(p: Problem)
    ensures p.ListedTwice? ==> !IsTwice([], p.name)
  {
  }

  lemma FirstTells(name: string, seen: set<string>, p: Problem)
    ensures p in NameProblems(name, seen) <==>
              || (p == NotDeclared(name) && name !in DECLARED)
              || (p == ListedTwice(name) && name in DECLARED && name in seen)
  {
  }

  lemma TwiceOfMore(names: seq<string>, name: string)
    requires names != []
    ensures IsTwice(names, name) <==> IsTwice(names[1..], name) || (names[0] == name && name in names[1..])
  {
    var rest := names[1..];
    if i, j :| 0 <= i < j < |rest| && rest[i] == name && rest[j] == name {
      assert names[i + 1] == name && names[j + 1] == name;
    }
    if names[0] == name && name in rest {
      var k :| 0 <= k < |rest| && rest[k] == name;
      assert names[0] == name && names[k + 1] == name;
    }
    if i, j :| 0 <= i < j < |names| && names[i] == name && names[j] == name {
      assert rest[j - 1] == name;
      assert i > 0 ==> rest[i - 1] == name;
    }
  }

  lemma TwiceIsThere(names: seq<string>, name: string)
    ensures IsTwice(names, name) ==> name in names
  {
  }

  lemma BoundsTell(quantity: Quantity, n: Option<int>, p: Problem)
    ensures p in OutOfBounds(quantity, n) <==>
              || (p == Negative(quantity) && n.Some? && n.value < 0)
              || (p == TooHigh(quantity) && n.Some? && n.value > if quantity == Sources then 100000 else 3650)
  {
  }

  lemma TermsTell(d: Draft, p: Problem)
    ensures p in TermProblems(d) <==> HasTermProblem(d, p)
  {
    hide TermProblems, FeatureProblems, OutOfBounds, IsTwice;
    FeaturesTell(d.features, {}, p);
    BoundsTell(Sources, d.maxSources, p);
    BoundsTell(Grace, d.graceDays, p);
    if p.ListedTwice? {
      TwiceIsThere(d.features, p.name);
    }
    TermParts(d, p);
  }

  lemma TermParts(d: Draft, p: Problem)
    ensures p in TermProblems(d) <==>
              || (p == AllAndSome && d.allFeatures && d.features != [])
              || p in FeatureProblems(d.features, {})
              || p in OutOfBounds(Sources, d.maxSources) || p in OutOfBounds(Grace, d.graceDays)
  {
    hide FeatureProblems, OutOfBounds;
  }

  lemma ExpiryTells(g: Given, expiresAt: int, now: int, told: bool, p: Problem)
    ensures p in ExpiryProblems(g, expiresAt, now, told) <==> HasExpiryProblem(g, expiresAt, now, told, p)
  {
  }

  lemma LastTells(g: Given, d: Draft, p: Problem)
    ensures p in LastProblems(g, d) <==> HasLastProblem(g, d, p)
  {
    hide LastProblems, Shown, HasShownProblem;
    ShownTells(g, Predecessor, d.succeeds, 0, p);
    LastParts(g, d, p);
  }

  lemma LastParts(g: Given, d: Draft, p: Problem)
    ensures p in LastProblems(g, d) <==>
              || (p == UnknownTelemetry && d.telemetry !in {"", "online", "offline_report", "none"})
              || (p == TooLong(Predecessor) && |d.succeeds| > 128)
              || (|d.succeeds| <= 128 && p in Shown(g, Predecessor, d.succeeds, 0))
  {
    hide Shown;
  }

  // Each problem is told of a draft exactly when the draft has it.
  lemma EachProblemIsTold(g: Given, d: Draft, now: int, told: bool, p: Problem)
    ensures p in Problems(g, d, now, told) <==> HasProblem(g, d, now, told, p)
  {
    hide TextProblems, TermProblems, ExpiryProblems, LastProblems, HasTextProblem, HasTermProblem, HasExpiryProblem,
         HasLastProblem;
    TextsTell(g, d, p);
    TermsTell(d, p);
    ExpiryTells(g, d.expiresAt, now, told, p);
    LastTells(g, d, p);
  }

  // ---- What a form says ----

  // The first value of a field, without the space around it.
  function TextIn(form: Form, field: Field): string {
    if field in form && form[field] != [] then Trim(form[field][0]) else ""
  }

  // A number is the one its text says, and none when the text is no number of 64 bits.
  predicate NumberIsRead(text: string, n: Option<int>) {
    n == match Atoi(text) case Number(value) => Some(value) case _ => None
  }

  // An expiry is the last second of the day its text says, and none when the text is no day.
  predicate ExpiryIsRead(g: Given, text: string, expiresAt: int) {
    if text == "" || g.readDay(text).None? then expiresAt == NO_INSTANT
    else expiresAt == (g.readDay(text).value + 1) * 86400 - 1
  }

  // Field by field, a draft is what a form says; the id of the license to succeed is not trimmed, and an id
  // is drawn for a form without one.
  predicate SaysTheForm(g: Given, form: Form, drawn: string, d: Draft) {
    && d.licenseId == (if TextIn(form, LicenseId) == "" then drawn else TextIn(form, LicenseId))
    && d.customerExternalId == TextIn(form, CustomerExternalId) && d.customerName == TextIn(form, CustomerNameField)
    && d.plan == TextIn(form, PlanField) && d.telemetry == TextIn(form, Telemetry) && d.note == TextIn(form, Note)
    && d.features == (if Features in form then form[Features] else [])
    && (d.allFeatures <==> TextIn(form, AllFeatures) == "1")
    && NumberIsRead(TextIn(form, MaxSources), d.maxSources) && NumberIsRead(TextIn(form, GraceDays), d.graceDays)
    && ExpiryIsRead(g, TextIn(form, ExpiresAt), d.expiresAt)
    && d.succeeds == (if Succeeds in form && form[Succeeds] != [] then form[Succeeds][0] else "")
  }

  function NumberField(quantity: Quantity): Field {
    match quantity case Sources => MaxSources case Grace => GraceDays
  }

  predicate DayIsUnreadable(g: Given, form: Form) {
    TextIn(form, ExpiresAt) != "" && g.readDay(TextIn(form, ExpiresAt)).None?
  }

  // What makes a problem one of the form: a choice, a number or a day that cannot be read.
  predicate HasFormProblem(g: Given, form: Form, p: Problem) {
    || (p == ChoiceUnreadable && TextIn(form, AllFeatures) !in {"", "1"})
    || (p.NotANumber? && HasNumberProblem(TextIn(form, NumberField(p.quantity)), p))
    || (p.Negative? && HasNumberProblem(TextIn(form, NumberField(p.quantity)), p))
    || (p.TooHigh? && HasNumberProblem(TextIn(form, NumberField(p.quantity)), p))
    || (p == ExpiryUnreadable && DayIsUnreadable(g, form))
  }

  predicate HasNumberProblem(text: string, p: Problem) {
    || (p.NotANumber? && text != "" && Atoi(text) == Unreadable)
    || (p.Negative? && Atoi(text) == OutOfRange && "-" <= text)
    || (p.TooHigh? && Atoi(text) == OutOfRange && !("-" <= text))
  }

  // A form is accepted as the draft it says when that draft meets the rules; otherwise what is told is all
  // that is wrong with the form and with that draft.
  ghost predicate TellsOfTheForm(g: Given, form: Form, now: int, drawn: string, parsed: Parsed) {
    match parsed
    case Accepted(d) => SaysTheForm(g, form, drawn, d) && MeetsTheRules(g, d, now)
    case Rejected(problems) => problems != [] && TellsAll(g, form, now, drawn, problems)
  }

  ghost predicate TellsAll(g: Given, form: Form, now: int, drawn: string, problems: seq<Problem>) {
    exists d :: SaysTheForm(g, form, drawn, d) && forall p ::
      p in problems <==> HasFormProblem(g, form, p) || HasProblem(g, d, now, DayIsUnreadable(g, form), p)
  }

  lemma TypedIsTheText(form: Form, field: Field)
    ensures Typed(form, field) == TextIn(form, field)
  {
    hide IsSpace;
    TrimmedStays("");
  }

  lemma AllAreTyped(form: Form)
    ensures forall field :: Typed(form, field) == TextIn(form, field)
  {
    hide Typed, TextIn;
    forall field ensures Typed(form, field) == TextIn(form, field) {
      TypedIsTheText(form, field);
    }
  }

  lemma WholeIsRead(text: string)
    ensures NumberIsRead(text, WholeNumber(text))
  {
    hide Scan;
  }

  lemma ExpiryReads(g: Given, form: Form)
    ensures ExpiryIsRead(g, TextIn(form, ExpiresAt), ExpiryOf(g, form))
    ensures ExpiryTold(g, form) <==> DayIsUnreadable(g, form)
  {
    hide Typed, TextIn;
    AllAreTyped(form);
  }

  lemma DraftIsRead(g: Given, form: Form, drawn: string)
    ensures SaysTheForm(g, form, drawn, DraftOf(g, form, drawn))
  {
    hide Typed, TextIn, Trim, NumberIsRead, ExpiryIsRead, WholeNumber, ExpiryOf;
    AllAreTyped(form);
    ExpiryReads(g, form);
    WholeIsRead(TextIn(form, MaxSources));
    WholeIsRead(TextIn(form, GraceDays));
  }

  lemma NumberTells(quantity: Quantity, text: string, p: Problem)
    ensures p in NumberProblems(quantity, text) <==>
              (p.NotANumber? || p.Negative? || p.TooHigh?) && p.quantity == quantity && HasNumberProblem(text, p)
  {
    hide Scan;
  }

  lemma FormTells(g: Given, form: Form, p: Problem)
    ensures p in FormProblems(g, form) <==> HasFormProblem(g, form, p)
  {
    hide Typed, TextIn, NumberProblems, HasNumberProblem, ExpiryTold, DayIsUnreadable;
    AllAreTyped(form);
    ExpiryReads(g, form);
    NumberTells(Sources, TextIn(form, MaxSources), p);
    NumberTells(Grace, TextIn(form, GraceDays), p);
  }

  lemma ParseTells(g: Given, form: Form, now: int, drawn: string)
    ensures TellsOfTheForm(g, form, now, drawn, Parse(g, form, now, drawn))
  {
    var d := DraftOf(g, form, drawn);
    DraftIsRead(g, form, drawn);
    hide DraftOf, SaysTheForm, Problems, FormProblems, HasFormProblem, HasProblem, MeetsTheRules, IsOfAForm;
    ExpiryReads(g, form);
    hide ExpiryTold, DayIsUnreadable;
    if Parse(g, form, now, drawn).Accepted? {
      AcceptedIsSound(g, form, now, drawn);
      NoProblemIsTheRules(g, d, now);
    } else {
      forall p
        ensures p in FormProblems(g, form) <==> HasFormProblem(g, form, p)
        ensures p in Problems(g, d, now, ExpiryTold(g, form)) <==>
                  HasProblem(g, d, now, DayIsUnreadable(g, form), p)
      {
        FormTells(g, form, p);
        EachProblemIsTold(g, d, now, ExpiryTold(g, form), p);
      }
    }
  }
}
