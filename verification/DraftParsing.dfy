// A form read as a draft, and a draft written as a form, step by step.
module DraftParsing {
  import opened Wrappers
  import opened Licensing
  import opened Texts
  import opened Numbers
  import opened DraftForm
  import opened DraftRules

  // ---- The problems of a draft ----

  method FindShown(g: Given, subject: Subject, text: string, maxLength: nat, told: seq<Problem>)
    returns (problems: seq<Problem>)
    ensures problems == told + Shown(g, subject, text, maxLength)
  {
    hide Trim, Carriable;
    problems := told;
    if !Carriable(g, text, false) {
      problems := problems + [NotShown(subject)];
    } else if text != Trim(text) {
      problems := problems + [Untrimmed(subject)];
    } else if maxLength > 0 && |text| > maxLength {
      problems := problems + [TooLong(subject)];
    }
  }

  method FindMissing(subject: Subject, text: string, told: seq<Problem>) returns (problems: seq<Problem>)
    ensures problems == told + If(text == "", Missing(subject))
  {
    problems := told;
    if text == "" {
      problems := problems + [Missing(subject)];
    }
  }

  method FindNoteProblems(g: Given, note: string, told: seq<Problem>) returns (problems: seq<Problem>)
    ensures problems == told + NoteProblems(g, note)
  {
    hide Carriable;
    problems := told;
    if !Carriable(g, note, true) {
      problems := problems + [NoteNotCarried];
    } else if |note| > MAX_NOTE_LENGTH {
      problems := problems + [NoteTooLong];
    }
  }

  method FindTextProblems(g: Given, d: Draft) returns (problems: seq<Problem>)
    ensures problems == TextProblems(g, d)
  {
    hide Shown, NoteProblems, ValidLicenseId;
    problems := if ValidLicenseId(d.licenseId) then [] else [BadLicenseId];
    assert problems == If(!ValidLicenseId(d.licenseId), BadLicenseId);
    problems := FindMissing(CustomerId, d.customerExternalId, problems);
    problems := FindShown(g, CustomerId, d.customerExternalId, 0, problems);
    problems := FindMissing(CustomerName, d.customerName, problems);
    problems := FindShown(g, CustomerName, d.customerName, MAX_CUSTOMER_NAME_LENGTH, problems);
    problems := FindShown(g, Plan, d.plan, MAX_PLAN_LENGTH, problems);
    problems := FindNoteProblems(g, d.note, problems);
  }

  lemma Associative<T>(a: seq<T>, b: seq<T>, c: seq<T>)
    ensures a + (b + c) == (a + b) + c
  {
  }

  lemma FeatureProblemsNext(names: seq<string>, i: nat, seen: set<string>, told: seq<Problem>)
    requires i < |names|
    ensures told + FeatureProblems(names[i..], seen) ==
            (told + NameProblems(names[i], seen)) + FeatureProblems(names[i + 1..], seen + {names[i]})
  {
    hide NameProblems;
    FirstOfFeatures(names[i..], seen);
    assert names[i..][1..] == names[i + 1..];
    Associative(told, NameProblems(names[i], seen), FeatureProblems(names[i + 1..], seen + {names[i]}));
  }

  method FindFeatureProblems(names: seq<string>) returns (problems: seq<Problem>)
    ensures problems == FeatureProblems(names, {})
  {
    hide FeatureProblems, IsDeclared;
    var seen := {};
    problems := [];
    assert names[0..] == names;
    for i := 0 to |names|
      invariant problems + FeatureProblems(names[i..], seen) == FeatureProblems(names, {})
    {
      var name := names[i];
      ghost var told := problems;
      if !IsDeclared(name) {
        problems := problems + [NotDeclared(name)];
      } else if name in seen {
        problems := problems + [ListedTwice(name)];
      }
      FeatureProblemsNext(names, i, seen, told);
      seen := seen + {name};
    }
    assert names[|names|..] == [];
    NoFeatureNoProblem(seen);
  }

  lemma NoFeatureNoProblem(seen: set<string>)
    ensures FeatureProblems([], seen) == []
  {
  }

  method FindProblems(g: Given, d: Draft, now: int, expiryTold: bool) returns (problems: seq<Problem>)
    ensures problems == Problems(g, d, now, expiryTold)
  {
    hide TextProblems, FeatureProblems, OutOfBounds, SucceedsProblems;
    var texts := FindTextProblems(g, d);
    var features := FindFeatureProblems(d.features);
    var terms := If(d.allFeatures && d.features != [], AllAndSome) + features;
    terms := terms + OutOfBounds(Sources, d.maxSources);
    terms := terms + OutOfBounds(Grace, d.graceDays);
    problems := texts + terms;
    if d.expiresAt == NO_INSTANT {
      if !expiryTold {
        problems := problems + [NoExpiry];
      }
    } else if d.expiresAt <= now {
      problems := problems + [ExpiryPast];
    } else if d.expiresAt > EndOf(g.lastDay(now)) {
      problems := problems + [ExpiryTooFar];
    }
    var last := [];
    if d.telemetry != "" && d.telemetry !in TELEMETRY_MODES {
      last := [UnknownTelemetry];
    }
    problems := problems + (last + SucceedsProblems(g, d.succeeds));
  }

  // The names are added one by one.
  method AddFeatures(form: Form, names: seq<string>) returns (written: Form)
    requires Features !in form
    ensures written == if names == [] then form else form[Features := names]
  {
    written := form;
    for i := 0 to |names|
      invariant written == if i == 0 then form else form[Features := names[..i]]
    {
      assert names[..i] + [names[i]] == names[..i + 1];
      written := written[Features := Values(written, Features) + [names[i]]];
    }
    assert names[..|names|] == names;
  }

  method WriteForm(g: Given, d: Draft) returns (form: Form)
    ensures form == FormOf(g, d)
  {
    hide Itoa;
    form := WithTexts(d);
    if d.allFeatures {
      form := form[AllFeatures := ["1"]];
    }
    form := AddFeatures(form, d.features);
    if d.maxSources.Some? {
      form := form[MaxSources := [Itoa(d.maxSources.value)]];
    }
    if d.expiresAt != NO_INSTANT {
      form := form[ExpiresAt := [g.dayText(DayOf(d.expiresAt))]];
    }
    if d.graceDays.Some? {
      form := form[GraceDays := [Itoa(d.graceDays.value)]];
    }
  }

  method ReadNumber(quantity: Quantity, text: string) returns (n: Option<int>, problems: seq<Problem>)
    ensures n == WholeNumber(text) && problems == NumberProblems(quantity, text)
  {
    hide Atoi;
    if text == "" {
      return None, [];
    }
    match Atoi(text)
    case Number(value) => return Some(value), [];
    case Unreadable => return None, [NotANumber(quantity)];
    case OutOfRange =>
      if text[0] == '-' {
        return None, [Negative(quantity)];
      }
      return None, [TooHigh(quantity)];
  }

  // With a text that is no date there is no instant, and `told` keeps the rules from asking for one.
  method ReadExpiry(g: Given, form: Form) returns (expiresAt: int, told: bool)
    ensures expiresAt == ExpiryOf(g, form) && told == ExpiryTold(g, form)
  {
    hide Trim, Get;
    expiresAt, told := NO_INSTANT, false;
    var day := Typed(form, ExpiresAt);
    if day != "" {
      var read := g.readDay(day);
      if read.None? {
        told := true;
      } else {
        expiresAt := EndOf(read.value);
      }
    }
  }

  method ReadChoice(text: string) returns (all: bool, problems: seq<Problem>)
    ensures all == (text == "1") && problems == If(text != "" && text != "1", ChoiceUnreadable)
  {
    match text
    case "" => return false, [];
    case "1" => return true, [];
    case _ => return false, [ChoiceUnreadable];
  }

  // The draft a form says, and what it says that a draft cannot.
  method ReadForm(g: Given, form: Form, drawn: string)
    returns (draft: Draft, problems: seq<Problem>, expiryTold: bool)
    ensures draft == DraftOf(g, form, drawn) && problems == FormProblems(g, form)
    ensures expiryTold == ExpiryTold(g, form)
  {
    hide Typed, Get, Values, WholeNumber, NumberProblems, ExpiryTold, ExpiryOf;
    var licenseId := Typed(form, LicenseId);
    if licenseId == "" {
      licenseId := drawn;
    }
    var all, choice := ReadChoice(Typed(form, AllFeatures));
    var sources, sourcesProblems := ReadNumber(Sources, Typed(form, MaxSources));
    var grace, graceProblems := ReadNumber(Grace, Typed(form, GraceDays));
    problems := choice + sourcesProblems + graceProblems;
    var expiresAt, told := ReadExpiry(g, form);
    expiryTold := told;
    if expiryTold {
      problems := problems + [ExpiryUnreadable];
    }
    draft := Draft(licenseId, Typed(form, CustomerExternalId), Typed(form, CustomerNameField), Typed(form, PlanField),
                   Values(form, Features), all, sources, expiresAt, grace, Typed(form, Telemetry), Typed(form, Note),
                   Get(form, Succeeds));
  }

  method ParseDraft(g: Given, form: Form, now: int, drawn: string) returns (parsed: Parsed)
    ensures parsed == Parse(g, form, now, drawn)
    ensures TellsOfTheForm(g, form, now, drawn, parsed)
  {
    ParseTells(g, form, now, drawn);
    hide TellsOfTheForm, DraftOf, FormProblems, Problems, ExpiryTold;
    var draft, problems, expiryTold := ReadForm(g, form, drawn);
    var ofTheDraft := FindProblems(g, draft, now, expiryTold);
    problems := problems + ofTheDraft;
    if problems != [] {
      return Rejected(problems);
    }
    return Accepted(draft);
  }
}
