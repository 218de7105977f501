// A draft of a license, the key signed for it, and the row the store keeps of that key.
module Licensing {
  import opened Wrappers

  // The terms of a license to be signed, its customer, and the license it succeeds if there is one.
  datatype Draft = Draft(
    licenseId: string, customerExternalId: string, customerName: string, plan: string,
    features: seq<string>, allFeatures: bool, maxSources: Option<int>, expiresAt: int,
    graceDays: Option<int>, telemetry: string, note: string, succeeds: string)

  datatype Limits = Limits(
    maxJobs: Option<int>, maxConnections: Option<int>, maxSources: Option<int>,
    allowedConnectionTypes: Option<seq<string>>)

  // The content of a key: no list of features allows them all, and an empty one none.
  datatype Key = Key(
    id: string, issuedTo: string, customerId: string, issuedAt: int, expiresAt: int,
    graceDays: Option<int>, limits: Option<Limits>, plan: string, features: Option<seq<string>>,
    telemetry: string)

  datatype Origin = FromRegistry | FromConsole

  // The row of a license. `rank` is how many licenses were recorded before it.
  datatype License = License(
    customer: nat, encoded: string, key: Key, note: string, origin: Origin, succeeds: Option<string>,
    rank: nat)

  // The key a draft is signed as. The signing checks that the key says exactly that.
  function KeyOf(d: Draft, now: int): Key {
    Key(d.licenseId, d.customerName, d.customerExternalId, now, d.expiresAt, d.graceDays,
        if d.maxSources.None? then None else Some(Limits(None, None, d.maxSources, None)),
        d.plan, if d.allFeatures then None else Some(d.features), d.telemetry)
  }

  // The check of the signer: the first field in which the key and the draft differ, None when none does.
  // Here `Some([])` and `None` are one and the same list of connection types.
  function Disagreement(key: Key, asked: Key): string {
    if key.id != asked.id then "id"
    else if key.issuedTo != asked.issuedTo then "issued_to"
    else if key.customerId != asked.customerId then "customer_id"
    else if key.issuedAt != asked.issuedAt then "issued_at"
    else if key.expiresAt != asked.expiresAt then "expires_at"
    else if key.graceDays != asked.graceDays then "grace_days"
    else if !SameLimits(key.limits, asked.limits) then "limits"
    else if key.plan != asked.plan then "plan"
    else if key.features.None? != asked.features.None? then "features"
    else if ValueOr(key.features, []) != ValueOr(asked.features, []) then "features"
    else if key.telemetry != asked.telemetry then "telemetry"
    else ""
  }

  predicate SameLimits(a: Option<Limits>, b: Option<Limits>) {
    if a.None? || b.None? then a.None? && b.None?
    else
      && a.value.maxJobs == b.value.maxJobs
      && a.value.maxConnections == b.value.maxConnections
      && a.value.maxSources == b.value.maxSources
      && ValueOr(a.value.allowedConnectionTypes, []) == ValueOr(b.value.allowedConnectionTypes, [])
  }

  // The key of a draft, with an empty list of connection types where there was none.
  function WithNoTypes(key: Key): Key {
    if key.limits.None? then key
    else key.(limits := Some(key.limits.value.(allowedConnectionTypes := Some([]))))
  }

  // A signed key passes when it is the key of the draft, and only then, but for an empty list of
  // connection types, which no encoder writes.
  lemma PassesIfAsked(key: Key, d: Draft, now: int)
    ensures Disagreement(key, KeyOf(d, now)) == "" <==> key == KeyOf(d, now) || key == WithNoTypes(KeyOf(d, now))
  {
    var asked := KeyOf(d, now);
    if Disagreement(key, asked) == "" && key.limits.Some? {
      var types := key.limits.value.allowedConnectionTypes;
      assert types == None || types == Some([]);
    }
  }

  // The fields of a key, in the order they are checked.
  const CHECKED: seq<string> := [
    "id", "issued_to", "customer_id", "issued_at", "expires_at", "grace_days", "limits", "plan", "features", "telemetry"]

  // A field says the same in both keys.
  predicate SaysTheSameOf(field: string, key: Key, asked: Key) {
    match field
    case "id" => key.id == asked.id
    case "issued_to" => key.issuedTo == asked.issuedTo
    case "customer_id" => key.customerId == asked.customerId
    case "issued_at" => key.issuedAt == asked.issuedAt
    case "expires_at" => key.expiresAt == asked.expiresAt
    case "grace_days" => key.graceDays == asked.graceDays
    case "limits" => SameLimits(key.limits, asked.limits)
    case "plan" => key.plan == asked.plan
    case "features" => key.features == asked.features
    case "telemetry" => key.telemetry == asked.telemetry
    case _ => false
  }

  // What is told is the first field that does not say the same.
  lemma DisagreementIsTheFirst(key: Key, asked: Key)
    ensures var told := Disagreement(key, asked);
            if told == "" then forall k :: 0 <= k < |CHECKED| ==> SaysTheSameOf(CHECKED[k], key, asked)
            else exists k :: 0 <= k < |CHECKED| && CHECKED[k] == told && !SaysTheSameOf(told, key, asked)
                             && forall l :: 0 <= l < k ==> SaysTheSameOf(CHECKED[l], key, asked)
  {
    hide SameLimits;
    var told := Disagreement(key, asked);
    if told != "" {
      var k := match told
               case "id" => 0 case "issued_to" => 1 case "customer_id" => 2 case "issued_at" => 3
               case "expires_at" => 4 case "grace_days" => 5 case "limits" => 6 case "plan" => 7
               case "features" => 8 case _ => 9;
      assert CHECKED[k] == told;
    }
  }

  function Succeeded(succeeds: string): Option<string> {
    if succeeds == "" then None else Some(succeeds)
  }

  function ValueOr<T>(o: Option<T>, default_: T): T {
    match o case None => default_ case Some(v) => v
  }

  // The columns of the row equal the fields of the key the draft would be signed as for that customer.
  predicate IsTheContentOf(d: Draft, id: string, stored: License, customer: nat) {
    var features := if d.allFeatures then [] else d.features;
    && (stored.key.limits.Some? ==>
          var l := stored.key.limits.value;
          l.maxJobs.None? && l.maxConnections.None? && l.allowedConnectionTypes.None?)
    && id == d.licenseId
    && stored.customer == customer
    && stored.key.plan == d.plan
    && stored.key.features.None? == d.allFeatures
    && ValueOr(stored.key.features, []) == features
    && (if stored.key.limits.None? then None else stored.key.limits.value.maxSources) == d.maxSources
    && stored.key.expiresAt == d.expiresAt
    && stored.key.graceDays == d.graceDays
    && stored.key.telemetry == d.telemetry
    && ValueOr(stored.succeeds, "") == d.succeeds
  }

  // A draft says all the features or lists some, not both.
  predicate OneChoiceOfFeatures(d: Draft) {
    d.allFeatures ==> d.features == []
  }

  // Two drafts that ask for one license: all they carry is the same, but for what a key has no
  // field to compare by: the name of the customer, its external id and the note.
  predicate SameLicense(d: Draft, e: Draft) {
    e == d.(customerName := e.customerName, customerExternalId := e.customerExternalId, note := e.note)
  }

  // The row a draft was recorded as is the content of another draft exactly when both ask for the
  // same license.
  lemma ContentTellsDrafts(d: Draft, e: Draft, stored: License, customer: nat, other: nat, now: int)
    requires OneChoiceOfFeatures(d) && OneChoiceOfFeatures(e)
    requires stored.key == KeyOf(d, now) && stored.succeeds == Succeeded(d.succeeds) && stored.customer == customer
    ensures IsTheContentOf(e, d.licenseId, stored, other) <==> SameLicense(d, e) && customer == other
  {
    if IsTheContentOf(e, d.licenseId, stored, other) {
      assert d.features == e.features;
    }
  }
}
