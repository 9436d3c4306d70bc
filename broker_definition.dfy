/**
 * Broker definitions as loaded from their TOML files, and the fail-fast
 * check `BrokerDefinition::validate` that the registry runs before it
 * accepts one.
 */
module BrokerDefinition {
  import opened Wrappers
  import opened Ints
  import opened CoreTypes
  import Text

  /** The errors of the broker subsystem that the modelled code raises. */
  datatype BrokerError =
    | NotFound(brokerId: string)
    | ValidationError(brokerId: string, reason: string)

  datatype BrokerCategory =
    | PeopleSearch | BackgroundCheck | DataAggregator | Financial
    | GovernmentRecords | Marketing | SocialMedia | Other

  /** `BrokerCategory::display_name`. */
  function CategoryDisplayName(c: BrokerCategory): string {
    match c
    case PeopleSearch => "People Search"
    case BackgroundCheck => "Background Check"
    case DataAggregator => "Data Aggregator"
    case Financial => "Financial"
    case GovernmentRecords => "Government Records"
    case Marketing => "Marketing"
    case SocialMedia => "Social Media"
    case Other => "Other"
  }

  /** The kebab-case name under which a category is written in TOML and JSON. */
  function CategoryKebab(c: BrokerCategory): string {
    match c
    case PeopleSearch => "people-search"
    case BackgroundCheck => "background-check"
    case DataAggregator => "data-aggregator"
    case Financial => "financial"
    case GovernmentRecords => "government-records"
    case Marketing => "marketing"
    case SocialMedia => "social-media"
    case Other => "other"
  }

  /** Two categories share neither a display name nor a kebab-case name. */
  lemma CategoryNamesInjective(a: BrokerCategory, b: BrokerCategory)
    ensures CategoryDisplayName(a) == CategoryDisplayName(b) ==> a == b
    ensures CategoryKebab(a) == CategoryKebab(b) ==> a == b
  {
  }

  datatype RemovalDifficulty = Easy | Medium | Hard

  /** Declaration order, which the derived `Ord` compares. */
  function DifficultyRank(d: RemovalDifficulty): (rank: nat)
    ensures rank < 3
  {
    match d
    case Easy => 0
    case Medium => 1
    case Hard => 2
  }

  /** The derived `<` on difficulties. */
  predicate DifficultyLess(a: RemovalDifficulty, b: RemovalDifficulty) {
    DifficultyRank(a) < DifficultyRank(b)
  }

  /** Difficulties are totally ordered, Easy < Medium < Hard. */
  lemma DifficultyTotalOrder(a: RemovalDifficulty, b: RemovalDifficulty, c: RemovalDifficulty)
    ensures DifficultyLess(Easy, Medium) && DifficultyLess(Medium, Hard)
    ensures !DifficultyLess(a, a)
    ensures a == b || DifficultyLess(a, b) || DifficultyLess(b, a)
    ensures DifficultyLess(a, b) ==> !DifficultyLess(b, a)
    ensures DifficultyLess(a, b) && DifficultyLess(b, c) ==> DifficultyLess(a, c)
  {
  }

  datatype BrokerMetadata = BrokerMetadata(
    id: BrokerId,
    name: string,
    url: string,
    domain: string,
    category: BrokerCategory,
    difficulty: RemovalDifficulty,
    typicalRemovalDays: uint32,
    recheckIntervalDays: uint32,
    lastVerified: Date)

  /** How a broker's site is searched. */
  datatype SearchMethod =
    | UrlTemplate(template: string, requiresFields: seq<PiiField>)
    | FormSearch(url: string, fields: map<string, string>, requiresFields: seq<PiiField>)
    | ManualSearch(url: string, instructions: string)

  datatype FormSelectors = FormSelectors(
    listingUrlInput: Option<string>,
    emailInput: Option<string>,
    firstNameInput: Option<string>,
    lastNameInput: Option<string>,
    submitButton: string,
    captchaFrame: Option<string>,
    successIndicator: Option<string>)

  datatype ConfirmationType = EmailVerification | Automatic | ManualConfirmation

  /** How an opt-out is sent to a broker. */
  datatype RemovalMethod =
    | WebForm(url: string, fields: map<string, string>, formSelectors: FormSelectors,
              confirmation: ConfirmationType, notes: string)
    | Email(email: string, subject: string, body: string, responseDays: uint32, notes: string)
    | Phone(phone: string, instructions: string)
    | Manual(instructions: string)

  datatype Definition = Definition(broker: BrokerMetadata, search: SearchMethod, removal: RemovalMethod)

  function Invalid(id: BrokerId, reason: string): BrokerError {
    ValidationError(id.value, reason)
  }

  /** `SearchMethod::validate`: each variant needs its own fields non-empty. */
  function ValidateSearch(m: SearchMethod, id: BrokerId): (r: Result<(), BrokerError>)
    ensures r.Ok? <==> match m
      case UrlTemplate(t, req) => t != [] && req != []
      case FormSearch(u, f, req) => u != [] && f != map[] && req != []
      case ManualSearch(u, ins) => u != [] && ins != []
    ensures r.Err? ==> r.error.ValidationError? && r.error.brokerId == id.value
  {
    match m
    case UrlTemplate(t, req) =>
      if t == [] then Err(Invalid(id, "URL template cannot be empty"))
      else if req == [] then Err(Invalid(id, "UrlTemplate requires at least one PII field"))
      else Ok(())
    case FormSearch(u, f, req) =>
      if u == [] then Err(Invalid(id, "WebForm URL cannot be empty"))
      else if f == map[] then Err(Invalid(id, "WebForm requires at least one field mapping"))
      else if req == [] then Err(Invalid(id, "WebForm requires at least one PII field"))
      else Ok(())
    case ManualSearch(u, ins) =>
      if u == [] then Err(Invalid(id, "Manual search URL cannot be empty"))
      else if ins == [] then Err(Invalid(id, "Manual search instructions cannot be empty"))
      else Ok(())
  }

  /** `validate_web_form`: url, field mappings and the submit-button selector. */
  function ValidateWebForm(id: BrokerId, url: string, fields: map<string, string>, sel: FormSelectors)
    : (r: Result<(), BrokerError>)
    ensures r.Ok? <==> url != [] && fields != map[] && sel.submitButton != []
    ensures r.Err? ==> r.error.ValidationError? && r.error.brokerId == id.value
  {
    if url == [] then Err(Invalid(id, "removal.url cannot be empty for web-form method"))
    else if fields == map[] then Err(Invalid(id, "removal.fields cannot be empty for web-form method"))
    else if sel.submitButton == [] then Err(Invalid(id, "removal.form_selectors.submit_button is required"))
    else Ok(())
  }

  /** `validate_email`: address, subject and body, then a response time of 1 to 90 days. */
  function ValidateEmail(id: BrokerId, email: string, subject: string, body: string, days: uint32)
    : (r: Result<(), BrokerError>)
    ensures r.Ok? <==> email != [] && subject != [] && body != [] && 1 <= days <= 90
    ensures r.Err? ==> r.error.ValidationError? && r.error.brokerId == id.value
  {
    if email == [] then Err(Invalid(id, "Email removal requires email address"))
    else if subject == [] then Err(Invalid(id, "Email removal requires subject template"))
    else if body == [] then Err(Invalid(id, "Email removal requires body template"))
    else if days == 0 || days > 90 then
      Err(Invalid(id, "response_days must be 1-90, got " + Text.NatToString(days)))
    else Ok(())
  }

  /** `validate_phone`. */
  function ValidatePhone(id: BrokerId, phone: string, instructions: string): (r: Result<(), BrokerError>)
    ensures r.Ok? <==> phone != [] && instructions != []
    ensures r.Err? ==> r.error.ValidationError? && r.error.brokerId == id.value
  {
    if phone == [] then Err(Invalid(id, "Phone removal requires phone number"))
    else if instructions == [] then Err(Invalid(id, "Phone removal requires instructions"))
    else Ok(())
  }

  /** `validate_manual`. */
  function ValidateManual(id: BrokerId, instructions: string): (r: Result<(), BrokerError>)
    ensures r.Ok? <==> instructions != []
    ensures r.Err? ==> r.error.ValidationError? && r.error.brokerId == id.value
  {
    if instructions == [] then Err(Invalid(id, "Manual removal requires instructions"))
    else Ok(())
  }

  /** `RemovalMethod::validate`: the check of the variant at hand. */
  function ValidateRemoval(m: RemovalMethod, id: BrokerId): (r: Result<(), BrokerError>)
    ensures r.Ok? <==> match m
      case WebForm(u, f, sel, _, _) => u != [] && f != map[] && sel.submitButton != []
      case Email(e, s, b, d, _) => e != [] && s != [] && b != [] && 1 <= d <= 90
      case Phone(p, ins) => p != [] && ins != []
      case Manual(ins) => ins != []
    ensures r.Err? ==> r.error.ValidationError? && r.error.brokerId == id.value
  {
    match m
    case WebForm(u, f, sel, _, _) => ValidateWebForm(id, u, f, sel)
    case Email(e, s, b, d, _) => ValidateEmail(id, e, s, b, d)
    case Phone(p, ins) => ValidatePhone(id, p, ins)
    case Manual(ins) => ValidateManual(id, ins)
  }

  /** A day count the metadata accepts. */
  predicate DaysInYear(days: int) {
    1 <= days <= 365
  }

  /**
   * `BrokerDefinition::validate`: name, url, the two day counts, the search
   * method and the removal method, stopping at the first failure.
   */
  function Validate(d: Definition): (r: Result<(), BrokerError>)
    ensures r.Ok? <==>
      d.broker.name != [] && d.broker.url != []
      && DaysInYear(d.broker.typicalRemovalDays) && DaysInYear(d.broker.recheckIntervalDays)
      && ValidateSearch(d.search, d.broker.id).Ok? && ValidateRemoval(d.removal, d.broker.id).Ok?
    ensures r.Err? ==> r.error.ValidationError? && r.error.brokerId == d.broker.id.value
  {
    var b := d.broker;
    if b.name == [] then Err(Invalid(b.id, "broker name cannot be empty"))
    else if b.url == [] then Err(Invalid(b.id, "broker URL cannot be empty"))
    else if b.typicalRemovalDays == 0 || b.typicalRemovalDays > 365 then
      Err(Invalid(b.id, "typical_removal_days must be 1-365, got " + Text.NatToString(b.typicalRemovalDays)))
    else if b.recheckIntervalDays == 0 || b.recheckIntervalDays > 365 then
      Err(Invalid(b.id, "recheck_interval_days must be 1-365, got " + Text.NatToString(b.recheckIntervalDays)))
    else if ValidateSearch(d.search, b.id).Err? then ValidateSearch(d.search, b.id)
    else ValidateRemoval(d.removal, b.id)
  }

  // ---------------------------------------------------------------------
  // Fail-fast order

  /** The first failing check of a list, or success when none fails. */
  function FirstFailure(checks: seq<Result<(), BrokerError>>): (r: Result<(), BrokerError>)
    ensures r.Ok? <==> forall k :: 0 <= k < |checks| ==> checks[k].Ok?
    ensures r.Err? ==> exists k :: 0 <= k < |checks| && r == checks[k]
                                   && forall j :: 0 <= j < k ==> checks[j].Ok?
  {
    if checks == [] then Ok(())
    else if checks[0].Err? then checks[0]
    else
      var r := FirstFailure(checks[1..]);
      assert forall k :: 1 <= k < |checks| ==> checks[k] == checks[1..][k - 1];
      r
  }

  function RangeCheck(id: BrokerId, message: string, days: uint32): Result<(), BrokerError> {
    if DaysInYear(days) then Ok(())
    else Err(Invalid(id, message + Text.NatToString(days)))
  }

  function NonEmptyCheck(id: BrokerId, s: string, reason: string): Result<(), BrokerError> {
    if s != [] then Ok(()) else Err(Invalid(id, reason))
  }

  /** The six checks of `validate`, each on its own, in the order they are made. */
  function Checks(d: Definition): seq<Result<(), BrokerError>> {
    var b := d.broker;
    [ NonEmptyCheck(b.id, b.name, "broker name cannot be empty"),
      NonEmptyCheck(b.id, b.url, "broker URL cannot be empty"),
      RangeCheck(b.id, "typical_removal_days must be 1-365, got ", b.typicalRemovalDays),
      RangeCheck(b.id, "recheck_interval_days must be 1-365, got ", b.recheckIntervalDays),
      ValidateSearch(d.search, b.id),
      ValidateRemoval(d.removal, b.id) ]
  }

  lemma FirstFailureCons(x: Result<(), BrokerError>, rest: seq<Result<(), BrokerError>>)
    ensures FirstFailure([x] + rest) == if x.Err? then x else FirstFailure(rest)
  {
    assert ([x] + rest)[1..] == rest;
  }

  lemma FirstFailureOfSix(r0: Result<(), BrokerError>, r1: Result<(), BrokerError>,
                          r2: Result<(), BrokerError>, r3: Result<(), BrokerError>,
                          r4: Result<(), BrokerError>, r5: Result<(), BrokerError>)
    requires r5.Ok? ==> r5 == Ok(())
    ensures FirstFailure([r0, r1, r2, r3, r4, r5])
         == if r0.Err? then r0 else if r1.Err? then r1 else if r2.Err? then r2
            else if r3.Err? then r3 else if r4.Err? then r4 else r5
  {
    FirstFailureCons(r5, []);
    FirstFailureCons(r4, [r5]);
    FirstFailureCons(r3, [r4, r5]);
    FirstFailureCons(r2, [r3, r4, r5]);
    FirstFailureCons(r1, [r2, r3, r4, r5]);
    FirstFailureCons(r0, [r1, r2, r3, r4, r5]);
  }

  /** `validate` reports exactly the first of its six checks that fails. */
  lemma ValidateIsFirstFailure(d: Definition)
    ensures Validate(d) == FirstFailure(Checks(d))
  {
    var c := Checks(d);
    assert FirstFailure(c)
        == if c[0].Err? then c[0] else if c[1].Err? then c[1] else if c[2].Err? then c[2]
           else if c[3].Err? then c[3] else if c[4].Err? then c[4] else c[5] by {
      FirstFailureOfSix(c[0], c[1], c[2], c[3], c[4], c[5]);
      assert c == [c[0], c[1], c[2], c[3], c[4], c[5]];
    }
    ValidateChain(d, c[0], c[1], c[2], c[3], c[4], c[5]);
  }

  /** `validate`'s early returns, one check after another. */
  lemma ValidateChain(d: Definition, c0: Result<(), BrokerError>, c1: Result<(), BrokerError>,
                      c2: Result<(), BrokerError>, c3: Result<(), BrokerError>,
                      c4: Result<(), BrokerError>, c5: Result<(), BrokerError>)
    requires c0 == NonEmptyCheck(d.broker.id, d.broker.name, "broker name cannot be empty")
    requires c1 == NonEmptyCheck(d.broker.id, d.broker.url, "broker URL cannot be empty")
    requires c2 == RangeCheck(d.broker.id, "typical_removal_days must be 1-365, got ", d.broker.typicalRemovalDays)
    requires c3 == RangeCheck(d.broker.id, "recheck_interval_days must be 1-365, got ", d.broker.recheckIntervalDays)
    requires c4 == ValidateSearch(d.search, d.broker.id)
    requires c5 == ValidateRemoval(d.removal, d.broker.id)
    ensures Validate(d)
         == if c0.Err? then c0 else if c1.Err? then c1 else if c2.Err? then c2
            else if c3.Err? then c3 else if c4.Err? then c4 else c5
  {
  }

  /** Each day count is accepted exactly in 1..=365. */
  lemma DayRanges(d: Definition)
    requires d.broker.name != [] && d.broker.url != []
    ensures !DaysInYear(d.broker.typicalRemovalDays) ==>
      Validate(d) == Err(ValidationError(d.broker.id.value,
        "typical_removal_days must be 1-365, got " + Text.NatToString(d.broker.typicalRemovalDays)))
    ensures DaysInYear(d.broker.typicalRemovalDays) && !DaysInYear(d.broker.recheckIntervalDays) ==>
      Validate(d) == Err(ValidationError(d.broker.id.value,
        "recheck_interval_days must be 1-365, got " + Text.NatToString(d.broker.recheckIntervalDays)))
  {
  }

  /** Domain, category, difficulty, date, confirmation and notes are never looked at. */
  predicate SameCheckedFields(d1: Definition, d2: Definition) {
    d1.broker.id == d2.broker.id && d1.broker.name == d2.broker.name && d1.broker.url == d2.broker.url
    && d1.broker.typicalRemovalDays == d2.broker.typicalRemovalDays
    && d1.broker.recheckIntervalDays == d2.broker.recheckIntervalDays
    && d1.search == d2.search
    && match d1.removal
       case WebForm(u, f, sel, _, _) =>
         d2.removal.WebForm? && d2.removal.url == u && d2.removal.fields == f
         && d2.removal.formSelectors.submitButton == sel.submitButton
       case Email(e, s, b, days, _) =>
         d2.removal.Email? && d2.removal.email == e && d2.removal.subject == s
         && d2.removal.body == b && d2.removal.responseDays == days
       case _ => d2.removal == d1.removal
  }

  lemma ValidateIgnoresOtherFields(d1: Definition, d2: Definition)
    requires SameCheckedFields(d1, d2)
    ensures Validate(d1) == Validate(d2)
  {
  }

  /** The definition of the tests passes, and fails once a day count is out of range or the name is empty. */
  lemma SampleDefinition(d: Definition)
    requires d.broker.name == "Test Broker" && d.broker.url == "https://test.com"
    requires d.broker.typicalRemovalDays == 7 && d.broker.recheckIntervalDays == 30
    requires d.search == UrlTemplate("https://test.com/{first}-{last}", [FirstName, LastName])
    requires d.removal.WebForm? && d.removal.url == "https://test.com/optout"
    requires d.removal.fields == map["email" := "{user_email}"]
    requires d.removal.formSelectors.submitButton == "button[type='submit']"
    ensures Validate(d).Ok?
    ensures Validate(d.(broker := d.broker.(typicalRemovalDays := 0))).Err?
    ensures Validate(d.(broker := d.broker.(recheckIntervalDays := 500))).Err?
    ensures Validate(d.(broker := d.broker.(name := ""))).Err?
  {
    assert "email" in d.removal.fields;
  }
}
