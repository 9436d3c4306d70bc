/**
 * The vault's user profile and its completeness score: a weighted count of
 * the fields that are present, and the tier and message derived from it.
 * Field contents are ciphertext here; only their presence is ever read.
 */
module VaultProfile {
  import opened Wrappers
  import opened Ints
  import opened CoreTypes

  /** An encrypted field (`EncryptedField<T>`): ciphertext and nonce, never opened here. */
  datatype Sealed = Sealed(ciphertext: seq<uint8>, nonce: seq<uint8>)

  datatype PhoneType = Mobile | Home | Work
  datatype PhoneNumber = PhoneNumber(number: Sealed, phoneType: PhoneType)

  datatype PreviousAddress = PreviousAddress(
    addressLine1: Sealed, addressLine2: Option<Sealed>, city: Sealed, state: Sealed,
    zipCode: Sealed, livedFrom: Option<string>, livedTo: Option<string>)

  datatype RelationshipType = Spouse | Partner | Parent | Child | Sibling | OtherRelation
  datatype Relative = Relative(name: Sealed, relationship: RelationshipType)

  datatype UserProfile = UserProfile(
    id: ProfileId,
    fullName: Option<Sealed>,
    firstName: Option<Sealed>,
    middleName: Option<Sealed>,
    lastName: Option<Sealed>,
    email: Option<Sealed>,
    phone: Option<Sealed>,
    address: Option<Sealed>,
    city: Option<Sealed>,
    state: Option<Sealed>,
    zipCode: Option<Sealed>,
    country: Option<Sealed>,
    dateOfBirth: Option<Sealed>,
    ssn: Option<Sealed>,
    employer: Option<Sealed>,
    jobTitle: Option<Sealed>,
    education: Option<Sealed>,
    socialMedia: Option<Sealed>,
    previousAddressesV1: Option<Sealed>,
    phoneNumbers: seq<PhoneNumber>,
    previousAddresses: seq<PreviousAddress>,
    aliases: seq<Sealed>,
    relatives: seq<Relative>,
    createdAt: int,
    updatedAt: int)

  /** No personal data at all. */
  predicate Blank(p: UserProfile) {
    p.fullName.None? && p.firstName.None? && p.middleName.None? && p.lastName.None?
    && p.email.None? && p.phone.None? && p.address.None? && p.city.None? && p.state.None?
    && p.zipCode.None? && p.country.None? && p.dateOfBirth.None? && p.ssn.None?
    && p.employer.None? && p.jobTitle.None? && p.education.None? && p.socialMedia.None?
    && p.previousAddressesV1.None?
    && p.phoneNumbers == [] && p.previousAddresses == [] && p.aliases == [] && p.relatives == []
  }

  /** `UserProfile::new`, with the clock reading passed in. */
  function NewProfile(id: ProfileId, now: int): (p: UserProfile)
    ensures p.id == id && Blank(p)
    ensures p.createdAt == now && p.updatedAt == now
  {
    UserProfile(id, None, None, None, None, None, None, None, None, None, None, None, None,
                None, None, None, None, None, None, [], [], [], [], now, now)
  }

  /** `touch`: only the update time changes. */
  function Touch(p: UserProfile, now: int): (q: UserProfile)
    ensures q.updatedAt == now && q.(updatedAt := p.updatedAt) == p
  {
    p.(updatedAt := now)
  }

  // ---------------------------------------------------------------------
  // Completeness

  datatype CompletenessTier = Minimal | Basic | Good | Excellent

  datatype ProfileCompleteness = ProfileCompleteness(
    score: uint32, maxScore: uint32, percentage: uint32, tier: CompletenessTier, message: string)

  /** One line of the scoring table: whether it is met, and what it is worth. */
  datatype Criterion = Criterion(met: bool, points: nat)

  /** Core identity, 40 points. */
  function CoreIdentity(p: UserProfile): seq<Criterion> {
    [Criterion(p.firstName.Some?, 15), Criterion(p.lastName.Some?, 15), Criterion(p.email.Some?, 10)]
  }

  /** Current location, 30 points; state and ZIP count only together. */
  function CurrentLocation(p: UserProfile): seq<Criterion> {
    [Criterion(p.address.Some?, 10), Criterion(p.city.Some?, 10),
     Criterion(p.state.Some? && p.zipCode.Some?, 10)]
  }

  /** Enhanced matching, 30 points. */
  function EnhancedMatching(p: UserProfile): seq<Criterion> {
    [Criterion(p.phoneNumbers != [], 10), Criterion(p.previousAddresses != [], 10),
     Criterion(p.dateOfBirth.Some?, 5), Criterion(p.aliases != [], 3), Criterion(p.relatives != [], 2)]
  }

  /** The scoring table, in the order of the documented breakdown. */
  function Criteria(p: UserProfile): seq<Criterion> {
    CoreIdentity(p) + CurrentLocation(p) + EnhancedMatching(p)
  }

  function Worth(c: Criterion): nat {
    if c.met then c.points else 0
  }

  function Earned(cs: seq<Criterion>): nat {
    if cs == [] then 0 else Worth(cs[0]) + Earned(cs[1..])
  }

  function Available(cs: seq<Criterion>): nat {
    if cs == [] then 0 else cs[0].points + Available(cs[1..])
  }

  lemma {:induction false} EarnedAppend(a: seq<Criterion>, b: seq<Criterion>)
    ensures Earned(a + b) == Earned(a) + Earned(b)
    ensures Available(a + b) == Available(a) + Available(b)
  {
    if a == [] {
      assert a + b == b;
    } else {
      assert (a + b)[1..] == a[1..] + b;
      EarnedAppend(a[1..], b);
    }
  }

  lemma {:induction false} EarnedAtMostAvailable(cs: seq<Criterion>)
    ensures Earned(cs) <= Available(cs)
    ensures (forall k :: 0 <= k < |cs| ==> cs[k].met) ==> Earned(cs) == Available(cs)
  {
    if cs != [] {
      EarnedAtMostAvailable(cs[1..]);
      assert forall k :: 1 <= k < |cs| ==> cs[k] == cs[1..][k - 1];
    }
  }

  lemma EarnedCons(x: Criterion, rest: seq<Criterion>)
    ensures Earned([x] + rest) == Worth(x) + Earned(rest)
    ensures Available([x] + rest) == x.points + Available(rest)
  {
    assert ([x] + rest)[1..] == rest;
  }

  lemma EarnedThree(a: Criterion, b: Criterion, c: Criterion)
    ensures Earned([a, b, c]) == Worth(a) + Worth(b) + Worth(c)
    ensures Available([a, b, c]) == a.points + b.points + c.points
  {
    EarnedCons(c, []);
    assert [b, c] == [b] + [c];
    EarnedCons(b, [c]);
    assert [a, b, c] == [a] + [b, c];
    EarnedCons(a, [b, c]);
  }

  lemma EarnedFive(a: Criterion, b: Criterion, c: Criterion, d: Criterion, e: Criterion)
    ensures Earned([a, b, c, d, e]) == Worth(a) + Worth(b) + Worth(c) + Worth(d) + Worth(e)
    ensures Available([a, b, c, d, e]) == a.points + b.points + c.points + d.points + e.points
  {
    EarnedThree(c, d, e);
    assert [b, c, d, e] == [b] + [c, d, e];
    EarnedCons(b, [c, d, e]);
    assert [a, b, c, d, e] == [a] + [b, c, d, e];
    EarnedCons(a, [b, c, d, e]);
  }

  function Score(p: UserProfile): nat {
    Earned(Criteria(p))
  }

  /** The score group by group, and the table's total of 100 points. */
  lemma ScoreByGroup(p: UserProfile)
    ensures Score(p) == Earned(CoreIdentity(p)) + Earned(CurrentLocation(p)) + Earned(EnhancedMatching(p))
    ensures Available(Criteria(p)) == 100
  {
    var core, loc, more := CoreIdentity(p), CurrentLocation(p), EnhancedMatching(p);
    EarnedAppend(core, loc);
    EarnedAppend(core + loc, more);
    EarnedThree(core[0], core[1], core[2]);
    EarnedThree(loc[0], loc[1], loc[2]);
    EarnedFive(more[0], more[1], more[2], more[3], more[4]);
  }

  /** Each group's points in terms of the profile's fields. */
  lemma GroupPoints(p: UserProfile)
    ensures Earned(CoreIdentity(p))
         == (if p.firstName.Some? then 15 else 0) + (if p.lastName.Some? then 15 else 0)
          + (if p.email.Some? then 10 else 0)
    ensures Earned(CurrentLocation(p))
         == (if p.address.Some? then 10 else 0) + (if p.city.Some? then 10 else 0)
          + (if p.state.Some? && p.zipCode.Some? then 10 else 0)
    ensures Earned(EnhancedMatching(p))
         == (if p.phoneNumbers != [] then 10 else 0) + (if p.previousAddresses != [] then 10 else 0)
          + (if p.dateOfBirth.Some? then 5 else 0) + (if p.aliases != [] then 3 else 0)
          + (if p.relatives != [] then 2 else 0)
  {
    var core, loc, more := CoreIdentity(p), CurrentLocation(p), EnhancedMatching(p);
    EarnedThree(core[0], core[1], core[2]);
    EarnedThree(loc[0], loc[1], loc[2]);
    EarnedFive(more[0], more[1], more[2], more[3], more[4]);
  }

  /** The score lies in 0..=100 and reaches 100 exactly when every line is met. */
  lemma ScoreBounded(p: UserProfile)
    ensures Score(p) <= 100
    ensures (forall k :: 0 <= k < 11 ==> Criteria(p)[k].met) ==> Score(p) == 100
  {
    EarnedAtMostAvailable(Criteria(p));
    ScoreByGroup(p);
  }

  function ScoreToTier(score: int): (t: CompletenessTier) {
    if score <= 30 then Minimal
    else if score <= 60 then Basic
    else if score <= 85 then Good
    else Excellent
  }

  function TierRank(t: CompletenessTier): nat {
    match t
    case Minimal => 0
    case Basic => 1
    case Good => 2
    case Excellent => 3
  }

  /** A higher score never gives a lower tier; the boundaries are 30, 60 and 85. */
  lemma TierMonotone(a: int, b: int)
    requires a <= b
    ensures TierRank(ScoreToTier(a)) <= TierRank(ScoreToTier(b))
    ensures ScoreToTier(30) == Minimal && ScoreToTier(31) == Basic
    ensures ScoreToTier(60) == Basic && ScoreToTier(61) == Good
    ensures ScoreToTier(85) == Good && ScoreToTier(86) == Excellent
  {
  }

  function TierMessage(t: CompletenessTier): string {
    match t
    case Minimal => "Limited removal coverage - consider adding more information"
    case Basic => "Basic removal coverage - adding contact info and addresses will improve results"
    case Good => "Good removal coverage - you've provided solid information for effective removal"
    case Excellent =>
      "Excellent removal coverage - comprehensive information enables maximum removal effectiveness"
  }

  /**
   * `completeness_score`: the points of the three groups added up, the tier
   * for that total and the tier's message. The total is at most 100, so the
   * `u32` additions cannot overflow.
   */
  function CompletenessScore(p: UserProfile): (c: ProfileCompleteness)
    ensures c.score as nat == Score(p) && c.maxScore == 100 && c.percentage == c.score
    ensures c.tier == ScoreToTier(c.score as int) && c.message == TierMessage(c.tier)
  {
    var core := (if p.firstName.Some? then 15 else 0) + (if p.lastName.Some? then 15 else 0)
      + (if p.email.Some? then 10 else 0);
    var location := (if p.address.Some? then 10 else 0) + (if p.city.Some? then 10 else 0)
      + (if p.state.Some? && p.zipCode.Some? then 10 else 0);
    var enhanced := (if p.phoneNumbers != [] then 10 else 0) + (if p.previousAddresses != [] then 10 else 0)
      + (if p.dateOfBirth.Some? then 5 else 0) + (if p.aliases != [] then 3 else 0)
      + (if p.relatives != [] then 2 else 0);
    assert core + location + enhanced <= 100 by {
      assert core <= 40 && location <= 30 && enhanced <= 30;
    }
    var score: uint32 := core + location + enhanced;
    assert score as nat == Score(p) by {
      GroupPoints(p);
      ScoreByGroup(p);
    }
    var tier := ScoreToTier(score as int);
    ProfileCompleteness(score, 100, score, tier, TierMessage(tier))
  }

  /** A new profile scores 0 and is Minimal. */
  lemma NewProfileScore(id: ProfileId, now: int)
    ensures Score(NewProfile(id, now)) == 0 && ScoreToTier(0) == Minimal
  {
    ScoreByGroup(NewProfile(id, now));
    GroupPoints(NewProfile(id, now));
  }

  /** First name, last name and e-mail alone give 40, which is Basic. */
  lemma CoreIdentityScore(p: UserProfile, f: Sealed, l: Sealed, e: Sealed)
    requires Blank(p)
    ensures Score(p.(firstName := Some(f), lastName := Some(l), email := Some(e))) == 40
    ensures ScoreToTier(40) == Basic
  {
    ScoreByGroup(p.(firstName := Some(f), lastName := Some(l), email := Some(e)));
    GroupPoints(p.(firstName := Some(f), lastName := Some(l), email := Some(e)));
  }

  /** Every scored field present gives 100, which is Excellent. */
  lemma FullProfileScore(p: UserProfile)
    requires p.firstName.Some? && p.lastName.Some? && p.email.Some? && p.address.Some?
    requires p.city.Some? && p.state.Some? && p.zipCode.Some? && p.dateOfBirth.Some?
    requires p.phoneNumbers != [] && p.previousAddresses != [] && p.aliases != [] && p.relatives != []
    ensures Score(p) == 100 && ScoreToTier(Score(p)) == Excellent
  {
    ScoreByGroup(p);
    GroupPoints(p);
  }

  /** A state without a ZIP code, or a ZIP code without a state, earns nothing. */
  lemma StateNeedsZip(p: UserProfile)
    requires p.state.None? || p.zipCode.None?
    ensures Score(p.(state := None, zipCode := None)) == Score(p)
  {
    ScoreByGroup(p);
    GroupPoints(p);
    ScoreByGroup(p.(state := None, zipCode := None));
    GroupPoints(p.(state := None, zipCode := None));
  }

  /** Two profiles alike in the scored fields. */
  predicate SameScoredFields(p: UserProfile, q: UserProfile) {
    p.firstName.Some? == q.firstName.Some? && p.lastName.Some? == q.lastName.Some?
    && p.email.Some? == q.email.Some? && p.address.Some? == q.address.Some?
    && p.city.Some? == q.city.Some? && p.state.Some? == q.state.Some?
    && p.zipCode.Some? == q.zipCode.Some? && p.dateOfBirth.Some? == q.dateOfBirth.Some?
    && (p.phoneNumbers == []) == (q.phoneNumbers == [])
    && (p.previousAddresses == []) == (q.previousAddresses == [])
    && (p.aliases == []) == (q.aliases == []) && (p.relatives == []) == (q.relatives == [])
  }

  /**
   * Full name, middle name, country, SSN, employer, job title, education,
   * social media, the legacy phone and the legacy address list never change
   * the score, and neither do the contents of the scored fields.
   */
  lemma ScoreReadsOnlyPresence(p: UserProfile, q: UserProfile)
    requires SameScoredFields(p, q)
    ensures Score(p) == Score(q)
  {
    ScoreByGroup(p);
    GroupPoints(p);
    ScoreByGroup(q);
    GroupPoints(q);
  }
}
