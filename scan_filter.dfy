/**
 * Which brokers a scan covers (`BrokerFilter`), and whether a profile holds
 * every field a broker's search needs (`check_profile_completeness`).
 */
module ScanFilter {
  import opened Wrappers
  import opened CoreTypes
  import BD = BrokerDefinition
  import VP = VaultProfile
  import Seqs

  datatype BrokerFilter =
    | AllBrokers
    | ByCategory(category: string)
    | Specific(ids: seq<string>)

  /** `ids.iter().any(|id| id == s)`. */
  function AnyEquals(ids: seq<string>, s: string): (r: bool)
    ensures r <==> s in ids
  {
    if ids == [] then false else ids[0] == s || AnyEquals(ids[1..], s)
  }

  /** `BrokerFilter::matches`; a category is compared by its kebab-case name. */
  function Matches(f: BrokerFilter, d: BD.Definition): (r: bool)
    ensures f.AllBrokers? ==> r
    ensures f.Specific? ==> (r <==> d.broker.id.value in f.ids)
    ensures f.ByCategory? ==> (r <==> BD.CategoryKebab(d.broker.category) == f.category)
  {
    match f
    case AllBrokers => true
    case ByCategory(cat) => BD.CategoryKebab(d.broker.category) == cat
    case Specific(ids) => AnyEquals(ids, d.broker.id.value)
  }

  /** An empty list of ids selects no broker; a category filter selects a broker of that category only. */
  lemma FilterSelections(d: BD.Definition, c: BD.BrokerCategory)
    ensures !Matches(Specific([]), d)
    ensures Matches(ByCategory(BD.CategoryKebab(c)), d) <==> d.broker.category == c
  {
    BD.CategoryNamesInjective(d.broker.category, c);
  }

  /** Whether the profile holds the value a search field needs. */
  function IsPresent(field: PiiField, p: VP.UserProfile): bool {
    match field
    case FullName => p.fullName.Some?
    case FirstName => p.firstName.Some?
    case LastName => p.lastName.Some?
    case MiddleName => p.middleName.Some?
    case DateOfBirth => p.dateOfBirth.Some?
    case Age => p.dateOfBirth.Some?
    case State => p.state.Some?
    case City => p.city.Some?
    case ZipCode => p.zipCode.Some?
    case Address => p.address.Some?
    case Phone => p.phone.Some? || p.phoneNumbers != []
    case Email => p.email.Some?
    case Country => p.country.Some?
    case Ssn => p.ssn.Some?
    case Employer => p.employer.Some?
    case JobTitle => p.jobTitle.Some?
    case Education => p.education.Some?
    case SocialMedia => p.socialMedia.Some?
    case Relatives => p.relatives != []
    case PreviousAddress => p.previousAddresses != []
    case IpAddress => false
    case Photo => false
    case Other => false
  }

  /** Fields the profile does not track. */
  predicate Untracked(field: PiiField) {
    field == IpAddress || field == Photo || field == Other
  }

  /** The required fields the profile lacks, in order and with repeats. */
  function Missing(required: seq<PiiField>, p: VP.UserProfile): seq<PiiField> {
    Seqs.Filter(required, f => !IsPresent(f, p))
  }

  /** What `check_profile_completeness` returns, as a function of the broker and the profile. */
  function Completeness(d: BD.Definition, p: VP.UserProfile): Result<(), seq<PiiField>> {
    if d.search.ManualSearch? then Ok(())
    else
      var missing := Missing(d.search.requiresFields, p);
      if missing == [] then Ok(()) else Err(missing)
  }

  /**
   * `check_profile_completeness`. The encryption key is not read: the
   * result is a function of the broker and the profile alone.
   */
  method CheckProfileCompleteness(d: BD.Definition, p: VP.UserProfile, key: seq<bv8>)
    returns (r: Result<(), seq<PiiField>>)
    requires |key| == 32
    ensures r == Completeness(d, p)
  {
    if d.search.ManualSearch? {
      return Ok(());
    }
    var required := d.search.requiresFields;
    var missing: seq<PiiField> := [];
    var i := 0;
    while i < |required|
      invariant 0 <= i <= |required|
      invariant missing == Missing(required[..i], p)
    {
      var field := required[i];
      Seqs.FilterAppend(required[..i], [field], f => !IsPresent(f, p));
      assert required[..i + 1] == required[..i] + [field];
      if !IsPresent(field, p) {
        missing := missing + [field];
      }
      i := i + 1;
    }
    assert required[..i] == required;
    if missing == [] {
      r := Ok(());
    } else {
      r := Err(missing);
    }
  }

  /**
   * The check passes exactly when the search is manual or every required
   * field is present; otherwise it names each absent field.
   */
  lemma CompletenessMeaning(d: BD.Definition, p: VP.UserProfile)
    ensures Completeness(d, p).Ok?
        <==> d.search.ManualSearch? || forall f :: f in d.search.requiresFields ==> IsPresent(f, p)
    ensures Completeness(d, p).Err? ==>
      forall f :: f in Completeness(d, p).error <==> f in d.search.requiresFields && !IsPresent(f, p)
  {
    if !d.search.ManualSearch? {
      var missing := Missing(d.search.requiresFields, p);
      if missing != [] {
        assert missing[0] in missing;
      }
    }
  }

  /** Missing fields keep the order of `requires_fields`, duplicates included. */
  lemma {:induction false} MissingKeepsOrder(a: seq<PiiField>, b: seq<PiiField>, p: VP.UserProfile)
    ensures Missing(a + b, p) == Missing(a, p) + Missing(b, p)
  {
    Seqs.FilterAppend(a, b, f => !IsPresent(f, p));
  }

  /** A field repeated in `requires_fields` is reported as often as it is listed. */
  lemma MissingTwice(field: PiiField, p: VP.UserProfile)
    requires !IsPresent(field, p)
    ensures Missing([field, field], p) == [field, field]
  {
    assert [field, field][1..] == [field];
  }

  /**
   * A phone counts when the legacy phone or a phone number is stored, an age
   * when the date of birth is; untracked fields are never present.
   */
  lemma PresenceRules(p: VP.UserProfile, field: PiiField)
    ensures IsPresent(Phone, p) <==> p.phone.Some? || p.phoneNumbers != []
    ensures IsPresent(Age, p) <==> IsPresent(DateOfBirth, p)
    ensures Untracked(field) ==> !IsPresent(field, p)
  {
  }

  /** A broker that needs an untracked field never passes, whatever the profile. */
  lemma UntrackedAlwaysMissing(d: BD.Definition, p: VP.UserProfile, field: PiiField)
    requires !d.search.ManualSearch? && field in d.search.requiresFields && Untracked(field)
    ensures Completeness(d, p).Err? && field in Completeness(d, p).error
  {
    CompletenessMeaning(d, p);
  }

  /** A manual search passes for every profile, even a blank one. */
  lemma ManualAlwaysPasses(d: BD.Definition, p: VP.UserProfile)
    requires d.search.ManualSearch?
    ensures Completeness(d, p) == Ok(())
  {
  }
}
