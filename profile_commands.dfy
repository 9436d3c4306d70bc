/**
 * The profile commands of the desktop application: how the two address
 * lines share one stored field, how a summary names a profile's owner, and
 * what `profile_create`, `profile_get`, `profile_update`, `profile_list`
 * and `get_profile_completeness` check, write and read back, in the order
 * they do it.
 *
 * The unlocked vaults are a map from vault id to the profiles the vault
 * holds; a command that writes returns the vaults as they are after the
 * write. Field encryption and the text form of dates are functions given
 * as parameters (`Codecs`); the properties that need them to round-trip
 * say so.
 */
module ProfileCommands {
  import opened Wrappers
  import opened Text
  import opened CoreTypes
  import ProfileInput
  import CommandErrors
  import VaultProfile

  type CommandError = CommandErrors.CommandError
  type Sealed = VaultProfile.Sealed
  type UserProfile = VaultProfile.UserProfile

  // ---------------------------------------------------------------------
  // Address lines

  /** The stored address: the two lines with a line break between, or the first line alone. */
  function JoinAddress(line1: string, line2: Option<string>): string {
    match line2
    case Some(l2) => line1 + "\n" + l2
    case None => line1
  }

  /**
   * Reading the stored address back: the first piece between line breaks,
   * and the second if there is one; no stored address reads as an empty
   * first line and no second line.
   */
  function SplitAddress(address: Option<string>): (r: (string, Option<string>))
    ensures address.None? ==> r == ("", None)
    ensures '\n' !in r.0 && (r.1.Some? ==> '\n' !in r.1.value)
    ensures address.Some? && '\n' !in address.value ==> r == (address.value, None)
  {
    match address
    case None => ("", None)
    case Some(a) =>
      var parts := Split(a, '\n');
      (parts[0], if |parts| > 1 then Some(parts[1]) else None)
  }

  /** Lines without line breaks come back as they were written. */
  lemma AddressRoundTrip(line1: string, line2: Option<string>)
    requires '\n' !in line1 && (line2.Some? ==> '\n' !in line2.value)
    ensures SplitAddress(Some(JoinAddress(line1, line2))) == (line1, line2)
  {
    if line2.Some? {
      SplitJoined(line1, line2.value, '\n');
    }
  }

  /** A second line with a line break of its own comes back cut at that break. */
  lemma SecondLineTruncated(line1: string, kept: string, dropped: string)
    requires '\n' !in line1 && '\n' !in kept
    ensures SplitAddress(Some(JoinAddress(line1, Some(kept + "\n" + dropped)))) == (line1, Some(kept))
  {
    assert line1 + "\n" + (kept + "\n" + dropped) == line1 + ['\n'] + (kept + ['\n'] + dropped);
    SplitAfter(line1, kept + ['\n'] + dropped, '\n');
    SplitAfter(kept, dropped, '\n');
  }

  // ---------------------------------------------------------------------
  // Summary names

  /** A decrypted optional field, or the empty text when the field is absent. */
  function OrEmpty(s: Option<string>): string {
    match s
    case Some(v) => v
    case None => ""
  }

  /** The `full_name` of a summary: first and last name around one space, trimmed. */
  function FullName(first: Option<string>, last: Option<string>): string {
    Trim(OrEmpty(first) + " " + OrEmpty(last))
  }

  /** With both names free of outer white space, the full name is both names around one space. */
  lemma FullNameOfTrimmedNames(first: string, last: string)
    requires Trimmed(first) && Trimmed(last)
    ensures FullName(Some(first), Some(last)) == first + " " + last
  {
    TrimUnchanged(first + " " + last);
  }

  /** A first name alone gives the full name without a trailing space. */
  lemma FullNameWithoutLast(first: string)
    requires Trimmed(first)
    ensures FullName(Some(first), None) == first
  {
    var f := first + " ";
    assert OrEmpty(Some(first)) + " " + OrEmpty(None) == f;
    assert f[0] == first[0];
    assert TrimStart(f) == f;
    assert f[..|f| - 1] == first;
    assert TrimEnd(f) == TrimEnd(first) == first;
  }

  /** A last name alone gives the full name without a leading space; no names give the empty text. */
  lemma FullNameWithoutFirst(last: string)
    requires Trimmed(last)
    ensures FullName(None, Some(last)) == last
    ensures FullName(None, None) == ""
  {
    var l := "" + " " + last;
    assert l[1..] == last;
    assert TrimStart(l) == TrimStart(last) == last;
    assert Trim(" ") == TrimEnd(TrimStart(" ")) == "";
  }

  // ---------------------------------------------------------------------
  // Errors on the way

  /** Rust's `?` on an application error. */
  function LiftSpectral<T>(r: Result<T, SpectralError>): (q: Result<T, CommandError>)
    ensures q.Ok? <==> r.Ok?
    ensures r.Err? ==> q.error == CommandErrors.FromSpectral(r.error)
  {
    match r
    case Ok(v) => Ok(v)
    case Err(e) => Err(CommandErrors.FromSpectral(e))
  }

  /** Rust's `?` on a vault error. */
  function LiftVault<T>(r: Result<T, CommandErrors.VaultError>): (q: Result<T, CommandError>)
    ensures q.Ok? <==> r.Ok?
    ensures r.Err? ==> q.error == CommandErrors.FromVault(r.error)
  {
    match r
    case Ok(v) => Ok(v)
    case Err(e) => Err(CommandErrors.FromVault(e))
  }

  /** The error of a command given a vault that is not among the unlocked ones. */
  function NotUnlocked(vaultId: string): CommandError {
    CommandErrors.New("VAULT_NOT_UNLOCKED", "Vault '" + vaultId + "' is not unlocked")
  }

  /** The profiles of one vault, by id. */
  type Vault = map<ProfileId, UserProfile>

  /** `state.get_vault(&vault_id)`, turned into the command's error when the vault is not unlocked. */
  function LookupVault(vaults: map<string, Vault>, vaultId: string): (r: Result<Vault, CommandError>)
    ensures r.Ok? <==> vaultId in vaults
    ensures r.Ok? ==> r.value == vaults[vaultId]
    ensures r.Err? ==> r.error.code == "VAULT_NOT_UNLOCKED"
  {
    if vaultId in vaults then Ok(vaults[vaultId]) else Err(NotUnlocked(vaultId))
  }

  /** `vault.load_profile(&id)`: a profile the vault does not hold is reported as not found. */
  function LoadProfile(vault: Vault, id: ProfileId): (r: Result<UserProfile, CommandError>)
    ensures r.Ok? <==> id in vault
    ensures r.Ok? ==> r.value == vault[id]
    ensures r.Err? ==> r.error.code == "FIELD_NOT_FOUND"
  {
    if id in vault then Ok(vault[id])
    else LiftVault(Err(CommandErrors.NotFound("profile " + id.value)))
  }

  // ---------------------------------------------------------------------
  // Field encryption

  /** Encrypting and decrypting one field, and the text form of a date with its parser. */
  datatype Codecs = Codecs(
    seal: string -> Result<Sealed, CommandErrors.VaultError>,
    open: Sealed -> Result<string, CommandErrors.VaultError>,
    formatDate: Date -> string,
    parseDate: string -> Option<Date>)

  /** A sealed field opens to the text it sealed, and a written date parses back. */
  ghost predicate RoundTrips(c: Codecs) {
    && (forall s :: c.seal(s).Ok? ==> c.open(c.seal(s).value) == Ok(s))
    && (forall d :: c.parseDate(c.formatDate(d)) == Some(d))
  }

  function Seal(c: Codecs, s: string): Result<Sealed, CommandError> {
    LiftVault(c.seal(s))
  }

  /** An optional field: absent stays absent, present is sealed. */
  function SealOptional(c: Codecs, s: Option<string>): Result<Option<Sealed>, CommandError> {
    match s
    case None => Ok(None)
    case Some(v) => var f :- Seal(c, v); Ok(Some(f))
  }

  /** The nine fields the commands write. */
  datatype SealedInput = SealedInput(
    firstName: Sealed, middleName: Option<Sealed>, lastName: Sealed, email: Sealed,
    dateOfBirth: Option<Sealed>, address: Sealed, city: Sealed, state: Sealed, zipCode: Sealed)

  /** The date field as it is sealed: its text form. */
  function DateText(c: Codecs, d: Option<Date>): Option<string> {
    match d
    case Some(x) => Some(c.formatDate(x))
    case None => None
  }

  /** Sealing the input field by field, stopping at the first failure. */
  function SealInput(c: Codecs, input: ProfileInput.Input): Result<SealedInput, CommandError> {
    var first :- Seal(c, input.firstName);
    var middle :- SealOptional(c, input.middleName);
    var last :- Seal(c, input.lastName);
    var email :- Seal(c, input.email);
    var dob :- SealOptional(c, DateText(c, input.dateOfBirth));
    var address :- Seal(c, JoinAddress(input.addressLine1, input.addressLine2));
    var city :- Seal(c, input.city);
    var state :- Seal(c, input.state);
    var zip :- Seal(c, input.zipCode);
    Ok(SealedInput(first, middle, last, email, dob, address, city, state, zip))
  }

  /** The profile with the nine written fields replaced and every other field kept. */
  function Store(p: UserProfile, s: SealedInput): UserProfile {
    p.(firstName := Some(s.firstName), middleName := s.middleName, lastName := Some(s.lastName),
       email := Some(s.email), dateOfBirth := s.dateOfBirth, address := Some(s.address),
       city := Some(s.city), state := Some(s.state), zipCode := Some(s.zipCode))
  }

  /** Decrypting an optional field. */
  function Open(c: Codecs, f: Option<Sealed>): Result<Option<string>, CommandError> {
    match f
    case None => Ok(None)
    case Some(s) => var v :- LiftVault(c.open(s)); Ok(Some(v))
  }

  // ---------------------------------------------------------------------
  // Commands

  datatype ProfileOutput = ProfileOutput(
    id: string,
    firstName: string,
    middleName: Option<string>,
    lastName: string,
    email: string,
    dateOfBirth: Option<Date>,
    addressLine1: string,
    addressLine2: Option<string>,
    city: string,
    state: string,
    zipCode: string,
    createdAt: int,
    updatedAt: int)

  /** `after` differs from `before` only in the profile saved under `id` in vault `vaultId`. */
  predicate SavedOne(before: map<string, Vault>, after: map<string, Vault>, vaultId: string, id: ProfileId) {
    && vaultId in before && vaultId in after && id in after[vaultId]
    && after == before[vaultId := before[vaultId][id := after[vaultId][id]]]
  }

  /** The output of create and update: the input as given, with the id and the profile's times. */
  function Echo(id: string, input: ProfileInput.Input, p: UserProfile): ProfileOutput {
    ProfileOutput(id, input.firstName, input.middleName, input.lastName, input.email, input.dateOfBirth,
                  input.addressLine1, input.addressLine2, input.city, input.state, input.zipCode,
                  p.createdAt, p.updatedAt)
  }

  /**
   * `profile_create`: the input is validated before anything else; only a
   * valid input goes on to `CreateValidated`.
   */
  function ProfileCreate(c: Codecs, vaults: map<string, Vault>, vaultId: string, input: ProfileInput.Input,
                         today: Date, newId: ProfileId, now: int): (r: Result<(ProfileOutput, map<string, Vault>), CommandError>)
    ensures ProfileInput.Validate(input, today).Err? ==>
      r == Err(CommandErrors.FromSpectral(ProfileInput.Validate(input, today).error))
    ensures ProfileInput.Validate(input, today).Ok? ==> r == CreateValidated(c, vaults, vaultId, input, newId, now)
  {
    var _ :- LiftSpectral(ProfileInput.Validate(input, today));
    CreateValidated(c, vaults, vaultId, input, newId, now)
  }

  /**
   * The rest of `profile_create`: the vault is looked up and the fields
   * sealed; the new profile is saved under the generated id `newId`,
   * created and updated at `now`.
   */
  function CreateValidated(c: Codecs, vaults: map<string, Vault>, vaultId: string, input: ProfileInput.Input,
                           newId: ProfileId, now: int): (r: Result<(ProfileOutput, map<string, Vault>), CommandError>)
    ensures vaultId !in vaults ==> r == Err(NotUnlocked(vaultId))
    ensures r.Ok? ==>
      && SavedOne(vaults, r.value.1, vaultId, newId)
      && r.value.1[vaultId][newId].createdAt == now == r.value.1[vaultId][newId].updatedAt
      && r.value.0.id == newId.value
  {
    var vault :- LookupVault(vaults, vaultId);
    var sealed :- SealInput(c, input);
    var profile := Store(VaultProfile.NewProfile(newId, now), sealed);
    Ok((Echo(newId.value, input, profile), vaults[vaultId := vault[newId := profile]]))
  }

  /** Reading a stored profile into the command's output. */
  function ReadProfile(c: Codecs, id: string, p: UserProfile): Result<ProfileOutput, CommandError> {
    var first :- Open(c, p.firstName);
    var middle :- Open(c, p.middleName);
    var last :- Open(c, p.lastName);
    var email :- Open(c, p.email);
    var dob :- Open(c, p.dateOfBirth);
    var address :- Open(c, p.address);
    var city :- Open(c, p.city);
    var state :- Open(c, p.state);
    var zip :- Open(c, p.zipCode);
    var lines := SplitAddress(address);
    Ok(ProfileOutput(id, OrEmpty(first), middle, OrEmpty(last), OrEmpty(email),
                     match dob case Some(t) => c.parseDate(t) case None => None,
                     lines.0, lines.1, OrEmpty(city), OrEmpty(state), OrEmpty(zip), p.createdAt, p.updatedAt))
  }

  /** `profile_get`: no validation; the vault, then the id, then the stored profile. */
  function ProfileGet(c: Codecs, vaults: map<string, Vault>, vaultId: string, profileId: string): (r: Result<ProfileOutput, CommandError>)
    ensures vaultId !in vaults ==> r == Err(NotUnlocked(vaultId))
    ensures vaultId in vaults && ValidateProfileId(profileId).Err? ==>
      r == Err(CommandErrors.FromSpectral(ValidateProfileId(profileId).error))
    ensures r.Ok? ==> vaultId in vaults && ProfileId(profileId) in vaults[vaultId] && r.value.id == profileId
  {
    var vault :- LookupVault(vaults, vaultId);
    var id :- LiftSpectral(NewProfileId(profileId));
    var p :- LoadProfile(vault, id);
    ReadProfile(c, profileId, p)
  }

  /** `profile_update`: validated first, like create; only a valid input goes on to `UpdateValidated`. */
  function ProfileUpdate(c: Codecs, vaults: map<string, Vault>, vaultId: string, profileId: string,
                         input: ProfileInput.Input, today: Date, now: int): (r: Result<(ProfileOutput, map<string, Vault>), CommandError>)
    ensures ProfileInput.Validate(input, today).Err? ==>
      r == Err(CommandErrors.FromSpectral(ProfileInput.Validate(input, today).error))
    ensures ProfileInput.Validate(input, today).Ok? ==> r == UpdateValidated(c, vaults, vaultId, profileId, input, now)
  {
    var _ :- LiftSpectral(ProfileInput.Validate(input, today));
    UpdateValidated(c, vaults, vaultId, profileId, input, now)
  }

  /**
   * The rest of `profile_update`: the vault, the id and the stored profile;
   * the nine fields are rewritten and the update time set to `now` before
   * the save.
   */
  function UpdateValidated(c: Codecs, vaults: map<string, Vault>, vaultId: string, profileId: string,
                           input: ProfileInput.Input, now: int): (r: Result<(ProfileOutput, map<string, Vault>), CommandError>)
    ensures vaultId !in vaults ==> r == Err(NotUnlocked(vaultId))
    ensures r.Ok? ==>
      && vaultId in vaults && ProfileId(profileId) in vaults[vaultId]
      && SavedOne(vaults, r.value.1, vaultId, ProfileId(profileId))
      && r.value.0.id == profileId
  {
    var vault :- LookupVault(vaults, vaultId);
    var id :- LiftSpectral(NewProfileId(profileId));
    var stored :- LoadProfile(vault, id);
    var sealed :- SealInput(c, input);
    var profile := VaultProfile.Touch(Store(stored, sealed), now);
    Ok((Echo(profileId, input, profile), vaults[vaultId := vault[id := profile]]))
  }

  /** Reading the fields written from `input` gives the input back, when its address lines hold no line break. */
  lemma {:induction false} ReadStored(c: Codecs, id: string, input: ProfileInput.Input, sealed: SealedInput, p: UserProfile)
    requires RoundTrips(c)
    requires '\n' !in input.addressLine1 && (input.addressLine2.Some? ==> '\n' !in input.addressLine2.value)
    requires SealInput(c, input) == Ok(sealed)
    ensures ReadProfile(c, id, Store(p, sealed)) == Ok(Echo(id, input, p))
  {
    var a := JoinAddress(input.addressLine1, input.addressLine2);
    assert c.open(c.seal(input.firstName).value) == Ok(input.firstName);
    assert c.open(c.seal(input.lastName).value) == Ok(input.lastName);
    assert c.open(c.seal(input.email).value) == Ok(input.email);
    assert c.open(c.seal(a).value) == Ok(a);
    assert c.open(c.seal(input.city).value) == Ok(input.city);
    assert c.open(c.seal(input.state).value) == Ok(input.state);
    assert c.open(c.seal(input.zipCode).value) == Ok(input.zipCode);
    if input.middleName.Some? {
      assert c.open(c.seal(input.middleName.value).value) == Ok(input.middleName.value);
    }
    if input.dateOfBirth.Some? {
      var d := input.dateOfBirth.value;
      assert c.open(c.seal(c.formatDate(d)).value) == Ok(c.formatDate(d));
      assert c.parseDate(c.formatDate(d)) == Some(d);
    }
    AddressRoundTrip(input.addressLine1, input.addressLine2);
  }

  /**
   * Reading a profile back right after `profile_create` gives exactly what
   * the create returned, when the address lines hold no line break.
   */
  lemma CreateThenGet(c: Codecs, vaults: map<string, Vault>, vaultId: string, input: ProfileInput.Input,
                      newId: ProfileId, now: int)
    requires RoundTrips(c)
    requires '\n' !in input.addressLine1 && (input.addressLine2.Some? ==> '\n' !in input.addressLine2.value)
    requires ValidateProfileId(newId.value).Ok?
    requires CreateValidated(c, vaults, vaultId, input, newId, now).Ok?
    ensures var created := CreateValidated(c, vaults, vaultId, input, newId, now).value;
      ProfileGet(c, created.1, vaultId, newId.value) == Ok(created.0)
  {
    var sealed := SealInput(c, input).value;
    ReadStored(c, newId.value, input, sealed, VaultProfile.NewProfile(newId, now));
  }

  /**
   * After `profile_update` the profile reads back as the update returned,
   * with its creation time kept and its update time `now`.
   */
  lemma UpdateThenGet(c: Codecs, vaults: map<string, Vault>, vaultId: string, profileId: string,
                      input: ProfileInput.Input, now: int)
    requires RoundTrips(c)
    requires '\n' !in input.addressLine1 && (input.addressLine2.Some? ==> '\n' !in input.addressLine2.value)
    requires UpdateValidated(c, vaults, vaultId, profileId, input, now).Ok?
    ensures var updated := UpdateValidated(c, vaults, vaultId, profileId, input, now).value;
      && ProfileGet(c, updated.1, vaultId, profileId) == Ok(updated.0)
      && updated.0.createdAt == vaults[vaultId][ProfileId(profileId)].createdAt
      && updated.0.updatedAt == now
  {
    var id := ProfileId(profileId);
    var stored := vaults[vaultId][id];
    var sealed := SealInput(c, input).value;
    ReadStored(c, profileId, input, sealed, VaultProfile.Touch(stored, now));
    assert Store(VaultProfile.Touch(stored, now), sealed) == VaultProfile.Touch(Store(stored, sealed), now);
  }

  /**
   * Update rewrites only the nine input fields and the update time: every
   * other field of the stored profile, its id and its creation time stay.
   */
  lemma UpdateKeepsOtherFields(c: Codecs, vaults: map<string, Vault>, vaultId: string, profileId: string,
                               input: ProfileInput.Input, now: int)
    requires UpdateValidated(c, vaults, vaultId, profileId, input, now).Ok?
    ensures var before := vaults[vaultId][ProfileId(profileId)];
      var after := UpdateValidated(c, vaults, vaultId, profileId, input, now).value.1[vaultId][ProfileId(profileId)];
      after.(firstName := before.firstName, middleName := before.middleName, lastName := before.lastName,
             email := before.email, dateOfBirth := before.dateOfBirth, address := before.address,
             city := before.city, state := before.state, zipCode := before.zipCode,
             updatedAt := before.updatedAt) == before
  {
  }

  // ---------------------------------------------------------------------
  // Listing and completeness

  datatype ProfileSummary = ProfileSummary(id: string, fullName: string, email: string, createdAt: int)

  /** One entry of `profile_list`: load the profile, then open first name, last name and e-mail. */
  function SummaryOf(c: Codecs, vault: Vault, id: ProfileId): Result<ProfileSummary, CommandError> {
    var p :- LoadProfile(vault, id);
    var first :- Open(c, p.firstName);
    var last :- Open(c, p.lastName);
    var email :- Open(c, p.email);
    Ok(ProfileSummary(id.value, FullName(first, last), OrEmpty(email), p.createdAt))
  }

  /** The first `k` ids of `listed` all have a summary, and the `k`-th fails with `e`. */
  predicate FirstFailure(c: Codecs, vault: Vault, listed: seq<ProfileId>, k: int, e: CommandError) {
    && 0 <= k < |listed| && SummaryOf(c, vault, listed[k]) == Err(e)
    && forall j :: 0 <= j < k ==> SummaryOf(c, vault, listed[j]).Ok?
  }

  /**
   * `profile_list` over the ids the vault lists (`listed`, in the vault's
   * order): one summary per id, in that order, or the error of the first id
   * that cannot be summarised.
   */
  method ProfileList(c: Codecs, vaults: map<string, Vault>, vaultId: string, listed: seq<ProfileId>)
    returns (r: Result<seq<ProfileSummary>, CommandError>)
    ensures vaultId !in vaults ==> r == Err(NotUnlocked(vaultId))
    ensures r.Ok? ==>
      && vaultId in vaults && |r.value| == |listed|
      && forall k :: 0 <= k < |listed| ==> SummaryOf(c, vaults[vaultId], listed[k]) == Ok(r.value[k])
    ensures vaultId in vaults && r.Err? ==> exists k :: FirstFailure(c, vaults[vaultId], listed, k, r.error)
  {
    var vault :- LookupVault(vaults, vaultId);
    r := Summarize(c, vault, listed);
  }

  /** The loop of `profile_list`, stopping at the first failure. */
  method Summarize(c: Codecs, vault: Vault, listed: seq<ProfileId>) returns (r: Result<seq<ProfileSummary>, CommandError>)
    ensures r.Ok? ==>
      |r.value| == |listed| && forall k :: 0 <= k < |listed| ==> SummaryOf(c, vault, listed[k]) == Ok(r.value[k])
    ensures r.Err? ==> exists k :: FirstFailure(c, vault, listed, k, r.error)
  {
    var summaries := [];
    for i := 0 to |listed|
      invariant |summaries| == i
      invariant forall k :: 0 <= k < i ==> SummaryOf(c, vault, listed[k]) == Ok(summaries[k])
    {
      var s := SummaryOf(c, vault, listed[i]);
      if s.Err? {
        assert FirstFailure(c, vault, listed, i, s.error);
        return Err(s.error);
      }
      summaries := summaries + [s.value];
    }
    r := Ok(summaries);
  }

  /** `get_profile_completeness`: the score of the first listed profile, or `NO_PROFILE` when none is listed. */
  function ProfileCompleteness(vaults: map<string, Vault>, vaultId: string, listed: seq<ProfileId>)
    : (r: Result<VaultProfile.ProfileCompleteness, CommandError>)
    ensures vaultId !in vaults ==> r == Err(NotUnlocked(vaultId))
    ensures vaultId in vaults && listed == [] ==> r.Err? && r.error.code == "NO_PROFILE"
    ensures r.Ok? <==> vaultId in vaults && listed != [] && listed[0] in vaults[vaultId]
    ensures r.Ok? ==> r.value == VaultProfile.CompletenessScore(vaults[vaultId][listed[0]])
  {
    var vault :- LookupVault(vaults, vaultId);
    if listed == [] then Err(CommandErrors.New("NO_PROFILE", "No profile found in vault"))
    else
      var p :- LoadProfile(vault, listed[0]);
      Ok(VaultProfile.CompletenessScore(p))
  }
}
