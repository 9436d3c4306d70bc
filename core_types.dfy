/**
 * The shared identifier newtypes and the PII field catalogue of the core
 * crate: broker ids and profile ids are checked when built with `new`, and
 * every PII field has a display name and a sensitivity level.
 */
module CoreTypes {
  import opened Wrappers
  import opened Ints
  import Text

  /** The central error type; each variant carries its message. */
  datatype SpectralError =
    | Config(detail: string)
    | Vault(detail: string)
    | Database(detail: string)
    | Broker(detail: string)
    | Llm(detail: string)
    | Browser(detail: string)
    | Network(detail: string)
    | PermissionDenied(detail: string)
    | Validation(detail: string)
    | Io(detail: string)
    | Internal(detail: string)

  /** A calendar date (`chrono::NaiveDate`), month and day counted from 1. */
  datatype Date = Date(year: int, month: int, day: int)

  // ---------------------------------------------------------------------
  // Broker ids

  predicate IsLowerAlnum(c: char) {
    Text.IsAsciiLower(c) || Text.IsAsciiDigit(c)
  }

  predicate IsIdChar(c: char) {
    IsLowerAlnum(c) || c == '-'
  }

  /** The pattern `^[a-z0-9][a-z0-9-]{1,48}[a-z0-9]$`, position by position. */
  predicate MatchesBrokerIdPattern(s: string) {
    3 <= |s| <= 50
    && IsLowerAlnum(s[0]) && IsLowerAlnum(s[|s| - 1])
    && forall k :: 0 < k < |s| - 1 ==> IsIdChar(s[k])
  }

  /** The pattern read as the regular expression's three parts. */
  ghost predicate BrokerIdRegex(s: string) {
    exists first: char, middle: string, last: char ::
      s == [first] + middle + [last]
      && IsLowerAlnum(first) && IsLowerAlnum(last)
      && 1 <= |middle| <= 48 && forall c :: c in middle ==> IsIdChar(c)
  }

  /** The check of `BrokerId::new`: the byte length first, then the pattern. */
  function ValidateBrokerId(id: string): Result<(), SpectralError> {
    var bytes := Text.Utf8Len(id);
    if bytes < 3 || bytes > 50 then
      Err(Validation("invalid broker ID: must be 3-50 characters, got " + Text.NatToString(bytes) + " characters"))
    else if MatchesBrokerIdPattern(id) then Ok(())
    else Err(Validation("invalid broker ID: must be lowercase alphanumeric with hyphens, got '" + id + "'"))
  }

  /** A broker id. Deserialisation builds one from any string; `NewBrokerId` checks it. */
  datatype BrokerId = BrokerId(value: string)

  /** `BrokerId::new`: succeeds exactly when the check does, keeping the text (`as_str`). */
  function NewBrokerId(id: string): (r: Result<BrokerId, SpectralError>)
    ensures r.Ok? <==> ValidateBrokerId(id).Ok?
    ensures r.Ok? ==> r.value.value == id
    ensures r.Err? ==> r == Err(ValidateBrokerId(id).error)
  {
    match ValidateBrokerId(id)
    case Ok(_) => Ok(BrokerId(id))
    case Err(e) => Err(e)
  }

  lemma PatternIsAscii(s: string)
    requires MatchesBrokerIdPattern(s)
    ensures Text.Utf8Len(s) == |s|
  {
    assert forall k :: 0 <= k < |s| ==> IsIdChar(s[k]);
    Text.AsciiUtf8Len(s);
  }

  /**
   * A broker id is accepted exactly when it has 3 to 50 characters, its first
   * and last are lowercase letters or digits, and every other one is a
   * lowercase letter, a digit or `-`.
   */
  lemma BrokerIdAccepted(id: string)
    ensures NewBrokerId(id).Ok? <==> MatchesBrokerIdPattern(id)
  {
    if MatchesBrokerIdPattern(id) {
      PatternIsAscii(id);
    }
  }

  lemma BrokerIdPatternToRegex(s: string)
    requires MatchesBrokerIdPattern(s)
    ensures BrokerIdRegex(s)
  {
    var first, middle, last := s[0], s[1..|s| - 1], s[|s| - 1];
    assert s == [first] + middle + [last];
    forall c | c in middle ensures IsIdChar(c) {
      var k :| 0 <= k < |middle| && middle[k] == c;
      assert s[k + 1] == c;
    }
  }

  lemma BrokerIdRegexToPattern(s: string, first: char, middle: string, last: char)
    requires s == [first] + middle + [last]
    requires IsLowerAlnum(first) && IsLowerAlnum(last)
    requires 1 <= |middle| <= 48 && forall c :: c in middle ==> IsIdChar(c)
    ensures MatchesBrokerIdPattern(s)
  {
    forall k | 0 < k < |s| - 1 ensures IsIdChar(s[k]) {
      assert s[k] == middle[k - 1];
      assert middle[k - 1] in middle;
    }
  }

  /** The position-by-position reading agrees with the regular expression's parts. */
  lemma BrokerIdPatternIsRegex(s: string)
    ensures MatchesBrokerIdPattern(s) <==> BrokerIdRegex(s)
  {
    if MatchesBrokerIdPattern(s) {
      BrokerIdPatternToRegex(s);
    }
    if BrokerIdRegex(s) {
      var first, middle, last :| s == [first] + middle + [last]
        && IsLowerAlnum(first) && IsLowerAlnum(last)
        && 1 <= |middle| <= 48 && forall c :: c in middle ==> IsIdChar(c);
      BrokerIdRegexToPattern(s, first, middle, last);
    }
  }

  /** A byte length outside 3..=50 is reported before the pattern is looked at. */
  lemma BrokerIdLengthFirst(id: string)
    requires Text.Utf8Len(id) < 3 || Text.Utf8Len(id) > 50
    ensures NewBrokerId(id)
            == Err(Validation("invalid broker ID: must be 3-50 characters, got "
                              + Text.NatToString(Text.Utf8Len(id)) + " characters"))
  {
  }

  lemma BrokerIdRejected(id: string)
    requires !MatchesBrokerIdPattern(id)
    ensures NewBrokerId(id).Err?
  {
    BrokerIdAccepted(id);
  }

  /** Two ids of the tests that are accepted. */
  lemma SampleBrokerIdAccepted()
    ensures NewBrokerId("been-verified") == Ok(BrokerId("been-verified"))
  {
    var s := "been-verified";
    assert s == ['b'] + s[1..12] + ['d'];
    BrokerIdRegexToPattern(s, 'b', s[1..12], 'd');
    BrokerIdAccepted(s);
  }

  lemma ShortestBrokerIdAccepted()
    ensures NewBrokerId("abc") == Ok(BrokerId("abc"))
  {
    BrokerIdAccepted("abc");
  }

  /** An uppercase letter, `_` or a space anywhere, or `-` at either end, is rejected. */
  lemma BrokerIdShapesRejected(id: string)
    requires (exists k :: 0 <= k < |id| && (Text.IsAsciiUpper(id[k]) || id[k] == '_' || id[k] == ' '))
             || (id != [] && (id[0] == '-' || id[|id| - 1] == '-'))
    ensures NewBrokerId(id).Err?
  {
    BrokerIdAccepted(id);
    if MatchesBrokerIdPattern(id) {
      assert forall k :: 0 <= k < |id| ==> IsIdChar(id[k]);
    }
  }

  /** Fifty-one characters are one too many. */
  lemma TooLongBrokerId(id: string)
    requires |id| == 51
    ensures NewBrokerId(id).Err?
  {
  }

  // ---------------------------------------------------------------------
  // Profile ids

  predicate IsLowerHex(c: char) {
    Text.IsAsciiDigit(c) || 'a' <= c <= 'f'
  }

  /** What the UUID pattern demands at position `k`. */
  predicate UuidCharOk(k: int, c: char) {
    if k == 8 || k == 13 || k == 18 || k == 23 then c == '-'
    else if k == 14 then c == '4'
    else if k == 19 then c == '8' || c == '9' || c == 'a' || c == 'b'
    else IsLowerHex(c)
  }

  /** `^[0-9a-f]{8}-[0-9a-f]{4}-4[0-9a-f]{3}-[89ab][0-9a-f]{3}-[0-9a-f]{12}$`, position by position. */
  predicate MatchesUuidV4(s: string) {
    |s| == 36 && forall k :: 0 <= k < 36 ==> UuidCharOk(k, s[k])
  }

  predicate AllHex(s: string) {
    forall c :: c in s ==> IsLowerHex(c)
  }

  /**
   * The regular expression read as its five hex groups, with the version
   * nibble `4` and the variant nibble in `89ab` (sections 4.1.1 and 4.1.3 of
   * RFC 4122).
   */
  ghost predicate UuidV4Regex(s: string) {
    exists g1: string, g2: string, g3: string, v: char, g4: string, g5: string ::
      UuidGroups(s, g1, g2, g3, v, g4, g5)
  }

  /** `s` is the five groups and the variant nibble `v` joined as the pattern lays them out. */
  predicate UuidGroups(s: string, g1: string, g2: string, g3: string, v: char, g4: string, g5: string) {
    s == g1 + "-" + g2 + "-4" + g3 + "-" + [v] + g4 + "-" + g5
    && |g1| == 8 && |g2| == 4 && |g3| == 3 && |g4| == 3 && |g5| == 12
    && AllHex(g1) && AllHex(g2) && AllHex(g3) && AllHex(g4) && AllHex(g5)
    && (v == '8' || v == '9' || v == 'a' || v == 'b')
  }

  function ValidateProfileId(id: string): Result<(), SpectralError> {
    if MatchesUuidV4(id) then Ok(())
    else Err(Validation("invalid profile ID: must be a valid UUID v4, got '" + id + "'"))
  }

  /** A profile id. Deserialisation builds one from any string; `NewProfileId` checks it. */
  datatype ProfileId = ProfileId(value: string)

  /** `ProfileId::new`: succeeds exactly on UUID v4 text, keeping the text (`as_str`). */
  function NewProfileId(id: string): (r: Result<ProfileId, SpectralError>)
    ensures r.Ok? <==> ValidateProfileId(id).Ok?
    ensures r.Ok? ==> r.value.value == id
  {
    match ValidateProfileId(id)
    case Ok(_) => Ok(ProfileId(id))
    case Err(e) => Err(e)
  }

  lemma UuidGroupsMatch(g1: string, g2: string, g3: string, v: char, g4: string, g5: string)
    requires |g1| == 8 && |g2| == 4 && |g3| == 3 && |g4| == 3 && |g5| == 12
    ensures var s := g1 + "-" + g2 + "-4" + g3 + "-" + [v] + g4 + "-" + g5;
      && |s| == 36
      && (forall k :: 0 <= k < 8 ==> s[k] == g1[k])
      && s[8] == '-'
      && (forall k :: 9 <= k < 13 ==> s[k] == g2[k - 9])
      && s[13] == '-' && s[14] == '4'
      && (forall k :: 15 <= k < 18 ==> s[k] == g3[k - 15])
      && s[18] == '-' && s[19] == v
      && (forall k :: 20 <= k < 23 ==> s[k] == g4[k - 20])
      && s[23] == '-'
      && (forall k :: 24 <= k < 36 ==> s[k] == g5[k - 24])
  {
  }

  /** The positions of the pattern that hold hex digits. */
  predicate HexPosition(k: int) {
    k != 8 && k != 13 && k != 14 && k != 18 && k != 19 && k != 23
  }

  lemma HexGroup(s: string, lo: nat, hi: nat)
    requires MatchesUuidV4(s) && lo <= hi <= 36
    requires forall k :: lo <= k < hi ==> HexPosition(k)
    ensures AllHex(s[lo..hi])
  {
    forall c | c in s[lo..hi] ensures IsLowerHex(c) {
      var j :| 0 <= j < hi - lo && s[lo..hi][j] == c;
      assert s[lo + j] == c && HexPosition(lo + j);
      assert UuidCharOk(lo + j, s[lo + j]);
    }
  }

  lemma UuidSplit(s: string)
    requires MatchesUuidV4(s)
    ensures s == s[..8] + "-" + s[9..13] + "-4" + s[15..18] + "-" + [s[19]] + s[20..23] + "-" + s[24..]
  {
    assert UuidCharOk(8, s[8]) && UuidCharOk(13, s[13]) && UuidCharOk(14, s[14]);
    assert UuidCharOk(18, s[18]) && UuidCharOk(23, s[23]);
    UuidGroupsMatch(s[..8], s[9..13], s[15..18], s[19], s[20..23], s[24..]);
  }

  lemma UuidPatternToRegex(s: string)
    requires MatchesUuidV4(s)
    ensures UuidV4Regex(s)
  {
    UuidSplit(s);
    HexGroup(s, 0, 8);
    HexGroup(s, 9, 13);
    HexGroup(s, 15, 18);
    HexGroup(s, 20, 23);
    HexGroup(s, 24, 36);
    assert s[..8] == s[0..8] && s[24..] == s[24..36];
    assert UuidCharOk(19, s[19]);
    assert UuidGroups(s, s[..8], s[9..13], s[15..18], s[19], s[20..23], s[24..]);
  }

  lemma UuidRegexToPattern(g1: string, g2: string, g3: string, v: char, g4: string, g5: string)
    requires |g1| == 8 && |g2| == 4 && |g3| == 3 && |g4| == 3 && |g5| == 12
    requires AllHex(g1) && AllHex(g2) && AllHex(g3) && AllHex(g4) && AllHex(g5)
    requires v == '8' || v == '9' || v == 'a' || v == 'b'
    ensures MatchesUuidV4(g1 + "-" + g2 + "-4" + g3 + "-" + [v] + g4 + "-" + g5)
  {
    var s := g1 + "-" + g2 + "-4" + g3 + "-" + [v] + g4 + "-" + g5;
    UuidGroupsMatch(g1, g2, g3, v, g4, g5);
    forall k | 0 <= k < 36 ensures UuidCharOk(k, s[k]) {
      if k < 8 { assert g1[k] in g1; }
      else if 9 <= k < 13 { assert g2[k - 9] in g2; }
      else if 15 <= k < 18 { assert g3[k - 15] in g3; }
      else if 20 <= k < 23 { assert g4[k - 20] in g4; }
      else if 24 <= k { assert g5[k - 24] in g5; }
    }
  }

  /** The position-by-position reading agrees with the regular expression's groups. */
  lemma ProfileIdPatternIsRegex(s: string)
    ensures MatchesUuidV4(s) <==> UuidV4Regex(s)
  {
    if MatchesUuidV4(s) {
      UuidPatternToRegex(s);
    }
    if UuidV4Regex(s) {
      var g1, g2, g3, v, g4, g5 :| UuidGroups(s, g1, g2, g3, v, g4, g5);
      UuidRegexToPattern(g1, g2, g3, v, g4, g5);
    }
  }

  lemma ProfileIdAccepted(id: string)
    requires MatchesUuidV4(id)
    ensures NewProfileId(id) == Ok(ProfileId(id))
  {
  }

  lemma ProfileIdRejected(id: string)
    requires !MatchesUuidV4(id)
    ensures NewProfileId(id).Err?
  {
  }

  /** The id of the tests is accepted and kept as given. */
  lemma SampleProfileIdAccepted()
    ensures NewProfileId("550e8400-e29b-41d4-a716-446655440000")
            == Ok(ProfileId("550e8400-e29b-41d4-a716-446655440000"))
  {
    assert MatchesUuidV4("550e8400-e29b-41d4-a716-446655440000") by {
      SampleIdGroups();
      SampleGroupsHex();
      UuidRegexToPattern("550e8400", "e29b", "1d4", 'a', "716", "446655440000");
    }
    ProfileIdAccepted("550e8400-e29b-41d4-a716-446655440000");
  }

  lemma SampleIdGroups()
    ensures "550e8400-e29b-41d4-a716-446655440000"
         == "550e8400" + "-" + "e29b" + "-4" + "1d4" + "-" + ['a'] + "716" + "-" + "446655440000"
  {
  }

  lemma SampleGroupsHex()
    ensures AllHex("550e8400") && AllHex("e29b") && AllHex("1d4") && AllHex("716") && AllHex("446655440000")
  {
  }

  /** A wrong version nibble is rejected. */
  lemma WrongVersionRejected()
    ensures NewProfileId("550e8400-e29b-51d4-a716-446655440000").Err?
  {
    assert !UuidCharOk(14, "550e8400-e29b-51d4-a716-446655440000"[14]);
    ProfileIdRejected("550e8400-e29b-51d4-a716-446655440000");
  }

  /** A character outside the hex digits is rejected. */
  lemma NonHexRejected()
    ensures NewProfileId("550e8400-e29b-41d4-x716-446655440000").Err?
  {
    assert !UuidCharOk(19, "550e8400-e29b-41d4-x716-446655440000"[19]);
    ProfileIdRejected("550e8400-e29b-41d4-x716-446655440000");
  }

  // ---------------------------------------------------------------------
  // PII fields

  datatype PiiField =
    | FullName | FirstName | MiddleName | LastName | Email | Phone | Address | City
    | State | ZipCode | Country | DateOfBirth | Age | Ssn | Employer | JobTitle
    | Education | SocialMedia | IpAddress | Photo | Relatives | PreviousAddress | Other

  /** `display_name`, which is also what `Display` prints. */
  function DisplayName(f: PiiField): string {
    match f
    case FullName => "Full Name"
    case FirstName => "First Name"
    case MiddleName => "Middle Name"
    case LastName => "Last Name"
    case Email => "Email Address"
    case Phone => "Phone Number"
    case Address => "Street Address"
    case City => "City"
    case State => "State/Province"
    case ZipCode => "ZIP/Postal Code"
    case Country => "Country"
    case DateOfBirth => "Date of Birth"
    case Age => "Age"
    case Ssn => "Social Security Number"
    case Employer => "Employer"
    case JobTitle => "Job Title"
    case Education => "Education"
    case SocialMedia => "Social Media"
    case IpAddress => "IP Address"
    case Photo => "Photo"
    case Relatives => "Relatives"
    case PreviousAddress => "Previous Address"
    case Other => "Other"
  }

  /** Two fields never share a display name. */
  lemma DisplayNameInjective(a: PiiField, b: PiiField)
    ensures DisplayName(a) == DisplayName(b) ==> a == b
  {
  }

  /** `sensitivity_level`: 3 for the SSN and date of birth, down to 0 for the unlisted fields. */
  function SensitivityLevel(f: PiiField): (level: uint8)
    ensures level <= 3
    ensures level == 3 <==> f == Ssn || f == DateOfBirth
  {
    match f
    case Ssn | DateOfBirth => 3
    case FullName | Email | Phone | Address | Photo => 2
    case FirstName | LastName | City | State | Employer => 1
    case _ => 0
  }

  lemma SensitivityExamples()
    ensures SensitivityLevel(Ssn) == 3 && SensitivityLevel(Email) == 2 && SensitivityLevel(City) == 1
    ensures SensitivityLevel(Other) == 0 && SensitivityLevel(Relatives) == 0
  {
  }
}
