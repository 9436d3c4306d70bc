/**
 * The checks the desktop commands run on a profile before it is written to
 * the vault: names, e-mail address, date of birth, US state and ZIP code,
 * and `ProfileInput::validate`, which runs them in order and stops at the
 * first failure.
 */
module ProfileInput {
  import opened Wrappers
  import opened CoreTypes
  import Text

  // ---------------------------------------------------------------------
  // Names

  /** Letters, white space, hyphens and apostrophes. */
  predicate IsNameChar(c: char) {
    Text.IsAlphabetic(c) || Text.IsWhitespace(c) || c == '-' || c == '\''
  }

  function ValidateName(name: string): (r: Result<(), SpectralError>)
    ensures r.Ok? <==> Text.Trim(name) != [] && forall c :: c in Text.Trim(name) ==> IsNameChar(c)
  {
    var trimmed := Text.Trim(name);
    if trimmed == [] then Err(Validation("Name cannot be empty"))
    else if forall c :: c in trimmed ==> IsNameChar(c) then Ok(())
    else Err(Validation("Name can only contain letters, spaces, hyphens, and apostrophes"))
  }

  /**
   * A name is accepted exactly when it holds something other than white
   * space and every character is a letter, white space, `-` or `'`.
   */
  lemma NameAccepted(name: string)
    ensures ValidateName(name).Ok? <==>
      (exists k :: 0 <= k < |name| && !Text.IsWhitespace(name[k]))
      && forall k :: 0 <= k < |name| ==> IsNameChar(name[k])
  {
    var a, b := Text.TrimBounds(name);
    Text.TrimEmpty(name);
    var t := Text.Trim(name);
    if ValidateName(name).Ok? {
      forall k | 0 <= k < |name| ensures IsNameChar(name[k]) {
        if a <= k < b {
          assert name[k] == t[k - a];
        }
      }
    }
    if (exists k :: 0 <= k < |name| && !Text.IsWhitespace(name[k]))
       && forall k :: 0 <= k < |name| ==> IsNameChar(name[k]) {
      forall c | c in t ensures IsNameChar(c) {
        var j :| 0 <= j < |t| && t[j] == c;
        assert name[a + j] == c;
      }
    }
  }

  lemma SampleName()
    ensures ValidateName("Mary-Jane").Ok?
  {
    var n := "Mary-Jane";
    assert forall k :: 0 <= k < |n| ==> IsNameChar(n[k]);
    assert !Text.IsWhitespace(n[0]);
    NameAccepted(n);
  }

  /** A digit anywhere, as in "123" or "John123", is rejected. */
  lemma DigitInNameRejected(name: string, k: int)
    requires 0 <= k < |name| && Text.IsAsciiDigit(name[k])
    ensures ValidateName(name).Err?
  {
    assert !IsNameChar(name[k]);
    NameAccepted(name);
  }

  // ---------------------------------------------------------------------
  // E-mail addresses

  predicate IsLocalChar(c: char) {
    Text.IsAsciiAlnum(c) || c == '.' || c == '_' || c == '%' || c == '+' || c == '-'
  }

  predicate IsDomainChar(c: char) {
    Text.IsAsciiAlnum(c) || c == '.' || c == '-'
  }

  predicate AllLocal(s: string) { forall k :: 0 <= k < |s| ==> IsLocalChar(s[k]) }
  predicate AllDomain(s: string) { forall k :: 0 <= k < |s| ==> IsDomainChar(s[k]) }
  predicate AllAlpha(s: string) { forall k :: 0 <= k < |s| ==> Text.IsAsciiAlpha(s[k]) }

  /** `local@domain.tld` as the pattern `^[a-zA-Z0-9._%+-]+@[a-zA-Z0-9.-]+\.[a-zA-Z]{2,}$` splits it. */
  predicate EmailParts(s: string, local: string, domain: string, tld: string) {
    s == local + "@" + domain + "." + tld
    && local != [] && AllLocal(local)
    && domain != [] && AllDomain(domain)
    && |tld| >= 2 && AllAlpha(tld)
  }

  ghost predicate EmailRegex(s: string) {
    exists local, domain, tld :: EmailParts(s, local, domain, tld)
  }

  /** Index of the last `c` in `s`. */
  function LastIndexOf(s: string, c: char): (j: nat)
    requires c in s
    ensures j < |s| && s[j] == c && c !in s[j + 1..]
    ensures forall k :: j < k < |s| ==> s[k] != c
  {
    if s[|s| - 1] == c then |s| - 1
    else
      assert s[..|s| - 1] + [s[|s| - 1]] == s;
      LastIndexOf(s[..|s| - 1], c)
  }

  /** The pattern decided left to right: the one `@`, then the last `.` after it. */
  predicate MatchesEmail(s: string) {
    '@' in s
    && var i := Text.IndexOf(s, '@');
    0 < i && AllLocal(s[..i]) && MatchesDomain(s[i + 1..])
  }

  /** What follows the `@`: domain characters, then the last `.` and two or more letters. */
  predicate MatchesDomain(rest: string) {
    '.' in rest
    && var j := LastIndexOf(rest, '.');
    0 < j && AllDomain(rest[..j]) && |rest| - j - 1 >= 2 && AllAlpha(rest[j + 1..])
  }

  function ValidateEmail(email: string): (r: Result<(), SpectralError>)
    ensures r.Ok? <==> MatchesEmail(email)
  {
    if MatchesEmail(email) then Ok(()) else Err(Validation("Invalid email format"))
  }

  /** A matching domain part splits at its last `.`. */
  lemma DomainToParts(rest: string) returns (domain: string, tld: string)
    requires MatchesDomain(rest)
    ensures rest == domain + "." + tld
    ensures domain != [] && AllDomain(domain) && |tld| >= 2 && AllAlpha(tld)
  {
    var j := LastIndexOf(rest, '.');
    domain, tld := rest[..j], rest[j + 1..];
    assert rest == rest[..j] + [rest[j]] + rest[j + 1..];
  }

  lemma EmailMatchToRegex(s: string)
    requires MatchesEmail(s)
    ensures EmailRegex(s)
  {
    var i := Text.IndexOf(s, '@');
    var local, rest := s[..i], s[i + 1..];
    assert local != [] && AllLocal(local) && MatchesDomain(rest);
    assert s == local + "@" + rest by {
      assert s == local + [s[i]] + rest;
    }
    var domain, tld := DomainToParts(rest);
    RegexFromParts(s, local, rest, domain, tld);
  }

  /** An address split at an `@` and its domain part split at a `.` into pieces of the right kinds matches the pattern. */
  lemma RegexFromParts(s: string, local: string, rest: string, domain: string, tld: string)
    requires s == local + "@" + rest && rest == domain + "." + tld
    requires local != [] && AllLocal(local)
    requires domain != [] && AllDomain(domain) && |tld| >= 2 && AllAlpha(tld)
    ensures EmailRegex(s)
  {
    assert s == local + "@" + domain + "." + tld;
    assert EmailParts(s, local, domain, tld);
  }

  /** The first `c` of `a + [c] + b` is the one after `a` when `a` has none. */
  lemma FirstAt(a: string, c: char, b: string)
    requires forall k :: 0 <= k < |a| ==> a[k] != c
    ensures Text.IndexOf(a + [c] + b, c) == |a|
  {
    var s := a + [c] + b;
    assert s[|a|] == c;
    assert forall k :: 0 <= k < |a| ==> s[k] == a[k];
  }

  /** The last `c` of `a + [c] + b` is the one before `b` when `b` has none. */
  lemma {:induction false} LastAt(a: string, c: char, b: string)
    requires forall k :: 0 <= k < |b| ==> b[k] != c
    ensures LastIndexOf(a + [c] + b, c) == |a|
    decreases |b|
  {
    var s := a + [c] + b;
    if b == [] {
      assert s[|s| - 1] == c;
    } else {
      var b' := b[..|b| - 1];
      assert s[|s| - 1] == b[|b| - 1];
      assert s[..|s| - 1] == a + [c] + b';
      LastAt(a, c, b');
    }
  }

  lemma DomainFromParts(domain: string, tld: string)
    requires domain != [] && AllDomain(domain) && |tld| >= 2 && AllAlpha(tld)
    ensures MatchesDomain(domain + "." + tld)
  {
    assert forall k :: 0 <= k < |tld| ==> tld[k] != '.';
    var rest := domain + "." + tld;
    LastAt(domain, '.', tld);
    assert rest[..|domain|] == domain && rest[|domain| + 1..] == tld;
  }

  lemma EmailRegexToMatch(s: string, local: string, domain: string, tld: string)
    requires EmailParts(s, local, domain, tld)
    ensures MatchesEmail(s)
  {
    assert forall k :: 0 <= k < |local| ==> local[k] != '@';
    var rest := domain + "." + tld;
    DomainFromParts(domain, tld);
    assert s == local + "@" + rest;
    FirstAt(local, '@', rest);
    assert s[|local| + 1..] == rest && s[..|local|] == local;
  }

  /** The left-to-right decision agrees with the pattern. */
  lemma EmailMatchIsRegex(s: string)
    ensures MatchesEmail(s) <==> EmailRegex(s)
  {
    if MatchesEmail(s) {
      EmailMatchToRegex(s);
    }
    if EmailRegex(s) {
      var local, domain, tld :| EmailParts(s, local, domain, tld);
      EmailRegexToMatch(s, local, domain, tld);
    }
  }

  /** No `@`, nothing before it, or no dotted part of at least two letters: rejected. */
  lemma EmailRejections(s: string)
    ensures '@' !in s ==> ValidateEmail(s).Err?
    ensures s != [] && s[0] == '@' ==> ValidateEmail(s).Err?
    ensures Text.EndsWith(s, "@") ==> ValidateEmail(s).Err?
  {
  }

  // ---------------------------------------------------------------------
  // Date of birth

  /** Whole years from `dob` to `today`: one less while this year's birthday is still ahead. */
  function Age(today: Date, dob: Date): int {
    var years := today.year - dob.year;
    if today.month < dob.month || (today.month == dob.month && today.day < dob.day) then years - 1
    else years
  }

  /** Dates compared as (year, month, day). */
  predicate DateLeq(a: Date, b: Date) {
    a.year < b.year
    || (a.year == b.year && (a.month < b.month || (a.month == b.month && a.day <= b.day)))
  }

  /** The `n`-th anniversary of `d`. */
  function Anniversary(d: Date, n: int): Date {
    Date(d.year + n, d.month, d.day)
  }

  /** The age is the number of anniversaries that have been reached. */
  lemma AgeIsWholeYears(today: Date, dob: Date)
    ensures DateLeq(Anniversary(dob, Age(today, dob)), today)
    ensures !DateLeq(Anniversary(dob, Age(today, dob) + 1), today)
  {
  }

  /** `validate_date_of_birth`, with today's date passed in. */
  function ValidateDateOfBirth(today: Date, dob: Date): (r: Result<(), SpectralError>)
    ensures r.Ok? <==> 13 <= Age(today, dob) <= 120
  {
    var age := Age(today, dob);
    if age < 13 then Err(Validation("Must be at least 13 years old"))
    else if age > 120 then Err(Validation("Invalid date of birth"))
    else Ok(())
  }

  // ---------------------------------------------------------------------
  // US state codes and ZIP codes

  // The fifty codes of `US_STATES`, in its order, in four rows.
  const STATES_1: seq<string> :=
    ["AL", "AK", "AZ", "AR", "CA", "CO", "CT", "DE", "FL", "GA", "HI", "ID", "IL", "IN", "IA", "KS"]
  const STATES_2: seq<string> :=
    ["KY", "LA", "ME", "MD", "MA", "MI", "MN", "MS", "MO", "MT", "NE", "NV", "NH", "NJ", "NM", "NY"]
  const STATES_3: seq<string> :=
    ["NC", "ND", "OH", "OK", "OR", "PA", "RI", "SC", "SD", "TN", "TX", "UT", "VT", "VA", "WA", "WV"]
  const STATES_4: seq<string> := ["WI", "WY"]
  const US_STATES: seq<string> := STATES_1 + STATES_2 + STATES_3 + STATES_4

  function ValidateUsState(state: string): (r: Result<(), SpectralError>)
    ensures r.Ok? <==> state in US_STATES
  {
    if state in US_STATES then Ok(()) else Err(Validation("Invalid US state code"))
  }

  /** Fifty codes, each two uppercase letters, so matching is case-sensitive. */
  predicate IsStateCode(s: string) {
    |s| == 2 && Text.IsAsciiUpper(s[0]) && Text.IsAsciiUpper(s[1])
  }

  /** The table holds fifty codes of two uppercase letters. */
  lemma StateTable()
    ensures |US_STATES| == 50
    ensures forall s :: s in US_STATES ==> IsStateCode(s)
  {
    RowCodes(STATES_1);
    RowCodes(STATES_2);
    RowCodes(STATES_3);
    RowCodes(STATES_4);
  }

  /** Each row of the table holds only codes of two uppercase letters. */
  lemma RowCodes(row: seq<string>)
    requires row == STATES_1 || row == STATES_2 || row == STATES_3 || row == STATES_4
    ensures forall s :: s in row ==> IsStateCode(s)
  {
    if row == STATES_1 {
      assert forall s :: s in STATES_1 ==> IsStateCode(s);
    } else if row == STATES_2 {
      assert forall s :: s in STATES_2 ==> IsStateCode(s);
    } else if row == STATES_3 {
      assert forall s :: s in STATES_3 ==> IsStateCode(s);
    } else {
      assert forall s :: s in STATES_4 ==> IsStateCode(s);
    }
  }

  /** Matching is exact: anything but two uppercase letters is refused, whatever it spells. */
  lemma StateCodeShape(state: string)
    ensures ValidateUsState(state).Ok? ==> IsStateCode(state)
  {
    StateTable();
  }

  lemma SampleState()
    ensures ValidateUsState("CA").Ok?
  {
    assert US_STATES[4] == "CA";
  }

  predicate AllDigits(s: string) { forall k :: 0 <= k < |s| ==> Text.IsAsciiDigit(s[k]) }

  /** `^\d{5}(-\d{4})?$`, on ASCII digits. */
  predicate MatchesZip(s: string) {
    (|s| == 5 && AllDigits(s))
    || (|s| == 10 && AllDigits(s[..5]) && s[5] == '-' && AllDigits(s[6..]))
  }

  function ValidateZipCode(zip: string): (r: Result<(), SpectralError>)
    ensures r.Ok? <==> MatchesZip(zip)
  {
    if MatchesZip(zip) then Ok(()) else Err(Validation("Invalid ZIP code format (use 12345 or 12345-6789)"))
  }

  /** Exactly five digits, or five digits, `-` and four digits. */
  lemma ZipForms(zip: string, plus4: string)
    ensures ValidateZipCode(zip).Ok? <==>
      (|zip| == 5 && AllDigits(zip))
      || exists five, four :: zip == five + "-" + four && |five| == 5 && |four| == 4
                              && AllDigits(five) && AllDigits(four)
    ensures |zip| == 5 && AllDigits(zip) && |plus4| == 4 && AllDigits(plus4) ==>
      ValidateZipCode(zip + "-" + plus4).Ok?
  {
    if |zip| == 10 && AllDigits(zip[..5]) && zip[5] == '-' && AllDigits(zip[6..]) {
      assert zip == zip[..5] + "-" + zip[6..];
    }
    if |zip| == 5 && AllDigits(zip) && |plus4| == 4 && AllDigits(plus4) {
      var z := zip + "-" + plus4;
      assert z[..5] == zip && z[6..] == plus4;
    }
    if exists five, four :: zip == five + "-" + four && |five| == 5 && |four| == 4
                            && AllDigits(five) && AllDigits(four) {
      var five, four :| zip == five + "-" + four && |five| == 5 && |four| == 4
                        && AllDigits(five) && AllDigits(four);
      assert zip[..5] == five && zip[6..] == four;
    }
  }

  // ---------------------------------------------------------------------
  // The whole input

  datatype Input = Input(
    firstName: string,
    middleName: Option<string>,
    lastName: string,
    email: string,
    dateOfBirth: Option<Date>,
    addressLine1: string,
    addressLine2: Option<string>,
    city: string,
    state: string,
    zipCode: string)

  /** The middle name is checked only when it is given and non-empty. */
  function MiddleCheck(m: Option<string>): Result<(), SpectralError> {
    if m.Some? && m.value != [] then ValidateName(m.value) else Ok(())
  }

  function DateCheck(today: Date, dob: Option<Date>): Result<(), SpectralError> {
    if dob.Some? then ValidateDateOfBirth(today, dob.value) else Ok(())
  }

  /** `ProfileInput::validate`, stopping at the first failing check. */
  function Validate(p: Input, today: Date): (r: Result<(), SpectralError>)
    ensures r.Ok? <==>
      ValidateName(p.firstName).Ok? && MiddleCheck(p.middleName).Ok? && ValidateName(p.lastName).Ok?
      && ValidateEmail(p.email).Ok? && DateCheck(today, p.dateOfBirth).Ok?
      && ValidateUsState(p.state).Ok? && ValidateZipCode(p.zipCode).Ok?
  {
    if ValidateName(p.firstName).Err? then ValidateName(p.firstName)
    else if MiddleCheck(p.middleName).Err? then MiddleCheck(p.middleName)
    else if ValidateName(p.lastName).Err? then ValidateName(p.lastName)
    else if ValidateEmail(p.email).Err? then ValidateEmail(p.email)
    else if DateCheck(today, p.dateOfBirth).Err? then DateCheck(today, p.dateOfBirth)
    else if ValidateUsState(p.state).Err? then ValidateUsState(p.state)
    else ValidateZipCode(p.zipCode)
  }

  /** The error reported is that of the first failing check, in field order. */
  lemma ValidateReportsFirstFailure(p: Input, today: Date)
    ensures ValidateName(p.firstName).Err? ==> Validate(p, today) == ValidateName(p.firstName)
    ensures ValidateName(p.firstName).Ok? && MiddleCheck(p.middleName).Err? ==>
      Validate(p, today) == MiddleCheck(p.middleName)
    ensures ValidateName(p.firstName).Ok? && MiddleCheck(p.middleName).Ok? && ValidateName(p.lastName).Err? ==>
      Validate(p, today) == ValidateName(p.lastName)
    ensures (ValidateName(p.firstName).Ok? && MiddleCheck(p.middleName).Ok? && ValidateName(p.lastName).Ok?
             && ValidateEmail(p.email).Err?) ==> Validate(p, today) == ValidateEmail(p.email)
    ensures (ValidateName(p.firstName).Ok? && MiddleCheck(p.middleName).Ok? && ValidateName(p.lastName).Ok?
             && ValidateEmail(p.email).Ok? && DateCheck(today, p.dateOfBirth).Err?) ==>
      Validate(p, today) == DateCheck(today, p.dateOfBirth)
    ensures (ValidateName(p.firstName).Ok? && MiddleCheck(p.middleName).Ok? && ValidateName(p.lastName).Ok?
             && ValidateEmail(p.email).Ok? && DateCheck(today, p.dateOfBirth).Ok?
             && ValidateUsState(p.state).Err?) ==> Validate(p, today) == ValidateUsState(p.state)
    ensures (ValidateName(p.firstName).Ok? && MiddleCheck(p.middleName).Ok? && ValidateName(p.lastName).Ok?
             && ValidateEmail(p.email).Ok? && DateCheck(today, p.dateOfBirth).Ok?
             && ValidateUsState(p.state).Ok?) ==> Validate(p, today) == ValidateZipCode(p.zipCode)
  {
  }

  /** Address lines and city are never checked. */
  lemma AddressNeverChecked(p: Input, today: Date, line1: string, line2: Option<string>, city: string)
    ensures Validate(p.(addressLine1 := line1, addressLine2 := line2, city := city), today) == Validate(p, today)
  {
  }

  /** An empty middle name counts as no middle name. */
  lemma EmptyMiddleName(p: Input, today: Date)
    ensures Validate(p.(middleName := Some("")), today) == Validate(p.(middleName := None), today)
  {
  }
}
