# Spectral core, modelled in Dafny

Spectral is a local-first desktop application that finds a user's personal
data on people-search sites ("data brokers") and asks for its removal. This
project models the deterministic core of that system and proves properties
of it:

- the broker-definition validator script, which checks already-parsed TOML
  definitions section by section and turns a batch of files into an exit
  code;
- typed broker-definition validation, identifier validation (broker ids,
  UUID-v4 profile ids) and profile-input validation;
- profile completeness scoring and its tiers, scan filters and search-URL
  construction;
- the permission subsystem: permissions and their risk levels, grants with
  expiry and use counts, presets, prompts, the audit log and the permission
  manager's grant/deny/revoke state machine;
- the feature-capability registry and the in-memory broker registry;
- PII filtering for LLM requests (block, redact, tokenize) and the
  tokenize/detokenize round trip;
- LLM provider selection, request building, role names and the e-mail and
  form prompt builders and reply parsers;
- findings and their verification status, removal outcomes, the retry
  schedule, field mapping and status updates of the removal worker;
- e-mail templates, sender matching, `From:` header extraction and the IMAP
  search date of the mail crate;
- job scheduling, the per-domain browser rate limiter, the application's
  vault state, the profile commands, local file discovery, the error codes
  shown to the front end, and the authentication state.

Each source file is one Dafny module, in a file of its own. Code that
computes values is modelled by datatypes, functions and lemmas. Objects
whose methods update their fields are classes: `PermissionManager`,
`AuditLogger`, `CapabilityRegistry`, `BrokerRegistry`, `LlmRouter`,
`RateLimiter`, `AppState` and `AuthState`. Loops in the source are methods
with loop invariants. Each one is proved to compute a specification
function, and the properties are then proved about that function.

The world outside the core is passed in as parameters:

- the clock (`now`);
- decryption and encryption;
- RFC 3339 and JSON codecs;
- the matches of regular expressions;
- the contents of the disk;
- the replies of the IMAP server and of the LLM;
- the iteration order of hash maps.

Python's run-time exceptions in the validator are modelled as the outcome
`Raised`. A Rust panic is modelled as an error value (`Panic`).

## Model

| member | source | states |
|---|---|---|
| BrokerToml.SortedCategories | scripts/validate-broker-toml.py:20-29 | the category list printed in diagnostics holds exactly the eight allowed categories, strictly ascending |
| BrokerToml.SortedRemovalMethods | scripts/validate-broker-toml.py:31-38 | the removal-method list printed in diagnostics holds exactly the six allowed methods, strictly ascending |
| BrokerToml.SortedJurisdictions | scripts/validate-broker-toml.py:40-48 | the jurisdiction list printed in diagnostics holds exactly the seven allowed laws, strictly ascending |
| BrokerTomlProperties.EarlyExits | scripts/validate-broker-toml.py:51-57 | a syntax error yields exactly the one "Invalid TOML syntax" diagnostic, and an empty document yields none, with no further check run |
| BrokerTomlProperties.MissingFieldsOfTable | scripts/validate-broker-toml.py:67-69 | inside a present section, one `Missing required field: section.field` per absent field, in manifest order, and nothing else |
| BrokerTomlProperties.RequiredInExact | scripts/validate-broker-toml.py:63-69 | an absent section yields exactly one "Missing required section" and none of its field checks; a present one yields its missing fields |
| BrokerTomlProperties.RequiredPassExact | scripts/validate-broker-toml.py:60-70 | the required-field pass reports `broker` first and then `removal`, each as the exact list above |
| BrokerTomlProperties.ScalarSectionRaises | scripts/validate-broker-toml.py:68 | a required section that is a number, boolean or date makes `field not in data[section]` raise, ending the run |
| BrokerTomlProperties.MissingFieldsPhase | scripts/validate-broker-toml.py:60-70 | every diagnostic of the inner field loop belongs to the required-field phase |
| BrokerTomlProperties.RequiredPassPhase | scripts/validate-broker-toml.py:60-70 | every diagnostic of the required-field pass belongs to that phase |
| BrokerTomlProperties.MethodEntriesPhase | scripts/validate-broker-toml.py:115-120 | the per-method diagnostics all belong to the removal phase |
| BrokerTomlProperties.JurisdictionEntriesPhase | scripts/validate-broker-toml.py:134-140 | the per-entry diagnostics all belong to the jurisdictions phase |
| BrokerTomlProperties.SectionPhases | scripts/validate-broker-toml.py:153-163 | each section checker only produces diagnostics of its own phase |
| BrokerTomlProperties.BrokerPhase | scripts/validate-broker-toml.py:73-100 | the broker checker only produces broker-phase diagnostics |
| BrokerTomlProperties.RemovalPhase | scripts/validate-broker-toml.py:103-128 | the removal checker only produces removal-phase diagnostics |
| BrokerTomlProperties.JurisdictionsPhase | scripts/validate-broker-toml.py:131-141 | the jurisdictions checker only produces jurisdictions-phase diagnostics |
| BrokerTomlProperties.PhasesInOrder | scripts/validate-broker-toml.py:144-165 | a file's diagnostics are sorted by phase (required, broker, removal, jurisdictions) and the diagnostics of each phase are exactly what that checker reports on its own: no check suppresses a later one |
| BrokerTomlSections.BrokerStringFields | scripts/validate-broker-toml.py:73-100 | with string values the category, domain and id checks report independently, in that order |
| BrokerTomlSections.StringCategory | scripts/validate-broker-toml.py:77-82 | a category outside the eight-value set yields exactly one diagnostic; one inside yields none |
| BrokerTomlSections.StringDomain | scripts/validate-broker-toml.py:84-90 | a domain that is empty, holds a space or starts with "http" yields exactly one diagnostic; any other yields none |
| BrokerTomlSections.StringId | scripts/validate-broker-toml.py:92-98 | a string id gets the format diagnostic and the lowercase diagnostic independently, format first |
| BrokerTomlSections.IdRules | scripts/validate-broker-toml.py:93-98 | format rule: the id with `-` and `_` stripped must be non-empty and made of letters and numerals (ASCII and Latin-1 ones, as `str.isalnum` counts them); lowercase rule: the id must equal its lowercase form (ASCII and Latin-1 capitals lowered, as `str.lower` does) |
| BrokerTomlSections.NoSeparators | scripts/validate-broker-toml.py:95 | stripping separators leaves an id without `-` and `_` unchanged |
| BrokerTomlSections.LowercaseIdAccepted | scripts/validate-broker-toml.py:93-98 | a non-empty id of lowercase letters and digits yields no diagnostic |
| BrokerTomlSections.PlainIdAccepted | scripts/validate-broker-toml.py:93-98 | "spokeo" yields no diagnostic |
| BrokerTomlSections.StripCapitalised | scripts/validate-broker-toml.py:95 | stripping separators from "Spokeo-1" gives "Spokeo1" |
| BrokerTomlSections.CapitalisedFacts | scripts/validate-broker-toml.py:95-97 | "Spokeo-1" passes the format rule and fails the lowercase rule |
| BrokerTomlSections.CapitalisedIdRejected | scripts/validate-broker-toml.py:93-98 | "Spokeo-1" yields only the lowercase diagnostic |
| BrokerTomlSections.PunctuatedRejected | scripts/validate-broker-toml.py:93-98 | an id without capitals or separators that holds a character that is neither letter nor numeral yields only the format diagnostic |
| BrokerTomlSections.AccentedIds | scripts/validate-broker-toml.py:95-98 | `café` passes both id rules; `É` passes the format rule and fails only the lowercase rule |
| BrokerTomlSections.PunctuatedIdRejected | scripts/validate-broker-toml.py:93-98 | "spokeo!" yields exactly the format diagnostic |
| BrokerTomlSections.ReprCharsPlain | scripts/validate-broker-toml.py:86-90 | `repr` copies every character that needs no escape under the chosen quote |
| BrokerTomlSections.ReprQuotes | scripts/validate-broker-toml.py:86-90 | `repr` quotes with `'` unless the string holds `'` and no `"`, and escapes the quote it chose |
| BrokerTomlSections.ListDomainReported | scripts/validate-broker-toml.py:84-90 | a list domain holding `" "` is reported, `" " in` testing its items |
| BrokerTomlSections.DictDomainReported | scripts/validate-broker-toml.py:84-90 | a dict domain with the key `" "` is reported, `" " in` testing its keys |
| BrokerTomlSections.ListPrinted | scripts/validate-broker-toml.py:88-89 | the list `["it's", " "]` prints as `["it's", ' ']` |
| BrokerTomlSections.DictPrinted | scripts/validate-broker-toml.py:88-89 | the dict `{" ": 1}` prints as `{' ': 1}`, its entries in the file's order |
| BrokerTomlSections.DomainExamples | scripts/validate-broker-toml.py:84-90 | "spokeo.com" yields no diagnostic and "https://spokeo.com" exactly one |
| BrokerTomlSections.MethodEntriesExact | scripts/validate-broker-toml.py:115-120 | each method outside the method set yields its own diagnostic, in list order; an unhashable entry (list or table) raises |
| BrokerTomlSections.MethodEntriesReported | scripts/validate-broker-toml.py:115-120 | with hashable entries, the diagnostics are exactly the invalid entries, in list order |
| BrokerTomlSections.MethodEntriesRaise | scripts/validate-broker-toml.py:116 | a list or table among the methods raises TypeError |
| BrokerTomlSections.MethodShapes | scripts/validate-broker-toml.py:108-120 | a string method is a one-element list, a list is used as-is, any other shape or an empty list yields "must be a string or array of strings" |
| BrokerTomlSections.UrlRules | scripts/validate-broker-toml.py:122-126 | a string url is accepted iff it starts with "http://" or "https://"; otherwise one diagnostic echoing the value; any other type raises |
| BrokerTomlSections.JurisdictionEntriesExact | scripts/validate-broker-toml.py:131-141 | only tables holding `law` are checked, each bad law yields one diagnostic in list order, every other entry is ignored |
| BrokerTomlSections.LastName | scripts/validate-broker-toml.py:182 | a non-empty path name is one of the path's components and is neither empty nor "." |
| BrokerTomlSections.BaseName | scripts/validate-broker-toml.py:182 | a non-empty base name holds no `/` and is not "." |
| BrokerTomlSections.RaisedStops | scripts/validate-broker-toml.py:180-201 | once a file raises, the rest of the arguments change nothing (the exception ends `main`) |
| BrokerTomlSections.PrintErrors | scripts/validate-broker-toml.py:193-196 | a failing file prints "ERROR: path" followed by one bullet per diagnostic, in order |
| BrokerTomlSections.HandleOne | scripts/validate-broker-toml.py:181-199 | one loop iteration prints and decides exactly what the skip / not-found / valid / invalid rules say |
| BrokerTomlSections.ProgressSnoc | scripts/validate-broker-toml.py:180-199 | the state after i+1 arguments is the state after i followed by argument i's step |
| BrokerTomlSections.Advance | scripts/validate-broker-toml.py:180-199 | the loop body moves the printed lines and `all_valid` from the state after i arguments to the state after i+1 |
| BrokerTomlSections.RunBatch | scripts/validate-broker-toml.py:172-201 | `main` returns the status and prints the lines of the batch specification, usage and status 1 with no arguments |
| BrokerTomlSections.ExaminePasses | scripts/validate-broker-toml.py:181-199 | an argument keeps the batch passing iff it is skipped, or exists and has no diagnostic |
| BrokerTomlSections.ProgressPasses | scripts/validate-broker-toml.py:178-199 | the batch stays passing iff every argument passes; a missing file fails it while the loop continues |
| BrokerTomlSections.ExitZeroIff | scripts/validate-broker-toml.py:172-201 | exit status is 0 iff there is at least one argument and every non-skipped one exists and has no diagnostic; otherwise 1 |
| BrokerTomlSections.EveryFileReported | scripts/validate-broker-toml.py:180-199 | when nothing raises, every argument's lines are printed, in argument order, whatever earlier files gave |
| BrokerTomlSections.ProgressLast | scripts/validate-broker-toml.py:180-199 | the last argument is handled after all earlier ones |
| BrokerDefinition.CategoryNamesInjective | crates/spectral-broker/src/definition.rs:145-161 | no two categories share a display name or a kebab-case name |
| BrokerDefinition.DifficultyRank | crates/spectral-broker/src/definition.rs:163-171 | difficulties are ranked in declaration order, below 3 |
| BrokerDefinition.DifficultyTotalOrder | crates/spectral-broker/src/definition.rs:163-171 | Easy < Medium < Hard, and the order is irreflexive, total, asymmetric and transitive |
| BrokerDefinition.ValidateSearch | crates/spectral-broker/src/definition.rs:207-266 | UrlTemplate is valid iff template and required fields are non-empty; WebForm iff url, fields and required fields are; Manual iff url and instructions are; errors name the broker |
| BrokerDefinition.ValidateWebForm | crates/spectral-broker/src/definition.rs:375-403 | a web-form removal is valid iff url, fields and the submit-button selector are non-empty |
| BrokerDefinition.ValidateEmail | crates/spectral-broker/src/definition.rs:405-437 | an email removal is valid iff email, subject and body are non-empty and response days lie in 1..=90 |
| BrokerDefinition.ValidatePhone | crates/spectral-broker/src/definition.rs:439-453 | a phone removal is valid iff phone and instructions are non-empty |
| BrokerDefinition.ValidateManual | crates/spectral-broker/src/definition.rs:455-463 | a manual removal is valid iff its instructions are non-empty |
| BrokerDefinition.ValidateRemoval | crates/spectral-broker/src/definition.rs:352-373 | a removal method is valid iff the rule of its variant holds |
| BrokerDefinition.Validate | crates/spectral-broker/src/definition.rs:44-89 | a definition is valid iff name and url are non-empty, both day counts lie in 1..=365 and the search and removal methods are valid |
| BrokerDefinition.FirstFailure | crates/spectral-broker/src/definition.rs:44-89 | reference definition of fail-fast: Ok iff every check is Ok, otherwise the first failing check |
| BrokerDefinition.ValidateIsFirstFailure | crates/spectral-broker/src/definition.rs:44-89 | validation returns the first failure of the checks name, url, removal days, recheck days, search, removal |
| BrokerDefinition.ValidateChain | crates/spectral-broker/src/definition.rs:44-89 | the same fail-fast order, stated check by check |
| BrokerDefinition.DayRanges | crates/spectral-broker/src/definition.rs:61-80 | an out-of-range removal-day count is reported (with its value) before an out-of-range recheck interval |
| BrokerDefinition.ValidateIgnoresOtherFields | crates/spectral-broker/src/definition.rs:44-89 | domain, category, difficulty, last-verified date, confirmation and notes never affect the result |
| BrokerDefinition.SampleDefinition | crates/spectral-broker/src/definition.rs:591-641 | the definition of the tests validates, and fails with removal days 0, recheck interval 500 or an empty name |
| CoreTypes.NewBrokerId | crates/spectral-core/src/types.rs:77-86 | `new` succeeds iff `validate` does, keeps the text exactly (`as_str`), and otherwise returns the validation error |
| CoreTypes.PatternIsAscii | crates/spectral-core/src/types.rs:90-100 | a string matching the id pattern has as many bytes as characters, so the byte-length check agrees with the pattern's length |
| CoreTypes.BrokerIdAccepted | crates/spectral-core/src/types.rs:90-109 | a broker id is accepted iff it is 3-50 characters with first and last in `[a-z0-9]` and every interior character in `[a-z0-9-]` |
| CoreTypes.BrokerIdPatternToRegex | crates/spectral-core/src/types.rs:101-103 | the position-by-position pattern implies the regular expression `^[a-z0-9][a-z0-9-]{1,48}[a-z0-9]$` |
| CoreTypes.BrokerIdRegexToPattern | crates/spectral-core/src/types.rs:101-103 | the regular expression's three parts imply the position-by-position pattern |
| CoreTypes.BrokerIdPatternIsRegex | crates/spectral-core/src/types.rs:101-103 | the pattern and the regular expression accept the same strings |
| CoreTypes.BrokerIdLengthFirst | crates/spectral-core/src/types.rs:93-100 | a byte length outside 3..=50 is rejected with the length message, before the format check |
| CoreTypes.BrokerIdRejected | crates/spectral-core/src/types.rs:101-109 | a string outside the pattern is rejected |
| CoreTypes.SampleBrokerIdAccepted | crates/spectral-core/src/types.rs:324-337 | "been-verified" is accepted |
| CoreTypes.ShortestBrokerIdAccepted | crates/spectral-core/src/types.rs:324-337 | "abc" is accepted |
| CoreTypes.BrokerIdShapesRejected | crates/spectral-core/src/types.rs:339-354 | an uppercase letter, `_`, a space, or a leading or trailing `-` is rejected |
| CoreTypes.TooLongBrokerId | crates/spectral-core/src/types.rs:339-354 | 51 characters are rejected |
| CoreTypes.NewProfileId | crates/spectral-core/src/types.rs:24-30 | `new` succeeds iff `validate` does and keeps the text exactly (`as_str`) |
| CoreTypes.UuidGroupsMatch | crates/spectral-core/src/types.rs:43-57 | the five hex groups laid out with the version and variant nibbles put each character at the position the layout fixes |
| CoreTypes.HexGroup | crates/spectral-core/src/types.rs:43-57 | every hex position of an accepted id holds a lowercase hex digit |
| CoreTypes.UuidSplit | crates/spectral-core/src/types.rs:43-57 | an accepted id is its five groups joined by `-`, with `4` and the variant nibble in place |
| CoreTypes.UuidPatternToRegex | crates/spectral-core/src/types.rs:43-57 | the position-by-position UUID v4 check implies the regular expression |
| CoreTypes.UuidRegexToPattern | crates/spectral-core/src/types.rs:43-57 | the regular expression implies the position-by-position check |
| CoreTypes.ProfileIdPatternIsRegex | crates/spectral-core/src/types.rs:43-57 | 36 lowercase-hex characters with `-` at 8, 13, 18, 23, `4` at 14 and one of `89ab` at 19 are exactly the strings the regular expression accepts |
| CoreTypes.ProfileIdAccepted | crates/spectral-core/src/types.rs:24-57 | every string of that layout is accepted as itself |
| CoreTypes.ProfileIdRejected | crates/spectral-core/src/types.rs:24-57 | every other string is rejected |
| CoreTypes.SampleProfileIdAccepted | crates/spectral-core/src/types.rs:295-300 | the UUID of the tests is accepted and kept |
| CoreTypes.WrongVersionRejected | crates/spectral-core/src/types.rs:303-314 | a version nibble other than 4 is rejected |
| CoreTypes.NonHexRejected | crates/spectral-core/src/types.rs:303-314 | a non-hex character is rejected |
| CoreTypes.DisplayNameInjective | crates/spectral-core/src/types.rs:176-203 | no two PII fields share a display name (which is also their `Display`) |
| CoreTypes.SensitivityLevel | crates/spectral-core/src/types.rs:206-213 | the level lies in 0..=3 and is 3 exactly for Ssn and DateOfBirth |
| CoreTypes.SensitivityExamples | crates/spectral-core/src/types.rs:362-367 | Ssn is 3, Email 2, City 1, and unlisted fields 0 |
| ProfileInput.ValidateName | src-tauri/src/types/profile.rs:86-106 | a name is accepted iff its trimmed form is non-empty and every character of it is alphabetic, whitespace, `-` or `'` |
| ProfileInput.NameAccepted | src-tauri/src/types/profile.rs:86-106 | the same rule on the untrimmed name: some character is not whitespace and every character is allowed |
| ProfileInput.SampleName | src-tauri/src/types/profile.rs:167-175 | "Mary-Jane" is accepted |
| ProfileInput.DigitInNameRejected | src-tauri/src/types/profile.rs:167-175 | a name holding a digit is rejected |
| ProfileInput.ValidateEmail | src-tauri/src/types/profile.rs:108-116 | an email is accepted iff it matches the email pattern, stated character by character |
| ProfileInput.DomainToParts | src-tauri/src/types/profile.rs:71-74 | an accepted domain part splits into a non-empty domain and a TLD of at least two letters |
| ProfileInput.EmailMatchToRegex | src-tauri/src/types/profile.rs:71-74 | the character-by-character check implies the regular expression |
| ProfileInput.EmailRegexToMatch | src-tauri/src/types/profile.rs:71-74 | the regular expression implies the character-by-character check |
| ProfileInput.EmailMatchIsRegex | src-tauri/src/types/profile.rs:71-74 | the check and the regular expression accept the same strings |
| ProfileInput.EmailRejections | src-tauri/src/types/profile.rs:177-185 | no `@`, an empty local part, or nothing after the `@` is rejected |
| ProfileInput.AgeIsWholeYears | src-tauri/src/types/profile.rs:118-133 | the computed age is the number of whole years: the birthday of that age has passed and the next has not |
| ProfileInput.ValidateDateOfBirth | src-tauri/src/types/profile.rs:118-141 | a date of birth is accepted iff the age is between 13 and 120 inclusive |
| ProfileInput.ValidateUsState | src-tauri/src/types/profile.rs:143-150 | a state is accepted iff it is one of the listed codes, case-sensitively |
| ProfileInput.StateTable | src-tauri/src/types/profile.rs:79-84 | the table lists 50 codes, each two uppercase letters |
| ProfileInput.StateCodeShape | src-tauri/src/types/profile.rs:143-150 | an accepted state is two uppercase letters |
| ProfileInput.SampleState | src-tauri/src/types/profile.rs:198-204 | "CA" is accepted |
| ProfileInput.ValidateZipCode | src-tauri/src/types/profile.rs:152-160 | a ZIP is accepted iff it matches the ZIP pattern |
| ProfileInput.ZipForms | src-tauri/src/types/profile.rs:76-77 | accepted ZIPs are exactly five digits, or five digits, `-` and four digits |
| ProfileInput.Validate | src-tauri/src/types/profile.rs:23-39 | the input is valid iff first name, middle name (when given and non-empty), last name, email, date of birth (when given), state and ZIP all are |
| ProfileInput.ValidateReportsFirstFailure | src-tauri/src/types/profile.rs:23-39 | the checks run in field order (first name, middle name, last name, e-mail, date of birth, state, ZIP code) and the error of the first failing one is returned; the ZIP check decides when all others pass |
| ProfileInput.AddressNeverChecked | src-tauri/src/types/profile.rs:23-39 | address lines and city never affect validation |
| ProfileInput.EmptyMiddleName | src-tauri/src/types/profile.rs:26-30 | an empty middle name is treated like an absent one |
| VaultProfile.NewProfile | crates/spectral-vault/src/profile.rs:176-206 | a new profile keeps its id, leaves every optional field None and every list empty, and has created_at = updated_at = now |
| VaultProfile.Touch | crates/spectral-vault/src/profile.rs:325-327 | `touch` sets updated_at to now and changes nothing else |
| VaultProfile.EarnedAppend | crates/spectral-vault/src/profile.rs:336-376 | points earned and points available add up over consecutive groups of criteria |
| VaultProfile.EarnedAtMostAvailable | crates/spectral-vault/src/profile.rs:336-376 | a group never earns more than it offers, and earns all of it when every criterion is met |
| VaultProfile.ScoreByGroup | crates/spectral-vault/src/profile.rs:336-376 | the score is the sum of the core-identity, current-location and enhanced-matching groups, and the criteria offer exactly 100 points |
| VaultProfile.GroupPoints | crates/spectral-vault/src/profile.rs:336-376 | first and last name 15 each, email, address, city, state-and-ZIP, phone numbers and previous addresses 10 each, date of birth 5, aliases 3, relatives 2 |
| VaultProfile.ScoreBounded | crates/spectral-vault/src/profile.rs:336-386 | the score never exceeds 100 and is 100 when every criterion is met |
| VaultProfile.TierMonotone | crates/spectral-vault/src/profile.rs:389-396 | the tier is monotone in the score, with the boundaries 30/31, 60/61 and 85/86 |
| VaultProfile.CompletenessScore | crates/spectral-vault/src/profile.rs:336-386 | the result carries the weighted score, max_score 100, percentage equal to score, the tier of the score and the message of the tier |
| VaultProfile.NewProfileScore | crates/spectral-vault/src/profile.rs:704-712 | a new profile scores 0, tier Minimal |
| VaultProfile.CoreIdentityScore | crates/spectral-vault/src/profile.rs:714-728 | first name, last name and email together give 40, tier Basic |
| VaultProfile.FullProfileScore | crates/spectral-vault/src/profile.rs:730-771 | a fully populated profile gives 100, tier Excellent |
| VaultProfile.StateNeedsZip | crates/spectral-vault/src/profile.rs:357-359 | state alone or ZIP alone adds nothing |
| VaultProfile.ScoreReadsOnlyPresence | crates/spectral-vault/src/profile.rs:336-376 | full name, middle name, country, SSN, employer, job title, education, social media, the legacy phone and the field contents never change the score |
| ScanFilter.AnyEquals | crates/spectral-scanner/src/filter.rs:20 | the id search is true iff the broker id is among the listed ids |
| ScanFilter.Matches | crates/spectral-scanner/src/filter.rs:17-31 | All matches every broker, Specific(ids) iff the broker id is listed, Category(c) iff the category's kebab-case name equals c |
| ScanFilter.FilterSelections | crates/spectral-scanner/src/filter.rs:143-151 | Specific([]) matches nothing, and a category filter matches exactly the brokers of that category |
| ScanFilter.CheckProfileCompleteness | crates/spectral-scanner/src/filter.rs:44-100 | the loop returns the completeness specification, which does not depend on the key |
| ScanFilter.CompletenessMeaning | crates/spectral-scanner/src/filter.rs:49-100 | Ok iff the search is Manual or every required field is present; an Err lists exactly the required fields that are absent |
| ScanFilter.MissingKeepsOrder | crates/spectral-scanner/src/filter.rs:59-92 | the missing list follows the order of the required fields |
| ScanFilter.MissingTwice | crates/spectral-scanner/src/filter.rs:59-92 | a required field listed twice and absent is reported twice |
| ScanFilter.PresenceRules | crates/spectral-scanner/src/filter.rs:62-89 | phone is present iff the legacy phone is set or phone numbers are non-empty; age iff date of birth; IP address, photo and other never |
| ScanFilter.UntrackedAlwaysMissing | crates/spectral-scanner/src/filter.rs:88 | a required IP address, photo or other field is always reported missing |
| ScanFilter.ManualAlwaysPasses | crates/spectral-scanner/src/filter.rs:49-57 | a Manual search method is Ok for any profile |
| UrlBuilder.UrlEncodeSimple | crates/spectral-scanner/src/url_builder.rs:10-22 | the output holds only alphanumerics, `-` and `_` and is never longer than the input |
| UrlBuilder.EncodeAppend | crates/spectral-scanner/src/url_builder.rs:10-22 | encoding works character by character: it distributes over concatenation |
| UrlBuilder.EncodeKeepsSlug | crates/spectral-scanner/src/url_builder.rs:10-22 | text of alphanumerics, `-` and `_` is left unchanged |
| UrlBuilder.EncodeIdempotent | crates/spectral-scanner/src/url_builder.rs:10-22 | encoding encoded text changes nothing |
| UrlBuilder.EncodeSpaceAndPunctuation | crates/spectral-scanner/src/url_builder.rs:13-21 | each whitespace character becomes `-` and other punctuation is dropped |
| UrlBuilder.Substitute | crates/spectral-scanner/src/url_builder.rs:35-69 | a None field leaves the URL unchanged, a decryption failure becomes ProfileDataError with its message, a decrypted value is substituted |
| UrlBuilder.BuildSearchUrl | crates/spectral-scanner/src/url_builder.rs:24-78 | any non-UrlTemplate method gives ProfileDataError; with no fields set the template is returned unchanged; a first-name decryption failure is reported first |
| UrlBuilder.EncodeLowerWord | crates/spectral-scanner/src/url_builder.rs:42-69 | a word of letters, lowercased and encoded, is its lowercase form |
| UrlBuilder.FillTemplate | crates/spectral-scanner/src/url_builder.rs:35-69 | the four successive replacements fill `{first}`, `{last}`, `{state}` and `{city}` in place |
| UrlBuilder.FillFour | crates/spectral-scanner/src/url_builder.rs:35-69 | four successive replacements of distinct placeholders fill each one |
| UrlBuilder.FillOne | crates/spectral-scanner/src/url_builder.rs:35-69 | replacing a placeholder that occurs once puts the value in its place |
| UrlBuilder.EncodedHasNoBrace | crates/spectral-scanner/src/url_builder.rs:10-22 | encoded text never holds `{`, so a substituted value cannot create a placeholder |
| UrlBuilder.BuildFillsTemplate | crates/spectral-scanner/src/url_builder.rs:42-69 | first name, last name and city are lowercased and encoded, state is only encoded |
| UrlBuilder.ExampleEncodings | crates/spectral-scanner/src/url_builder.rs:101-121 | "John", "Doe", "Springfield" encode lowercased; "CA" stays "CA" |
| UrlBuilder.DocumentedExample | crates/spectral-scanner/src/url_builder.rs:101-121 | the documented example builds "https://example.com/john-doe/CA/springfield" |
| PiiFilter.AsStr | crates/spectral-llm/src/pii_filter.rs:231-240 | every type name is at least three characters of uppercase letters and `_` |
| PiiFilter.AsStrInjective | crates/spectral-llm/src/pii_filter.rs:231-240 | no two PII types share a name |
| PiiFilter.Detections | crates/spectral-llm/src/pii_filter.rs:52-63 | at most one detection per pattern, recording the first match of each pattern that matches and nothing else |
| PiiFilter.DetectionsRanked | crates/spectral-llm/src/pii_filter.rs:52-63 | detections come in pattern order |
| PiiFilter.Detect | crates/spectral-llm/src/pii_filter.rs:52-63 | the detection loop pushes exactly the detections of the specification |
| PiiFilter.DefaultDetections | crates/spectral-llm/src/pii_filter.rs:260-288 | with the default patterns there are at most 5 detections, one per matching type, in pattern order |
| PiiFilter.InsertByStart | crates/spectral-llm/src/pii_filter.rs:110-111 | inserting a detection into the sorted list keeps every detection and adds it once |
| PiiFilter.SortByStartDesc | crates/spectral-llm/src/pii_filter.rs:110-111 | sorting by start is a permutation of the detections |
| PiiFilter.InsertKeepsOrder | crates/spectral-llm/src/pii_filter.rs:110-111 | insertion keeps the list in descending start order |
| PiiFilter.SortIsSorted | crates/spectral-llm/src/pii_filter.rs:110-111 | the sort yields descending start order and a permutation of the input |
| PiiFilter.SortKeepsSeparated | crates/spectral-llm/src/pii_filter.rs:110-111 | sorting keeps non-overlapping detections non-overlapping |
| PiiFilter.ReplaceRange | crates/spectral-llm/src/pii_filter.rs:114-116 | replacing a range changes the length by the replacement's length minus the range's |
| PiiFilter.SpliceOriginal | crates/spectral-llm/src/pii_filter.rs:107-140 | splicing each span's own text back in gives the original text |
| PiiFilter.Placeholders | crates/spectral-llm/src/pii_filter.rs:113 | each detection is given the placeholder `[REDACTED_<TYPE>]` of its type |
| PiiFilter.Tokens | crates/spectral-llm/src/pii_filter.rs:131 | the i-th replacement is the token `__PII_TOKEN_i__` |
| PiiFilter.TokenMapSnoc | crates/spectral-llm/src/pii_filter.rs:130-134 | each step of the tokenization loop adds the token of step i mapped to the original value |
| PiiFilter.ApplyRedaction | crates/spectral-llm/src/pii_filter.rs:107-119 | redaction replaces each span by its placeholder, working from the highest start down |
| PiiFilter.ApplyTokenization | crates/spectral-llm/src/pii_filter.rs:122-140 | tokenization gives the i-th span in descending-start order the i-th token and maps each token to its original value |
| PiiFilter.Detokenize | crates/spectral-llm/src/pii_filter.rs:144-150 | detokenization replaces every occurrence of each token by its value, in the map's iteration order |
| PiiFilter.DetectionsSeparated | crates/spectral-llm/src/pii_filter.rs:52-63 | when the patterns' matches do not overlap, neither do the detections |
| PiiFilter.SortedDetectionsDisjoint | crates/spectral-llm/src/pii_filter.rs:107-140 | sorted non-overlapping detections lie disjointly inside the text, highest first |
| PiiFilter.Filter | crates/spectral-llm/src/pii_filter.rs:48-103 | no detection gives the text unchanged with no token map under every strategy; otherwise Block gives PiiBlocked naming the types, Redact the redacted text, Tokenize the tokenized text and its map |
| PiiFilter.HasPiiMeaning | crates/spectral-llm/src/pii_filter.rs:168-177 | `has_pii` holds iff some pattern matched, and `pii_count` is at most 5 |
| PiiFilter.DetectionsNonEmpty | crates/spectral-llm/src/pii_filter.rs:52-63 | detections are non-empty iff some pattern matched |
| PiiRoundTrip.TokenDistinct | crates/spectral-llm/src/pii_filter.rs:131 | the first ten tokens are pairwise distinct |
| PiiRoundTrip.TokenInjective | crates/spectral-llm/src/pii_filter.rs:131 | equal tokens have equal indices |
| PiiRoundTrip.ReplaceFilled | crates/spectral-llm/src/pii_filter.rs:144-150 | replacing one token in a tokenized text restores exactly that token's value and touches nothing else |
| PiiRoundTrip.DetokenizeFills | crates/spectral-llm/src/pii_filter.rs:144-150 | detokenizing in any iteration order restores the value of every token of the map |
| PiiRoundTrip.TokenMapKeys | crates/spectral-llm/src/pii_filter.rs:122-140 | the token map's keys are exactly the tokens handed out |
| PiiRoundTrip.TokenMapEntries | crates/spectral-llm/src/pii_filter.rs:122-140 | the token map has one entry per detection, mapping its token to its original value |
| PiiRoundTrip.TokenizeRoundTrip | crates/spectral-llm/src/pii_filter.rs:122-150 | detokenize(tokenize(t)) == t when spans do not overlap, lie inside t, there are at most ten, and t holds no `_` |
| PiiRoundTrip.TokenPrefixBreaksRoundTrip | crates/spectral-llm/src/pii_filter.rs:144-150 | a text holding no whole token can still break the round trip: "__PII_TOKEN_0" followed by a detected "ab" comes back altered |
| PiiRoundTrip.FilterTokenizeRoundTrip | crates/spectral-llm/src/pii_filter.rs:48-150 | for the detections `filter` finds, the tokenize/detokenize round trip restores the text |
| Permissions.AllPermissionsListed | crates/spectral-permissions/src/lib.rs:88-133 | the 13 permissions are listed once each |
| Permissions.DisplayName | crates/spectral-permissions/src/lib.rs:136-152 | every permission has a non-empty display name |
| Permissions.DisplayNamesDistinct | crates/spectral-permissions/src/lib.rs:136-152 | display names are pairwise distinct |
| Permissions.RiskLevel | crates/spectral-permissions/src/lib.rs:176-194 | the risk lies in 0..=3: 3 exactly for UseLlmCloud and SendEmails; 2 for removal forms, auto-submission and email scanning; 0 exactly for UseLlmLocal, AutoScheduleScans and BackgroundExecution |
| Permissions.PiiAccess | crates/spectral-permissions/src/lib.rs:198-226 | the field list is empty exactly for NetworkAccess, AutoScheduleScans and BackgroundExecution, holds profile fields only, without repeats; the local scans reach four fields and only the broadest lists reach date of birth |
| Permissions.RiskiestReachEverything | crates/spectral-permissions/src/lib.rs:176-226 | a risk-3 permission reaches every profile field |
| Permissions.NewGrant | crates/spectral-permissions/src/lib.rs:257-267 | a new grant keeps permission, source and time, with use count 0, no last use and no expiry |
| Permissions.ExpiryRules | crates/spectral-permissions/src/lib.rs:271-277 | a grant without expiry never expires; one with expiry is expired exactly after that instant, and stays expired |
| Permissions.RecordUse | crates/spectral-permissions/src/lib.rs:280-283 | recording a use adds exactly 1 to the count, sets the last use and keeps every other field |
| Permissions.UseTimesCounts | crates/spectral-permissions/src/lib.rs:340-352 | n uses add n to the count and never change expiry |
| PermissionPresets.PresetName | crates/spectral-permissions/src/presets.rs:48-56 | every preset has a non-empty name |
| PermissionPresets.PresetPermissions | crates/spectral-permissions/src/presets.rs:68-112 | no preset lists a permission twice |
| PermissionPresets.MinimalExactly | crates/spectral-permissions/src/presets.rs:70-74 | Minimal grants exactly ScanBrokers and SubmitRemovalForms |
| PermissionPresets.PresetsNested | crates/spectral-permissions/src/presets.rs:137-158 | Minimal is strictly inside Balanced, which is strictly inside Maximum, with strictly growing sizes |
| PermissionPresets.MaximumGrantsAll | crates/spectral-permissions/src/presets.rs:92-110 | Maximum lists every permission, 13 in all |
| PermissionPresets.PresetExclusions | crates/spectral-permissions/src/presets.rs:192-205 | Balanced excludes UseLlmCloud and AutoSubmitRemovals and includes UseLlmLocal; Minimal has no LLM permission |
| PermissionPresets.Recommended | crates/spectral-permissions/src/presets.rs:116-131 | the recommended (and default) preset is the one allowing local but not cloud models, i.e. Balanced |
| PermissionPresets.AllPresets | crates/spectral-permissions/src/presets.rs:122-125 | `all()` returns 3 distinct presets |
| PermissionPresets.AllPresetsListed | crates/spectral-permissions/src/presets.rs:165-178 | every preset is in `all()` |
| PermissionPrompts.FromPermissionRisk | crates/spectral-permissions/src/prompts.rs:158-165 | 0, 1 and 2 map to Low, Medium and High, every value from 3 up to Critical |
| PermissionPrompts.FromRiskMonotone | crates/spectral-permissions/src/prompts.rs:158-165 | the mapping is monotone |
| PermissionPrompts.PermissionRisk | crates/spectral-permissions/src/prompts.rs:217-225 | UseLlmCloud and SendEmails are Critical, the three risk-0 permissions Low, ScanBrokers Medium |
| PermissionPrompts.DataAccess | crates/spectral-permissions/src/prompts.rs:47-56 | "No personal data access" iff the permission reaches no field; otherwise the line starts "May access: " |
| PermissionPrompts.Alternatives | crates/spectral-permissions/src/prompts.rs:119-135 | alternatives exist exactly for UseLlmCloud, the three scans and AutoSubmitRemovals; the cloud model has two |
| PermissionPrompts.CloudAlternativeIsLocal | crates/spectral-permissions/src/prompts.rs:121-124 | the first alternative to a cloud model offers a local one |
| PermissionPrompts.NewPrompt | crates/spectral-permissions/src/prompts.rs:41-71 | the prompt's risk is the permission's numeric risk, its data line and alternatives follow the rules above |
| PermissionPrompts.TitlesDistinct | crates/spectral-permissions/src/prompts.rs:43 | titles "Allow <name>?" of distinct permissions differ |
| Audit.AuditEntry.InvolvesPermission | crates/spectral-permissions/src/audit.rs:146-159 | an entry involves p iff its event's permission is p, for all four event kinds |
| Audit.Involving | crates/spectral-permissions/src/audit.rs:95-100 | the query keeps exactly the log's entries involving p |
| Audit.InvolvingAppend | crates/spectral-permissions/src/audit.rs:95-100 | the query keeps log order: appending an entry appends it to the result iff it involves p |
| Audit.Recent | crates/spectral-permissions/src/audit.rs:104-107 | the last min(n, len) entries, in order |
| Audit.AuditLogger.constructor | crates/spectral-permissions/src/audit.rs:22-26 | a new logger holds no entry |
| Audit.AuditLogger.LogPermissionCheck | crates/spectral-permissions/src/audit.rs:29-44 | appends exactly one check entry at the end and keeps earlier entries |
| Audit.AuditLogger.LogPermissionGranted | crates/spectral-permissions/src/audit.rs:46-58 | appends exactly one grant entry at the end |
| Audit.AuditLogger.LogPermissionDenied | crates/spectral-permissions/src/audit.rs:60-72 | appends exactly one denial entry at the end |
| Audit.AuditLogger.LogPermissionRevoked | crates/spectral-permissions/src/audit.rs:74-86 | appends exactly one revocation entry at the end |
| Audit.AuditLogger.EntriesForPermission | crates/spectral-permissions/src/audit.rs:95-100 | exactly the entries involving p |
| Audit.AuditLogger.RecentEntries | crates/spectral-permissions/src/audit.rs:104-107 | the last min(n, len) entries, in order |
| Audit.AuditLogger.Clear | crates/spectral-permissions/src/audit.rs:110-112 | leaves no entries |
| PermissionManagement.GrantEntries | crates/spectral-permissions/src/manager.rs:189-197 | applying a preset logs one grant entry per permission |
| PermissionManagement.GrantingEffect | crates/spectral-permissions/src/manager.rs:189-197 | granting a list grants each listed permission afresh and leaves every other grant unchanged |
| PermissionManagement.GrantingSnoc | crates/spectral-permissions/src/manager.rs:189-197 | one loop step grants one more permission and logs one more entry |
| PermissionManagement.PermissionManager.constructor | crates/spectral-permissions/src/manager.rs:28-36 | a new manager has no grant, no denial and an empty log |
| PermissionManagement.PermissionManager.WithPreset | crates/spectral-permissions/src/manager.rs:38-45 | a preset manager grants exactly the preset, from the first-run wizard |
| PermissionManagement.PermissionManager.Request | crates/spectral-permissions/src/manager.rs:72-122 | a denied permission gives Err and leaves grants alone; a live grant gives Ok and adds exactly 1 use; an expired grant is removed and gives Err; a missing one gives Err; each call logs exactly one entry |
| PermissionManagement.PermissionManager.Grant | crates/spectral-permissions/src/manager.rs:125-144 | p gets a fresh grant, is no longer denied, nothing else changes, one entry is logged, and no permission is both granted and denied |
| PermissionManagement.PermissionManager.Deny | crates/spectral-permissions/src/manager.rs:147-166 | p is denied and not granted, nothing else changes, one entry is logged |
| PermissionManagement.PermissionManager.Revoke | crates/spectral-permissions/src/manager.rs:169-186 | p is neither granted nor denied, nothing else changes, one entry is logged |
| PermissionManagement.PermissionManager.ApplyPreset | crates/spectral-permissions/src/manager.rs:189-197 | every preset permission is granted afresh and no longer denied; other grants are unchanged; one entry per permission |
| PermissionManagement.PermissionManager.GrantAll | crates/spectral-permissions/src/manager.rs:189-197 | the preset loop, stated for any list of permissions |
| PermissionManagement.PermissionManager.GrantedPermissions | crates/spectral-permissions/src/manager.rs:200-208 | lists exactly the unexpired grants, without repeats |
| PermissionManagement.PermissionManager.DeniedPermissions | crates/spectral-permissions/src/manager.rs:211-215 | lists exactly the denials, once each |
| PermissionManagement.PermissionManager.UsageStatsOf | crates/spectral-permissions/src/manager.rs:230-239 | statistics exist iff p has a grant and report its use count and last use |
| PermissionManagement.UsageTracking | crates/spectral-permissions/src/manager.rs:327-349 | a grant then two requests: both allowed, two uses counted |
| PermissionManagement.ListPermissions | crates/spectral-permissions/src/manager.rs:361-375 | two grants and a denial list exactly those |
| PermissionManagement.GrantOverridesDeny | crates/spectral-permissions/src/manager.rs:316-325 | a grant after a denial leaves p granted and not denied |
| Capabilities.DisplayNamesDistinct | crates/spectral-core/src/capabilities.rs:43-59 | no two features share a display name |
| Capabilities.RequiresLlm | crates/spectral-core/src/capabilities.rs:94-96 | true exactly for LlmChat, LlmGuidedBrowsing, LlmFormDetection and LlmContentExtraction |
| Capabilities.AllFeatures | crates/spectral-core/src/capabilities.rs:159-174 | 12 distinct features |
| Capabilities.AllFeaturesListed | crates/spectral-core/src/capabilities.rs:159-174 | every feature is listed |
| Capabilities.AnyEnabled | crates/spectral-core/src/capabilities.rs:178-182 | true iff some listed feature is enabled |
| Capabilities.LlmListMeetsSet | crates/spectral-core/src/capabilities.rs:83-92 | some LLM feature of the list is enabled iff the enabled set meets the LLM set |
| Capabilities.CapabilityRegistry.constructor | crates/spectral-core/src/capabilities.rs:122-129 | a new registry enables exactly ManualScanning and EncryptedVault, and no LLM feature |
| Capabilities.CapabilityRegistry.EnableFeature | crates/spectral-core/src/capabilities.rs:140-143 | adds exactly f (so enabling twice equals once); f is available |
| Capabilities.CapabilityRegistry.DisableFeature | crates/spectral-core/src/capabilities.rs:146-149 | removes exactly f (so disabling twice equals once); f is not available |
| Capabilities.CapabilityRegistry.EnabledFeatures | crates/spectral-core/src/capabilities.rs:153-156 | lists exactly the enabled features, once each |
| Capabilities.CapabilityRegistry.HasLlmCapabilities | crates/spectral-core/src/capabilities.rs:178-182 | holds iff one of the four LLM features is enabled |
| Capabilities.CapabilityRegistry.EnableLlmFeatures | crates/spectral-core/src/capabilities.rs:185-189 | adds exactly the four LLM features |
| Capabilities.CapabilityRegistry.DisableLlmFeatures | crates/spectral-core/src/capabilities.rs:192-196 | removes exactly the four LLM features |
| Capabilities.LlmToggle | crates/spectral-core/src/capabilities.rs:229-241 | enabling then disabling the LLM features toggles the capability and keeps the defaults |
| Registry.KeyedBy | crates/spectral-broker/src/registry.rs:48-66 | the loaded list keyed by id: every key is the id of its definition and every loaded id is a key |
| Registry.KeyedByKeepsLast | crates/spectral-broker/src/registry.rs:56-62 | a later definition with the same id overwrites an earlier one |
| Registry.Categories | crates/spectral-broker/src/registry.rs:181-194 | each cached broker's category, by id |
| Registry.CategoryTally | crates/spectral-broker/src/registry.rs:181-194 | the tally has a key exactly for categories with brokers, counting them |
| Registry.SelectFrom | crates/spectral-broker/src/registry.rs:99-144 | the filtering loop returns exactly the cached definitions that pass, once each |
| Registry.TallyCategories | crates/spectral-broker/src/registry.rs:181-194 | the counting loop returns the tally |
| Registry.BrokerRegistry.constructor | crates/spectral-broker/src/registry.rs:26-30 | a new registry is empty |
| Registry.BrokerRegistry.Reload | crates/spectral-broker/src/registry.rs:48-66 | a failed load changes nothing and returns its error; otherwise the cache is exactly the loaded list keyed by id |
| Registry.BrokerRegistry.Get | crates/spectral-broker/src/registry.rs:72-84 | returns the cached definition of the id, or NotFound naming it |
| Registry.BrokerRegistry.GetAll | crates/spectral-broker/src/registry.rs:88-95 | exactly the cached definitions, `count` of them |
| Registry.BrokerRegistry.GetByCategory | crates/spectral-broker/src/registry.rs:99-110 | exactly the cached definitions of the category, each once, as many as brokers of the category |
| Registry.BrokerRegistry.GetByDifficulty | crates/spectral-broker/src/registry.rs:114-125 | exactly the cached definitions of the difficulty, each once, as many as brokers of the difficulty |
| Registry.BrokerRegistry.GetByCategoryAndDifficulty | crates/spectral-broker/src/registry.rs:129-144 | exactly the definitions in both single-key queries, each once, as many as brokers with both |
| Registry.BrokerRegistry.GetAllIds | crates/spectral-broker/src/registry.rs:170-177 | exactly the cached ids, once each, `count` of them |
| Registry.BrokerRegistry.CountByCategory | crates/spectral-broker/src/registry.rs:181-194 | a key exactly for the categories with brokers, each counting them, the counts summing to `count` |
| Registry.BrokerRegistry.Insert | crates/spectral-broker/src/registry.rs:199-213 | an invalid definition returns its validation error and changes nothing; a valid one is filed under its id, replacing any earlier one; count grows by at most 1 |
| Registry.BrokerRegistry.Remove | crates/spectral-broker/src/registry.rs:219-232 | returns whether the id was present; afterwards it is absent and nothing else changed |
| Registry.InsertGetRemove | crates/spectral-broker/src/registry.rs:343-363 | insert then get returns the definition; the first remove returns true, the second false |
| Histograms.HistogramMeaning | crates/spectral-broker/src/registry.rs:181-194 | a value has a count iff some key maps to it, and the count is the number of such keys |
| Histograms.HistogramAdd | crates/spectral-broker/src/registry.rs:187-191 | counting one more key increments its value's count, starting from 0 |
| Histograms.HistogramSum | crates/spectral-broker/src/registry.rs:181-194 | the counts sum to the number of keys counted |
| PrivacyTypes.FromPrivacyLevel | crates/spectral-privacy/src/types.rs:37-66 | Paranoid allows nothing, LocalPrivacy everything but cloud LLMs, Balanced and Custom everything |
| PrivacyTypes.LevelsNested | crates/spectral-privacy/src/types.rs:37-72 | each level allows at least what the stricter one does, strictly more from LocalPrivacy to Balanced; Custom and the default equal Balanced |
| PrivacyTypes.CloudOnlyWhenBalanced | crates/spectral-privacy/src/types.rs:37-66 | cloud LLMs are allowed iff the level is Balanced or Custom; local LLMs iff it is not Paranoid |
| PrivacyTypes.AllowedIffNoReason | crates/spectral-privacy/src/types.rs:106-117 | a result is allowed iff it has no reason; a denied result is Denied with its reason |
| Findings.ParseStatusText | crates/spectral-db/src/findings.rs:49-70 | parsing a status's text gives the status back |
| Findings.ParseStatusCases | crates/spectral-db/src/findings.rs:62-70 | "Confirmed" and "Rejected" parse to themselves and every other text to PendingVerification |
| Findings.DecodeFlagInt | crates/spectral-db/src/findings.rs:136-140 | the stored 0/1 flag reads back as the boolean written |
| Findings.CreateFinding | crates/spectral-db/src/findings.rs:77-123 | a new finding is PendingVerification, unverified, without removal attempt, discovered now, with the given data |
| Findings.CreateThenRead | crates/spectral-db/src/findings.rs:77-123 | with round-tripping codecs, reading the stored row gives the created finding back |
| Findings.UnreadableRow | crates/spectral-db/src/findings.rs:226-237 | unreadable data becomes Null, an unreadable discovery time becomes now, an unreadable verification time becomes none |
| Findings.UpdateVerificationStatus | crates/spectral-db/src/findings.rs:125-150 | only the status, verification time and verifying flag of the row change |
| Findings.StatusFor | crates/spectral-db/src/findings.rs:205-209 | verifying never leaves a finding pending |
| Findings.VerifyThenRead | crates/spectral-db/src/findings.rs:199-213 | after verifying, the finding reads back Confirmed iff confirmed, Rejected otherwise, verified now by the given flag, everything else unchanged |
| Findings.ParseFindingsFromRows | crates/spectral-db/src/findings.rs:215-260 | one finding per row, in order, each the row read |
| Findings.ReadBackCreated | crates/spectral-db/src/findings.rs:152-197 | rows of created findings read back as those findings |
| RemovalResult.ExactlyOneClass | crates/spectral-broker/src/removal/result.rs:40-61 | every outcome is exactly one of success, failure and needing the user |
| RemovalResult.ClassExamples | crates/spectral-broker/src/removal/result.rs:66-100 | a CAPTCHA needs the user, a submission succeeds, a failure fails |
| MailTemplates.Placeholder | crates/spectral-mail/src/templates.rs:22 | a placeholder is the key wrapped in `{{` and `}}` |
| MailTemplates.RenderTemplate | crates/spectral-mail/src/templates.rs:10-31 | the recipient is kept, the subject is the prefix and the full name (empty if absent), the body has every field then the e-mail substituted |
| MailTemplates.NoBracesNoPlaceholder | crates/spectral-mail/src/templates.rs:20-25 | a text without `{{` contains no placeholder |
| MailTemplates.BracesOpenPlaceholder | crates/spectral-mail/src/templates.rs:20-25 | every placeholder occurrence starts with `{{` |
| MailTemplates.NoPlaceholdersUnchanged | crates/spectral-mail/src/templates.rs:20-25 | a template without placeholders renders unchanged, whatever the fields and their order |
| MailTemplates.OneField | crates/spectral-mail/src/templates.rs:20-25 | with one field, the body is that placeholder replaced, then the e-mail |
| MailTemplates.EmailFromArgument | crates/spectral-mail/src/templates.rs:24-25 | with no fields, `{{email}}` becomes the e-mail argument |
| MailTemplates.EmailFieldWins | crates/spectral-mail/src/templates.rs:20-25 | an `email` profile field replaces `{{email}}` before the argument can |
| Imap.MatchesBrokerSenderMeaning | crates/spectral-mail/src/imap.rs:6-10 | a sender matches iff some broker address equals it ignoring ASCII case; never with no brokers |
| Imap.FirstFromLine | crates/spectral-mail/src/imap.rs:113-114 | a line found starts with `from:` in any case |
| Imap.FirstFromLineMeaning | crates/spectral-mail/src/imap.rs:113-125 | none is found iff no line starts with `from:`; otherwise the first such line |
| Imap.AddressOf | crates/spectral-mail/src/imap.rs:115-122 | the address is no longer than the header value |
| Imap.AsWrittenAgrees | crates/spectral-mail/src/imap.rs:117-122 | wherever the code as written does not panic it gives the intended address |
| Imap.AddressBetweenBrackets | crates/spectral-mail/src/imap.rs:116-120 | `Name <addr>` followed by anything gives `addr`, lowercased |
| Imap.AngleBracketOutOfOrder | crates/spectral-mail/src/imap.rs:117-119 | on `x> <y>` the code as written slices backwards and panics; the intended reading gives `y` |
| Imap.ExtractFromHeader | crates/spectral-mail/src/imap.rs:112-126 | the loop returns the address of the first sender line, or none; uses the intended `Imap.AddressOf` of the imap.rs row under Findings, so on `From: x> <y>` it gives `y` where the code panics |
| Imap.FromHeaderNone | crates/spectral-mail/src/imap.rs:112-126 | no address iff no line starts with `from:`; otherwise the address from the first such line, read with the intended `Imap.AddressOf` of the imap.rs row under Findings |
| Imap.Pad2 | crates/spectral-mail/src/imap.rs:137 | two digits whose value is n |
| Imap.FormatImapDateShape | crates/spectral-mail/src/imap.rs:128-138 | DD-Mon-YYYY with day in 1..30, month, year 1970 + days/365; before day 360 of the 365-day year, month*30 + day - 1 is the day of the year |
| Imap.VerifiedFromBrokers | crates/spectral-mail/src/imap.rs:97-106 | every verified sender is a known broker address, mapped to that broker's attempt |
| Imap.PollForVerifications | crates/spectral-mail/src/imap.rs:27-110 | no broker addresses gives an empty result without contacting the server; otherwise the error of the failed step or the verified senders, read with the intended `Imap.AddressOf` of the imap.rs row under Findings |
| Imap.ScanHeaders | crates/spectral-mail/src/imap.rs:97-106 | the loop over fetched headers gives the verified senders, read with the intended `Imap.AddressOf` of the imap.rs row under Findings |
| LlmCommands.VaultPool | src-tauri/src/commands/llm.rs:15-32 | a vault that is not unlocked gives VAULT_LOCKED, a database failure VAULT_ERROR with its message, success exactly otherwise |
| LlmCommands.Optional | src-tauri/src/commands/llm.rs:73-83 | an optional prompt line is present exactly when the value is, as label plus value |
| LlmCommands.BuildEmailPrompt | src-tauri/src/commands/llm.rs:68-90 | the loop builds the e-mail prompt: the lines joined by newlines |
| LlmCommands.EmailPromptShape | src-tauri/src/commands/llm.rs:68-90 | header, instructions, the given optional lines, then the three format lines |
| LlmCommands.RecipientLine | src-tauri/src/commands/llm.rs:73-75 | the prompt has a recipient line for r iff the recipient is r |
| LlmCommands.SubjectHintLine | src-tauri/src/commands/llm.rs:77-79 | the prompt has a subject-hint line for s iff the subject hint is s |
| LlmCommands.ToneLine | src-tauri/src/commands/llm.rs:81-83 | the prompt has a tone line for t iff the tone is t |
| LlmCommands.TrimStartMatches | src-tauri/src/commands/llm.rs:100-103 | the result no longer starts with the tag |
| LlmCommands.TagsExclusive | src-tauri/src/commands/llm.rs:99-101 | a line starting with `Body:` does not start with `Subject:` |
| LlmCommands.Classify | src-tauri/src/commands/llm.rs:99-109 | a line is a subject line iff it starts with `Subject:`, a body line iff with `Body:`, carrying the trimmed rest |
| LlmCommands.ClassifyAll | src-tauri/src/commands/llm.rs:98 | one class per line |
| LlmCommands.DraftResult | src-tauri/src/commands/llm.rs:112-124 | an empty trimmed body is LLM_PARSE_ERROR; otherwise the subject (`Email Draft` if empty) and the trimmed body |
| LlmCommands.ReadReply | src-tauri/src/commands/llm.rs:94-110 | the loop yields the subject and body lines of the reading function |
| LlmCommands.ParseEmailResponse | src-tauri/src/commands/llm.rs:93-125 | the method computes the parse |
| LlmCommands.ParsedDraftComplete | src-tauri/src/commands/llm.rs:112-124 | a parsed draft has a non-empty subject and a trimmed body |
| LlmCommands.SubjectFromLastSubjectLine | src-tauri/src/commands/llm.rs:99-100 | the last `Subject:` line wins |
| LlmCommands.NoSubjectLine | src-tauri/src/commands/llm.rs:94-100 | without subject lines the subject stays empty |
| LlmCommands.DefaultSubject | src-tauri/src/commands/llm.rs:112-114 | a reply without `Subject:` gets the subject `Email Draft` |
| LlmCommands.SubjectOfReply | src-tauri/src/commands/llm.rs:99-114 | the subject is the rest of the last `Subject:` line, or `Email Draft` if that is empty |
| LlmCommands.InBodyAfterBodyLine | src-tauri/src/commands/llm.rs:101-108 | body mode is on iff some line started with `Body:` |
| LlmCommands.BodyLinesHaveSource | src-tauri/src/commands/llm.rs:101-109 | there are no more body lines than lines, and each comes from a line of the reply |
| LlmCommands.NoBodyTagRefused | src-tauri/src/commands/llm.rs:101-122 | a reply with no `Body:` line is refused with LLM_PARSE_ERROR |
| LlmCommands.NoBodyLine | src-tauri/src/commands/llm.rs:101-109 | without body lines nothing is collected |
| LlmCommands.SubjectTaggedLine | src-tauri/src/commands/llm.rs:99-100 | `Subject: s` is read as subject s |
| LlmCommands.BodyTaggedLine | src-tauri/src/commands/llm.rs:101-106 | `Body: b` is read as a body starting with b |
| LlmCommands.RequestedFormatParses | src-tauri/src/commands/llm.rs:85-124 | a reply in the requested two-line format parses to its subject and body |
| LlmCommands.FormattedReplyLines | src-tauri/src/commands/llm.rs:98-109 | the requested format reads as one subject line and one body line |
| LlmCommands.DraftEmail | src-tauri/src/commands/llm.rs:133-169 | vault errors pass through, an LLM failure is LLM_ERROR with its message, otherwise the parsed reply with stub metadata |
| LlmCommands.DraftFromFormattedReply | src-tauri/src/commands/llm.rs:133-169 | a reply in the requested format gives a draft with its subject and body |
| LlmCommands.RequiredMarked | src-tauri/src/commands/llm.rs:228-236 | a required field's line ends in ` (required)`, other lines are `- name (type): label` |
| LlmCommands.FieldLines | src-tauri/src/commands/llm.rs:227-237 | one line per field, in order |
| LlmCommands.BuildFormPrompt | src-tauri/src/commands/llm.rs:219-244 | the loop builds the form prompt |
| LlmCommands.FieldLinesInOrder | src-tauri/src/commands/llm.rs:219-244 | the field lines follow the header and the optional context, in field order, before three closing lines |
| LlmCommands.IsDeclared | src-tauri/src/commands/llm.rs:267 | true iff some field has the name |
| LlmCommands.AnswersOf | src-tauri/src/commands/llm.rs:255-264 | one reading per line |
| LlmCommands.ParseForm | src-tauri/src/commands/llm.rs:273-280 | no declared answer is LLM_PARSE_ERROR; otherwise the answers recorded |
| LlmCommands.ReadFormValues | src-tauri/src/commands/llm.rs:253-271 | the loop records the answers |
| LlmCommands.RecordLine | src-tauri/src/commands/llm.rs:256-270 | one line records its answer if its field is declared |
| LlmCommands.ReadAnswersSnoc | src-tauri/src/commands/llm.rs:255-271 | reading one more line records that line's answer |
| LlmCommands.ParseFormResponse | src-tauri/src/commands/llm.rs:247-281 | the method computes the parse |
| LlmCommands.AnsweredFields | src-tauri/src/commands/llm.rs:262-270 | a name is filled iff it is declared and some line answers it |
| LlmCommands.LastAnswerWins | src-tauri/src/commands/llm.rs:268 | a name's value is the one on its last answering line |
| LlmCommands.AnswerLineTrim | src-tauri/src/commands/llm.rs:256 | trimming a `name: value` line leaves it as written (or `name:` for an empty value) |
| LlmCommands.AnswerLineRoundTrip | src-tauri/src/commands/llm.rs:262-264 | reading a `name: value` line gives the pair back |
| LlmCommands.RecordsAnswers | src-tauri/src/commands/llm.rs:255-271 | given answers for declared fields are all recorded, last one winning |
| LlmCommands.AnswerLinesAreLines | src-tauri/src/commands/llm.rs:255 | an answer line is non-empty and has no line break |
| LlmCommands.AnswersOfAnswerLines | src-tauri/src/commands/llm.rs:255-264 | joined answer lines read back as those answers |
| LlmCommands.RequestedAnswersParse | src-tauri/src/commands/llm.rs:239-281 | a reply in the requested `field_name: value` format parses to its answers |
| LlmCommands.ParsedAnswers | src-tauri/src/commands/llm.rs:247-281 | a reply reading as answers for declared fields parses to those answers |
| LlmCommands.OnlyDeclaredFields | src-tauri/src/commands/llm.rs:267-269 | only declared fields are filled, at most one value per field |
| LlmCommands.FillForm | src-tauri/src/commands/llm.rs:289-321 | vault errors pass through, an LLM failure is LLM_ERROR, otherwise the parsed values and their count |
| LlmCommands.FilledCountBounded | src-tauri/src/commands/llm.rs:310-319 | a filled form fills between 1 and as many fields as were declared, all of them declared |
| RemovalWorker.BackoffDelay | src-tauri/src/removal_worker.rs:84-108 | 30 s after the first failure, 120 s after the second, 300 s after any later one |
| RemovalWorker.Pauses | src-tauri/src/removal_worker.rs:90-116 | one pause per failed attempt, the k-th being the delay after attempt k |
| RemovalWorker.PausesGrow | src-tauri/src/removal_worker.rs:71-108 | the pauses never shrink and stay between 30 and 300 s |
| RemovalWorker.TotalWaitOf | src-tauri/src/removal_worker.rs:84-116 | the total wait is 0, 30, 150, then 150 + 300 per further pause |
| RemovalWorker.RetryWithBackoff | src-tauri/src/removal_worker.rs:79-121 | stops at the first success or after max_attempts calls; every earlier call failed; a failure is the last call's error; the pauses are the backoff delays |
| RemovalWorker.FirstOk | src-tauri/src/removal_worker.rs:90-92 | the first successful attempt, or none if all of them fail |
| RemovalWorker.RetryAgreesWithFirstOk | src-tauri/src/removal_worker.rs:79-121 | the retry succeeds iff some attempt within the limit does, after exactly that many calls |
| RemovalWorker.SucceedsOnSecondAttempt | src-tauri/src/removal_worker.rs:733-758 | a task failing once then succeeding gives `Success` after 2 calls and one 30 s pause |
| RemovalWorker.FailsAfterMaxAttempts | src-tauri/src/removal_worker.rs:761-781 | a task always failing with 3 attempts gives its error after 3 calls and pauses of 30 and 120 s |
| RemovalWorker.MapFieldsForSubmission | src-tauri/src/removal_worker.rs:31-69 | the first missing or undecryptable field of email, first name, last name is the error; otherwise exactly the four fields with the listing URL and the decrypted values |
| RemovalWorker.UpdateFor | src-tauri/src/removal_worker.rs:580-644 | no completion time; a submission time, now, exactly when Submitted; an error message exactly when not Submitted |
| RemovalWorker.StatusByClass | src-tauri/src/removal_worker.rs:580-644 | Submitted for success or e-mail verification, Pending for a CAPTCHA, Failed for failures and account creation; the message is the CAPTCHA marker with its URL, the failure reason, or the account-creation text |
| RemovalWorker.PendingMeansCaptcha | src-tauri/src/removal_worker.rs:596-605 | a Pending update carries `CAPTCHA_REQUIRED:` followed by the CAPTCHA URL |
| LlmRouting.DefaultPreference | crates/spectral-llm/src/router.rs:206-212 | the default prefers local providers and allows the cloud for general tasks |
| LlmRouting.Capabilities | crates/spectral-llm/src/router.rs:142-152 | one capability record per provider, in order |
| LlmRouting.FirstWhere | crates/spectral-llm/src/router.rs:117-135 | the first provider with the given locality, or none if there is none |
| LlmRouting.LastBest | crates/spectral-llm/src/router.rs:142-153 | a provider whose (local, context, lower cost) key is maximal, the last of the equal ones |
| LlmRouting.Select | crates/spectral-llm/src/router.rs:109-156 | a chosen index is a provider; failure is NoProviderAvailable |
| LlmRouting.NoProviders | crates/spectral-llm/src/router.rs:110-112 | with no providers every preference fails with NoProviderAvailable |
| LlmRouting.LocalOnlySelection | crates/spectral-llm/src/router.rs:115-121 | LocalOnly succeeds iff some provider is local, choosing the first local one |
| LlmRouting.PreferLocalSelection | crates/spectral-llm/src/router.rs:122-139 | with a local provider PreferLocal picks as LocalOnly; without one it picks the first provider iff General is among the allowed tasks |
| LlmRouting.BestAvailableSelection | crates/spectral-llm/src/router.rs:140-154 | BestAvailable picks a maximal key, the last among ties, and a local provider whenever one exists |
| LlmRouting.CheaperWins | crates/spectral-llm/src/router.rs:146-151 | between otherwise equal providers the cheaper one is picked in either order |
| LlmRouting.Contents | crates/spectral-llm/src/router.rs:166-168 | the message contents, in order |
| LlmRouting.ExtractText | crates/spectral-llm/src/router.rs:159-171 | the loop joins the system prompt and the message contents with newlines |
| LlmRouting.RequestTextExamples | crates/spectral-llm/src/router.rs:159-171 | a one-message request gives its content; with a system prompt, the prompt, a newline, the content |
| LlmRouting.ReplaceLast | crates/spectral-llm/src/router.rs:67-70 | only the last message's content changes |
| LlmRouting.Dispatch | crates/spectral-llm/src/router.rs:57-84 | no selectable provider is NoProviderAvailable; a routed request goes to the selected provider; the filter's demands on the PII matches apply only when that provider is a cloud one |
| LlmRouting.LocalGetsRequestUnchanged | crates/spectral-llm/src/router.rs:61-62 | a local provider gets the request unchanged and no token map, whatever the PII matches |
| LlmRouting.CloudGetsLastMessageFiltered | crates/spectral-llm/src/router.rs:63-73 | a cloud provider gets the request with the filtered text in the last message, and the filter's token map |
| LlmRouting.BlockRefusesCloud | crates/spectral-llm/src/router.rs:64 | with the Block strategy, text with PII is never sent to a cloud provider |
| LlmRouting.NoPiiUnfiltered | crates/spectral-llm/src/router.rs:64 | text without PII passes the filter unchanged, with no token map |
| LlmRouting.CloudRequestRepeatsPrompt | crates/spectral-llm/src/router.rs:63-70 | a cloud provider's last message holds the system prompt and the content joined |
| LlmRouting.LlmRouter.constructor | crates/spectral-llm/src/router.rs:24-30 | no providers, the tokenizing strategy, the given preference |
| LlmRouting.LlmRouter.AddProvider | crates/spectral-llm/src/router.rs:33-35 | appends the provider; nothing else changes |
| LlmRouting.LlmRouter.SetFilterStrategy | crates/spectral-llm/src/router.rs:38-41 | sets the strategy; nothing else changes |
| LlmRouting.LlmRouter.SetPreference | crates/spectral-llm/src/router.rs:49-51 | sets the preference; nothing else changes |
| LlmRouting.LlmRouter.AllCapabilities | crates/spectral-llm/src/router.rs:181-186 | each provider's id and capabilities, in order |
| LlmRouting.LlmRouter.Route | crates/spectral-llm/src/router.rs:57-84 | routes the request with the router's providers, preference and strategy; a locally routed request is accepted whatever its PII matches |
| LlmRouting.RoutingScenarios | crates/spectral-llm/src/router.rs:290-337 | with a cloud and a local provider, PreferLocal and BestAvailable pick the local one; with none, NoProviderAvailable |
| Scheduler.IsJobDue | crates/spectral-scheduler/src/scheduler.rs:6-13 | due iff both timestamps parse and the next run is not after now |
| Scheduler.NextRunTimestamp | crates/spectral-scheduler/src/scheduler.rs:16-21 | the text of now plus the interval in whole days, or the `DateTime + TimeDelta` overflow panic exactly when that instant lies past chrono's last representable instant (a parameter) |
| Scheduler.LargeIntervalPanics | crates/spectral-scheduler/src/scheduler.rs:16-21 | the largest `u32` interval panics from any clock reading within `u32::MAX` days of chrono's last instant |
| Scheduler.NextRunDue | crates/spectral-scheduler/src/scheduler.rs:16-38 | while the sum stays within chrono's range, the next run is computed and reads back as now plus the interval in days; it is due at once iff the interval is 0; a run an hour ago is due, one an hour ahead is not |
| Scheduler.UnparsableNeverDue | crates/spectral-scheduler/src/scheduler.rs:9-12 | a timestamp that does not parse makes the job not due |
| RateLimiting.CheckAccess | crates/spectral-browser/src/engine.rs:28-38 | refused with RateLimitExceeded(domain), leaving the map, iff the domain was seen less than the delay ago; otherwise the domain's time becomes now |
| RateLimiting.AccessRules | crates/spectral-browser/src/engine.rs:28-38 | a new domain is always let through; other domains are untouched; right after an access the domain is refused until the delay has passed |
| RateLimiting.RateLimiter.constructor | crates/spectral-browser/src/engine.rs:20-25 | no domain seen, the given delay |
| RateLimiting.RateLimiter.CheckAndUpdate | crates/spectral-browser/src/engine.rs:28-38 | result and new map are those of the access check on the old map |
| RateLimiting.LimiterScenarios | crates/spectral-browser/src/engine.rs:191-213 | a second access at once is refused, one after the delay is allowed, and different domains do not limit each other |
| AppStates.VaultDirAsWritten | src-tauri/src/state.rs:50-60 | panics unless the id is non-empty and has no `/`, `\` or `..`; otherwise the vaults directory joined with the id, which for `.` is the vaults directory itself |
| AppStates.VaultDbPathAsWritten | src-tauri/src/state.rs:63-65 | as written: an error exactly when the id fails the checks; the vaults directory plus `vault.db` for `.`, otherwise the id's directory plus `vault.db` |
| AppStates.VaultMetadataPathAsWritten | src-tauri/src/state.rs:68-70 | as written: an error exactly when the id fails the checks; the vaults directory plus `metadata.json` for `.`, otherwise the id's directory plus `metadata.json` |
| AppStates.DotIdCollides | src-tauri/src/state.rs:50-65 | as written, the database of vault `.` is the directory of vault `vault.db` |
| AppStates.VaultDir | src-tauri/src/state.rs:50-60 | as intended: also refuses `.`; every accepted id gives the vaults directory plus that id, and on every other id it is the code as written |
| AppStates.VaultsApart | src-tauri/src/state.rs:50-70 | with `.` refused, distinct ids have distinct directories and no vault file is another vault's directory |
| AppStates.VaultDbPath | src-tauri/src/state.rs:63-65 | the corrected vault directory (state.rs row under Findings) joined with `vault.db`: an error exactly where the corrected `VaultDir` refuses the id, and the code as written on every id but `.` |
| AppStates.VaultMetadataPath | src-tauri/src/state.rs:68-70 | the corrected vault directory (state.rs row under Findings) joined with `metadata.json`: an error exactly where the corrected `VaultDir` refuses the id, and the code as written on every id but `.` |
| AppStates.VaultFilesTogether | src-tauri/src/state.rs:50-70 | for an accepted id, both files sit in the vault's own directory one level below the vaults directory, and differ |
| AppStates.RejectedIds | src-tauri/src/state.rs:165-183 | `../../../etc/passwd` and `vault/subdir` panic for separators, the empty id for emptiness |
| AppStates.AcceptedId | src-tauri/src/state.rs:129-133 | `test-vault-id` gives the vaults directory joined with it |
| AppStates.AppState.constructor | src-tauri/src/state.rs:31-47 | the given vaults directory and no unlocked vault |
| AppStates.AppState.GetVault | src-tauri/src/state.rs:102-108 | a vault is returned iff it is unlocked |
| AppStates.AppState.InsertVault | src-tauri/src/state.rs:86-91 | the vault becomes unlocked under its id, replacing any earlier one; other ids are untouched |
| AppStates.AppState.RemoveVault | src-tauri/src/state.rs:94-99 | returns the vault that was unlocked, if any; afterwards it is locked; other ids are untouched |
| AppStates.UnlockThenLock | src-tauri/src/state.rs:157-162 | a new state has the vault locked; after insertion it is returned; removal returns it and locks it |
| ProfileCommands.SplitAddress | src-tauri/src/commands/profile.rs:149-160 | no address gives an empty first line; a one-line address is kept whole; neither line has a line break |
| ProfileCommands.AddressRoundTrip | src-tauri/src/commands/profile.rs:57-61 | splitting the joined address gives both lines back |
| ProfileCommands.SecondLineTruncated | src-tauri/src/commands/profile.rs:155-157 | a second line with a line break comes back cut at that break |
| ProfileCommands.FullNameOfTrimmedNames | src-tauri/src/commands/profile.rs:322 | the full name is first and last name joined by a space |
| ProfileCommands.FullNameWithoutLast | src-tauri/src/commands/profile.rs:316-322 | with no last name the full name is the first name |
| ProfileCommands.FullNameWithoutFirst | src-tauri/src/commands/profile.rs:310-322 | with no first name it is the last name; with neither, empty |
| ProfileCommands.LiftSpectral | src-tauri/src/commands/profile.rs:24 | a core error becomes the command error made from it |
| ProfileCommands.LiftVault | src-tauri/src/commands/profile.rs:35 | a vault error becomes the command error made from it |
| ProfileCommands.LookupVault | src-tauri/src/commands/profile.rs:27-32 | the unlocked vault, or VAULT_NOT_UNLOCKED |
| ProfileCommands.LoadProfile | src-tauri/src/commands/profile.rs:113 | the stored profile, or not found |
| ProfileCommands.ProfileCreate | src-tauri/src/commands/profile.rs:16-88 | invalid input is refused with its validation error before anything else; valid input is created |
| ProfileCommands.CreateValidated | src-tauri/src/commands/profile.rs:27-88 | a locked vault is VAULT_NOT_UNLOCKED; on success exactly one profile is saved, created and updated now, and its id returned |
| ProfileCommands.ProfileGet | src-tauri/src/commands/profile.rs:94-195 | a locked vault is VAULT_NOT_UNLOCKED, a bad id its validation error; a result is a stored profile with the asked id |
| ProfileCommands.ProfileUpdate | src-tauri/src/commands/profile.rs:201-277 | invalid input is refused with its validation error; valid input is applied |
| ProfileCommands.UpdateValidated | src-tauri/src/commands/profile.rs:212-277 | a locked vault is VAULT_NOT_UNLOCKED; on success the existing profile alone is saved again under its id |
| ProfileCommands.ReadStored | src-tauri/src/commands/profile.rs:44-65 | with round-tripping encryption, reading the stored fields gives the input back |
| ProfileCommands.CreateThenGet | src-tauri/src/commands/profile.rs:16-195 | getting a created profile echoes the input and its timestamps |
| ProfileCommands.UpdateThenGet | src-tauri/src/commands/profile.rs:94-277 | getting an updated profile echoes the new input |
| ProfileCommands.UpdateKeepsOtherFields | src-tauri/src/commands/profile.rs:224-257 | an update changes only the input's fields and the update time |
| ProfileCommands.ProfileList | src-tauri/src/commands/profile.rs:283-342 | a locked vault is VAULT_NOT_UNLOCKED; otherwise one summary per listed id in order, or the first failure |
| ProfileCommands.Summarize | src-tauri/src/commands/profile.rs:304-341 | the loop returns one summary per id, or the first id that fails |
| ProfileCommands.ProfileCompleteness | src-tauri/src/commands/profile.rs:348-375 | a locked vault is VAULT_NOT_UNLOCKED, no profile NO_PROFILE; otherwise the first profile's score |
| Discovery.LastIndexOf | crates/spectral-discovery/src/filesystem.rs:130 | the position of the last occurrence of the character |
| Discovery.Extension | crates/spectral-discovery/src/filesystem.rs:130 | an extension belongs to a file name and has no dot |
| Discovery.ScannableMeaning | crates/spectral-discovery/src/filesystem.rs:126-136 | a file `stem.ext` is scannable iff the lowercased extension is txt, csv, json, md or log |
| Discovery.NoExtensionNotScannable | crates/spectral-discovery/src/filesystem.rs:129-136 | a name without an extension (dot files included) is not scannable |
| Discovery.MatchLabels | crates/spectral-discovery/src/filesystem.rs:98-116 | only an SSN is critical, the rest medium; descriptions are distinct |
| Discovery.FoundInMeaning | crates/spectral-discovery/src/filesystem.rs:67-81 | exactly the detected kinds, in the order email, phone, SSN, without repetition |
| Discovery.FindAll | crates/spectral-discovery/src/filesystem.rs:67-81 | the pushes build that list |
| Discovery.ScanFileRules | crates/spectral-discovery/src/filesystem.rs:139-182 | a path that is not scannable gives nothing whatever is on disk; a result means a readable file within 100 MiB with some match, and lists its matches |
| LlmProvider.UserMessage | crates/spectral-llm/src/provider.rs:140-146 | role User, content kept |
| LlmProvider.AssistantMessage | crates/spectral-llm/src/provider.rs:149-155 | role Assistant, content kept |
| LlmProvider.SystemMessage | crates/spectral-llm/src/provider.rs:158-164 | role System, content kept |
| LlmProvider.ConstructorsDistinct | crates/spectral-llm/src/provider.rs:139-163 | the three constructors give three different roles |
| LlmProvider.NewRequest | crates/spectral-llm/src/provider.rs:87-96 | one user message with the content; no options and no stop sequences |
| LlmProvider.WithMaxTokens | crates/spectral-llm/src/provider.rs:100-104 | sets only the token limit |
| LlmProvider.WithTemperature | crates/spectral-llm/src/provider.rs:107-111 | sets only the temperature |
| LlmProvider.WithSystemPrompt | crates/spectral-llm/src/provider.rs:114-118 | sets only the system prompt |
| LlmProvider.WithStopSequence | crates/spectral-llm/src/provider.rs:121-125 | appends the stop sequence, keeping the earlier ones and everything else |
| LlmProvider.SettersCommute | crates/spectral-llm/src/provider.rs:99-118 | the three setters can be applied in any order |
| LlmProvider.BuilderChain | crates/spectral-llm/src/provider.rs:232-247 | a chain of builders gives a request with each option set |
| LlmProvider.TotalTokens | crates/spectral-llm/src/provider.rs:207-209 | input plus output tokens, wrapping past 2^32 |
| ProviderRoles.RoleNames | crates/spectral-llm/src/providers/common.rs:27-45 | the standard names are distinct; Gemini names are never `assistant` or `system` and tell only the assistant apart; both name User `user` |
| CommandErrors.New | src-tauri/src/error.rs:22-28 | keeps code and message, no details |
| CommandErrors.WithDetails | src-tauri/src/error.rs:31-41 | keeps code, message and details |
| CommandErrors.VaultConversions | src-tauri/src/error.rs:45-81 | Locked is VAULT_LOCKED, InvalidPassword INVALID_PASSWORD with `Invalid password`; only VaultNotFound carries details, its path |
| CommandErrors.FromIo | src-tauri/src/error.rs:84-88 | FILESYSTEM_ERROR with `Filesystem error: ` before the error text |
| CommandErrors.SpectralKind | src-tauri/src/error.rs:91-121 | each application error has one of the listed codes |
| CommandErrors.FromSpectral | src-tauri/src/error.rs:91-121 | application errors carry no details |
| CommandErrors.SpectralCode | src-tauri/src/error.rs:91-121 | an application error's code is that of its variant |
| CommandErrors.SpectralCodesDistinct | src-tauri/src/error.rs:91-121 | the codes are pairwise distinct |
| CommandErrors.SpectralCodesIdentifyVariant | src-tauri/src/error.rs:91-121 | two application errors share a code iff they are of the same variant; Validation is VALIDATION_ERROR |
| Auth.Locked | crates/spectral-auth/src/lib.rs:87-91 | a locked session is unauthenticated, has no token, and keeps its failed attempts |
| Auth.LockedIdempotent | crates/spectral-auth/src/lib.rs:87-91 | locking twice is locking once |
| Auth.AuthState.constructor | crates/spectral-auth/src/lib.rs:60-74 | unauthenticated, no failed attempts, no token |
| Auth.AuthState.Lock | crates/spectral-auth/src/lib.rs:87-91 | unauthenticated, no token, failed attempts unchanged |
| Auth.LockNewSession | crates/spectral-auth/src/lib.rs:98-110 | a new state, locked, is unauthenticated with no failed attempts |

## Left out

- TOML parsing is not modelled: the validator receives an already-parsed document (`Value`) or a syntax error. The directory walk of the broker loader is file I/O; `Registry.BrokerRegistry.Reload` takes the loader's result as input.
- The network LLM clients (Anthropic, OpenAI, Gemini, Ollama, LM Studio) are not modelled. A completion is a parameter `complete` or an input reply.
- Concurrency and async orchestration are not modelled: the scan orchestrator, removal batches, the semaphore and spawned workers, and browser or e-mail submission. The removal worker is modelled only for its retry schedule, field mapping and status mapping.
- Database code is not modelled: the SQL queries, the connection and migrations, and the privacy engine's stored settings. `Findings` models what is written and read as rows, with the JSON and RFC 3339 codecs as parameters.
- Cryptography is not modelled: vault encryption, key derivation and hashing. Encryption and decryption are partial functions passed as parameters.
- Unicode character classes are modelled on ASCII and Latin-1 only (up to U+00FF). Letters, numerals, decimal digits and capitals of other scripts (Ł, 王, Α, Arabic-Indic digits) count as other characters, and `to_lowercase`/`str.lower` leave them unchanged. The members below inherit this.
- BrokerToml.CheckId: Python's `str.isalnum` and `str.lower` are modelled on ASCII and Latin-1; an id with letters beyond U+00FF (such as `łódź`) is reported as ill-formed where Python accepts it.
- BrokerTomlSections.StringId: states the id diagnostics with the ASCII and Latin-1 letter classes of `BrokerToml.CheckId`.
- BrokerTomlSections.IdRules: states the id diagnostics with the ASCII and Latin-1 letter classes of `BrokerToml.CheckId`.
- ProfileInput.ValidateName: `char::is_alphabetic` is modelled on ASCII and Latin-1; names such as `Łukasz` or `王`, which the code accepts, are rejected.
- ProfileInput.NameAccepted: characterises the name check with the same ASCII and Latin-1 letter class.
- ProfileInput.ValidateZipCode: the regex `\d` is modelled as an ASCII digit; a ZIP of other decimal digits (such as `١٢٣٤٥`), which the Unicode-aware pattern accepts, is rejected.
- ProfileInput.ZipForms: lists the accepted forms with ASCII digits only.
- ProfileInput.Validate: inherits the narrowed name and ZIP checks.
- UrlBuilder.UrlEncodeSimple: `char::is_alphanumeric` is modelled on ASCII and Latin-1; letters beyond U+00FF (the `Ł` and the `ź` of `Łódź`) are dropped where the code keeps them.
- UrlBuilder.BuildSearchUrl: lowercases and encodes with the narrowed `to_lowercase` and `UrlBuilder.UrlEncodeSimple`.
- UrlBuilder.BuildFillsTemplate: states the URL with the narrowed lowercasing and encoding.
- Imap.AddressOf: `to_lowercase` is modelled on ASCII and Latin-1; an address with capitals of other scripts (`ΑΒ@x.gr`) keeps them, so `Imap.VerifiedFromBrokers` and `Imap.PollForVerifications` look up that form.
- Imap.AddressBetweenBrackets: states the address with the narrowed lowercasing.
- Imap.ExtractFromHeader: inherits the narrowed lowercasing of `Imap.AddressOf`.
- BrokerToml.ReprOf: Python's `repr` of a string is modelled on ASCII and Latin-1 escapes; characters beyond U+00FF that Python does not print (format and separator characters, unassigned code points) are copied where Python writes `\u` or `\U` escapes. A date or time is printed with the `repr` text the parser input supplies.
- Regular expressions are not modelled. PII matches are given as spans (`find`), and file-discovery patterns as predicates. The anchored identifier and ZIP patterns are written out as character predicates.
- HTML parsing, browser automation, CAPTCHA handling and fingerprint randomness are not modelled. Of the browser engine, only the rate limiter is kept.
- Clocks are parameters. Timestamps are integers of seconds (or milliseconds for the rate limiter), and RFC 3339 parsing and formatting is a parameter (`parse`, `format`).
- File, environment and platform I/O is not modelled: configuration files, vault metadata, the tray, SMTP sending, directory creation in `AppState::new` and `vault_exists`.
- Floating point: temperatures are an opaque `F32` value that is never reasoned about.
- The recursive directory scan of file discovery (`scan_directory`) is async file-system recursion and is left out; `Discovery.ScanFileRules` covers the single-file step.
- The markdown splitter script that ships with the repository has no runtime contract and is not modelled.
- Streaming completions take the same routing step as `complete` (`LlmRouting.Dispatch`); the stream itself is not modelled, nor is detokenizing the provider's answer beyond the round-trip lemmas.
- The IMAP session (connect, login, select, search, fetch) is an input `MailboxReply`; only the guard, the error texts and the header scan are modelled.
- Offsets of PII matches are positions in the character sequence; Rust's byte offsets agree with them only on ASCII text.
- VaultProfile.CompletenessScore: the source's run of eleven conditional `+=` steps on a `u32` is modelled as a sum of three group subtotals, proved equal to the table-based `Score`; the intermediate values of the step-by-step accumulation are not modelled.
- PermissionPrompts.NewPrompt: the denial text (`if_denied`) of each permission is modelled, but its non-emptiness is not proved, because the thirteen long fixed texts are too costly for the solver.
- PiiFilter.Filter: requires that matches of different patterns do not overlap and are non-empty; with overlapping matches the code rewrites ranges of an already-rewritten string, which the model does not follow.
- PiiRoundTrip.TokenizeRoundTrip: the round trip is proved only for text without `_` and for at most ten detections; `PiiRoundTrip.TokenPrefixBreaksRoundTrip` shows that merely excluding whole tokens is not enough.
- RemovalWorker.RetryWithBackoff: requires at least one attempt; with `max_attempts` 0 the code reaches `unreachable!` and panics.
- LlmProvider.TotalTokens: models the wrap-around of a release build; a debug build panics on overflow instead.
- Scheduler.NextRunTimestamp: chrono's last representable instant (the end of the year 262143) is a parameter, not computed from the calendar; the clock reading is a parameter too.
- Imap.ImapYear: models the `u32` truncation and wrap-around of a release build; a debug build panics on the overflowing `1970 + …` instead, which cannot happen before the year 2^32.
- MailTemplates.RenderTemplate: the iteration order of the profile-field map is a parameter (`order`), so the result is stated for every order rather than for the one the hash map happens to use.
- Imap.FormatImapDateShape: the date formatter uses a 365-day year of twelve 30-day months, so days 360 to 364 of a year read as 01 to 05 December, and the year drifts from the calendar year by leap days; the lemma states this behaviour and does not compare it with the calendar.

## Findings

| source | as written | input that shows it | evidently intended | confidence | as-written member | corrected member |
|---|---|---|---|---|---|---|
| src-tauri/src/state.rs:52-59 | the id `.` passes the separator and empty checks and is joined to the vaults directory, which leaves the vaults directory itself | the id `.` puts `vault.db` and `metadata.json` directly in the vaults directory, where the vault `vault.db` has its directory | `.` refused like `..`, so that each vault has a directory of its own | medium; not executed | AppStates.VaultDirAsWritten, AppStates.VaultDbPathAsWritten, AppStates.VaultMetadataPathAsWritten (counterexample: AppStates.DotIdCollides) | AppStates.VaultDir, AppStates.VaultDbPath, AppStates.VaultMetadataPath (proved: AppStates.VaultsApart, AppStates.VaultFilesTogether) |
| crates/spectral-mail/src/imap.rs:117-119 | the first `<` and the first `>` of the whole `From:` value are taken, and the value is sliced between them even when the `>` comes first | `From: x> <y>` makes the slice start after its end, which panics | the address between `<` and the first `>` after it | not executed | Imap.AddressOfAsWritten (counterexample: Imap.AngleBracketOutOfOrder) | Imap.AddressOf (proved: Imap.AddressBetweenBrackets, Imap.AsWrittenAgrees) |
