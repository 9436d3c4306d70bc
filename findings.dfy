/**
 * Findings: potential matches found on a broker site, the verification
 * status a user gives them, and how a finding is written to and read back
 * from its table row.
 *
 * Instants are whole numbers; the RFC 3339 text form and the JSON text
 * form are a pair of encoder and decoder given as parameters (`Codecs`),
 * and the properties that need them to round-trip say so.
 */
module Findings {
  import opened Wrappers
  import opened JsonValues

  datatype VerificationStatus = PendingVerification | Confirmed | Rejected

  /** `Display` for `VerificationStatus`: the variant's own name. */
  function StatusText(s: VerificationStatus): string {
    match s
    case PendingVerification => "PendingVerification"
    case Confirmed => "Confirmed"
    case Rejected => "Rejected"
  }

  /** `VerificationStatus::parse`: the two decided names, anything else pending. */
  function ParseStatus(s: string): VerificationStatus {
    if s == "Confirmed" then Confirmed
    else if s == "Rejected" then Rejected
    else PendingVerification
  }

  /** Parsing the displayed name gives the status back. */
  lemma ParseStatusText(s: VerificationStatus)
    ensures ParseStatus(StatusText(s)) == s
  {
  }

  /** A stored text decides a finding exactly when it is one of the two decided names. */
  lemma ParseStatusCases(s: string)
    ensures ParseStatus(s) == Confirmed <==> s == "Confirmed"
    ensures ParseStatus(s) == Rejected <==> s == "Rejected"
    ensures ParseStatus(s) == PendingVerification <==> s != "Confirmed" && s != "Rejected"
  {
  }

  /** The text forms the table uses for instants and for JSON, each with its parser. */
  datatype Codecs = Codecs(
    formatTime: int -> string,
    parseTime: string -> Option<int>,
    encodeJson: Json -> string,
    decodeJson: string -> Option<Json>)

  /** Both text forms read back what was written. */
  ghost predicate RoundTrips(c: Codecs) {
    && (forall t :: c.parseTime(c.formatTime(t)) == Some(t))
    && (forall j :: c.decodeJson(c.encodeJson(j)) == Some(j))
  }

  datatype Finding = Finding(
    id: string,
    brokerScanId: string,
    brokerId: string,
    profileId: string,
    listingUrl: string,
    verificationStatus: VerificationStatus,
    extractedData: Json,
    discoveredAt: int,
    verifiedAt: Option<int>,
    verifiedByUser: Option<bool>,
    removalAttemptId: Option<string>)

  /** A row of the `findings` table: texts, and the user flag as a stored integer. */
  datatype Row = Row(
    id: string,
    brokerScanId: string,
    brokerId: string,
    profileId: string,
    listingUrl: string,
    verificationStatus: string,
    extractedData: string,
    discoveredAt: string,
    verifiedAt: Option<string>,
    verifiedByUser: Option<int>,
    removalAttemptId: Option<string>)

  /** The stored integer for a flag, as SQLite stores a bound boolean. */
  function FlagInt(b: bool): int {
    if b then 1 else 0
  }

  /** Reading a stored flag back: any non-zero integer is true. */
  function DecodeFlag(v: int): bool {
    v != 0
  }

  /** A written flag reads back as itself. */
  lemma DecodeFlagInt(b: bool)
    ensures DecodeFlag(FlagInt(b)) == b
  {
  }

  /**
   * `create_finding`: the finding returned to the caller and the row
   * inserted for it. A new finding awaits verification and has been neither
   * verified nor sent for removal.
   */
  function CreateFinding(c: Codecs, id: string, brokerScanId: string, brokerId: string, profileId: string,
                         listingUrl: string, extractedData: Json, now: int): (r: (Finding, Row))
    ensures r.0.verificationStatus == PendingVerification
    ensures r.0.verifiedAt.None? && r.0.verifiedByUser.None? && r.0.removalAttemptId.None?
    ensures r.0.discoveredAt == now && r.0.extractedData == extractedData
    ensures r.1.verifiedAt.None? && r.1.verifiedByUser.None? && r.1.removalAttemptId.None?
  {
    var status := PendingVerification;
    (Finding(id, brokerScanId, brokerId, profileId, listingUrl, status, extractedData, now, None, None, None),
     Row(id, brokerScanId, brokerId, profileId, listingUrl, StatusText(status), c.encodeJson(extractedData),
         c.formatTime(now), None, None, None))
  }

  /**
   * One row of `parse_findings_from_rows`: unreadable JSON becomes `Null`,
   * an unreadable discovery time becomes `now`, an unreadable verification
   * time is dropped, and the status text is parsed leniently.
   */
  function ParseRow(c: Codecs, row: Row, now: int): Finding {
    var data := match c.decodeJson(row.extractedData) case Some(j) => j case None => Null;
    var discovered := match c.parseTime(row.discoveredAt) case Some(t) => t case None => now;
    var verified := match row.verifiedAt case Some(s) => c.parseTime(s) case None => None;
    var byUser := match row.verifiedByUser case Some(v) => Some(DecodeFlag(v)) case None => None;
    Finding(row.id, row.brokerScanId, row.brokerId, row.profileId, row.listingUrl,
            ParseStatus(row.verificationStatus), data, discovered, verified, byUser, row.removalAttemptId)
  }

  /** Reading back the row `create_finding` inserted gives the finding it returned, whatever the clock then says. */
  lemma CreateThenRead(c: Codecs, id: string, brokerScanId: string, brokerId: string, profileId: string,
                       listingUrl: string, extractedData: Json, now: int, later: int)
    requires RoundTrips(c)
    ensures var r := CreateFinding(c, id, brokerScanId, brokerId, profileId, listingUrl, extractedData, now);
      ParseRow(c, r.1, later) == r.0
  {
    ParseStatusText(PendingVerification);
    assert c.parseTime(c.formatTime(now)) == Some(now);
    assert c.decodeJson(c.encodeJson(extractedData)) == Some(extractedData);
  }

  /** Rows whose texts cannot be read still give a finding: no data, discovered now, not verified. */
  lemma UnreadableRow(c: Codecs, row: Row, now: int)
    requires c.decodeJson(row.extractedData).None? && c.parseTime(row.discoveredAt).None?
    requires row.verifiedAt.Some? && c.parseTime(row.verifiedAt.value).None?
    ensures ParseRow(c, row, now).extractedData == Null
    ensures ParseRow(c, row, now).discoveredAt == now
    ensures ParseRow(c, row, now).verifiedAt.None?
  {
  }

  /** `update_verification_status` on the row: the status, the verification time and who verified. */
  function UpdateVerificationStatus(c: Codecs, row: Row, status: VerificationStatus, verifiedByUser: bool,
                                    now: int): (r: Row)
    ensures r.(verificationStatus := row.verificationStatus, verifiedAt := row.verifiedAt,
               verifiedByUser := row.verifiedByUser) == row
  {
    row.(verificationStatus := StatusText(status), verifiedAt := Some(c.formatTime(now)),
         verifiedByUser := Some(FlagInt(verifiedByUser)))
  }

  /** The status `verify_finding` writes. */
  function StatusFor(isConfirmed: bool): (s: VerificationStatus)
    ensures s != PendingVerification
  {
    if isConfirmed then Confirmed else Rejected
  }

  /** `verify_finding`. */
  function VerifyFinding(c: Codecs, row: Row, isConfirmed: bool, verifiedByUser: bool, now: int): Row {
    UpdateVerificationStatus(c, row, StatusFor(isConfirmed), verifiedByUser, now)
  }

  /**
   * After `verify_finding` the finding reads back as Confirmed exactly when
   * it was confirmed and as Rejected otherwise, verified now, by whom the
   * caller said; everything else reads back as before.
   */
  lemma VerifyThenRead(c: Codecs, row: Row, isConfirmed: bool, verifiedByUser: bool, now: int, later: int)
    requires RoundTrips(c)
    ensures var f := ParseRow(c, VerifyFinding(c, row, isConfirmed, verifiedByUser, now), later);
      && (f.verificationStatus == Confirmed <==> isConfirmed)
      && (f.verificationStatus == Rejected <==> !isConfirmed)
      && f.verifiedAt == Some(now)
      && f.verifiedByUser == Some(verifiedByUser)
      && f.(verificationStatus := ParseRow(c, row, later).verificationStatus,
            verifiedAt := ParseRow(c, row, later).verifiedAt,
            verifiedByUser := ParseRow(c, row, later).verifiedByUser) == ParseRow(c, row, later)
  {
    ParseStatusText(StatusFor(isConfirmed));
    DecodeFlagInt(verifiedByUser);
    assert c.parseTime(c.formatTime(now)) == Some(now);
  }

  /** `parse_findings_from_rows`: one finding per row, in row order. */
  method ParseFindingsFromRows(c: Codecs, rows: seq<Row>, now: int) returns (findings: seq<Finding>)
    ensures |findings| == |rows|
    ensures forall k :: 0 <= k < |rows| ==> findings[k] == ParseRow(c, rows[k], now)
  {
    findings := [];
    for i := 0 to |rows|
      invariant |findings| == i
      invariant forall k :: 0 <= k < i ==> findings[k] == ParseRow(c, rows[k], now)
    {
      findings := findings + [ParseRow(c, rows[i], now)];
    }
  }

  /** Reading back the rows of freshly created findings gives those findings, in order. */
  lemma ReadBackCreated(c: Codecs, created: seq<(Finding, Row)>, rows: seq<Row>, findings: seq<Finding>, now: int)
    requires RoundTrips(c)
    requires forall k :: 0 <= k < |created| ==>
      created[k] == CreateFinding(c, created[k].0.id, created[k].0.brokerScanId, created[k].0.brokerId,
                                  created[k].0.profileId, created[k].0.listingUrl, created[k].0.extractedData,
                                  created[k].0.discoveredAt)
    requires |rows| == |created| && forall k :: 0 <= k < |rows| ==> rows[k] == created[k].1
    requires |findings| == |rows| && forall k :: 0 <= k < |rows| ==> findings[k] == ParseRow(c, rows[k], now)
    ensures forall k :: 0 <= k < |findings| ==> findings[k] == created[k].0
  {
    forall k | 0 <= k < |findings| ensures findings[k] == created[k].0 {
      var f := created[k].0;
      CreateThenRead(c, f.id, f.brokerScanId, f.brokerId, f.profileId, f.listingUrl, f.extractedData,
                     f.discoveredAt, now);
    }
  }
}
