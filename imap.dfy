/**
 * The IMAP poller's pure parts: recognising a broker's sender address,
 * reading the address out of a message's `From:` header, the `SINCE` date
 * of the search, and one polling pass over what the server returned.
 *
 * The server conversation (connect, login, select, search, fetch) is the
 * parameter `reply`: what the server answered, or the first step that failed.
 */
module Imap {
  import opened Wrappers
  import opened Ints
  import opened Text

  /** `matches_broker_sender`: some known broker address equals the sender, ignoring ASCII case. */
  function MatchesBrokerSender(sender: string, brokerEmails: seq<string>): bool
  {
    if brokerEmails == [] then false
    else EqIgnoreAsciiCase(brokerEmails[0], sender) || MatchesBrokerSender(sender, brokerEmails[1..])
  }

  /** A sender matches exactly when one of the list's entries equals it up to ASCII case; no entries, no match. */
  lemma {:induction false} MatchesBrokerSenderMeaning(sender: string, brokerEmails: seq<string>)
    ensures MatchesBrokerSender(sender, brokerEmails)
        <==> exists k :: 0 <= k < |brokerEmails| && EqIgnoreAsciiCase(brokerEmails[k], sender)
    ensures brokerEmails == [] ==> !MatchesBrokerSender(sender, brokerEmails)
  {
    if brokerEmails != [] {
      MatchesBrokerSenderMeaning(sender, brokerEmails[1..]);
      if exists k :: 0 <= k < |brokerEmails| && EqIgnoreAsciiCase(brokerEmails[k], sender) {
        var k :| 0 <= k < |brokerEmails| && EqIgnoreAsciiCase(brokerEmails[k], sender);
        if k > 0 {
          assert brokerEmails[1..][k - 1] == brokerEmails[k];
        }
      }
      if MatchesBrokerSender(sender, brokerEmails[1..]) {
        var k :| 0 <= k < |brokerEmails[1..]| && EqIgnoreAsciiCase(brokerEmails[1..][k], sender);
        assert brokerEmails[k + 1] == brokerEmails[1..][k];
      }
    }
  }

  /** A header line that names the sender: it starts with `from:` in any ASCII case. */
  predicate IsFromLine(line: string) {
    StartsWith(Lower(line), "from:")
  }

  /** The first line that names the sender, if any. */
  function FirstFromLine(lines: seq<string>): (r: Option<string>)
    ensures r.Some? ==> IsFromLine(r.value) && |r.value| >= 5
  {
    if lines == [] then None
    else if IsFromLine(lines[0]) then Some(lines[0])
    else FirstFromLine(lines[1..])
  }

  /** There is no sender line exactly when no line is one; otherwise the first one is taken. */
  lemma {:induction false} FirstFromLineMeaning(lines: seq<string>)
    ensures FirstFromLine(lines).None? <==> forall k :: 0 <= k < |lines| ==> !IsFromLine(lines[k])
    ensures FirstFromLine(lines).Some? ==>
      exists k :: 0 <= k < |lines| && lines[k] == FirstFromLine(lines).value && IsFromLine(lines[k])
        && forall j :: 0 <= j < k ==> !IsFromLine(lines[j])
  {
    if lines != [] {
      FirstFromLineMeaning(lines[1..]);
      if !IsFromLine(lines[0]) {
        forall k | 1 <= k < |lines| ensures lines[k] == lines[1..][k - 1] {
        }
        if FirstFromLine(lines).Some? {
          var k :| 0 <= k < |lines[1..]| && lines[1..][k] == FirstFromLine(lines).value && IsFromLine(lines[1..][k])
            && forall j :: 0 <= j < k ==> !IsFromLine(lines[1..][j]);
          assert lines[k + 1] == lines[1..][k];
          forall j | 0 <= j < k + 1 ensures !IsFromLine(lines[j]) {
            if j > 0 {
              assert lines[j] == lines[1..][j - 1];
            }
          }
        }
      } else {
        assert lines[0] == FirstFromLine(lines).value;
      }
    }
  }

  /**
   * The address in a header value, as the author meant it: the text
   * between `<` and the first `>` after it, lowercased; without such a
   * pair, the whole value lowercased.
   */
  function AddressOf(value: string): (r: string)
    ensures |r| <= |value|
  {
    match Find(value, '<')
    case Some(start) =>
      (match Find(value[start + 1..], '>')
       case Some(len) => ToLowercase(value[start + 1..start + 1 + len])
       case None => ToLowercase(value))
    case None => ToLowercase(value)
  }

  /** Reaching a `&str` slice whose start lies after its end, which makes Rust panic. */
  datatype Panic = SliceOutOfOrder

  /**
   * The address as the code computes it: it takes the first `<` and the
   * first `>` of the whole value, and slices between them even when the
   * `>` comes first.
   */
  function AddressOfAsWritten(value: string): Result<string, Panic> {
    match Find(value, '<')
    case Some(start) =>
      (match Find(value, '>')
       case Some(end) => if start + 1 <= end then Ok(ToLowercase(value[start + 1..end])) else Err(SliceOutOfOrder)
       case None => Ok(ToLowercase(value)))
    case None => Ok(ToLowercase(value))
  }

  /** Wherever the code does not panic, it computes the intended address. */
  lemma AsWrittenAgrees(value: string)
    requires AddressOfAsWritten(value).Ok?
    ensures AddressOfAsWritten(value).value == AddressOf(value)
  {
    if '<' in value && '>' in value {
      var start := IndexOf(value, '<');
      var end := IndexOf(value, '>');
      var tail := value[start + 1..];
      assert start + 1 <= end;
      assert Find(tail, '>') == Some(end - start - 1) by {
        FirstAfter(value, start + 1, end, '>');
        FindAt(tail, '>', end - start - 1);
      }
    } else if '<' in value {
      var start := IndexOf(value, '<');
      assert '>' !in value[start + 1..];
    }
  }

  /**
   * A display name followed by an address in angle brackets gives the
   * address, lowercased, whatever follows the closing bracket.
   */
  lemma AddressBetweenBrackets(name: string, address: string, rest: string)
    requires '<' !in name && '>' !in address
    ensures AddressOf(name + "<" + address + ">" + rest) == ToLowercase(address)
  {
    var value := name + "<" + address + ">" + rest;
    var start := |name|;
    assert value[start] == '<' && value[..start] == name;
    FindAt(value, '<', start);
    var tail := value[start + 1..];
    assert tail == address + ">" + rest;
    assert tail[|address|] == '>' && tail[..|address|] == address;
    FindAt(tail, '>', |address|);
    assert value[start + 1..start + 1 + |address|] == address;
  }

  /** The first `c` of `s` at or after `from` is, in `s[from..]`, that far along. */
  lemma FirstAfter(s: string, from: nat, end: nat, c: char)
    requires from <= end < |s| && s[end] == c && c !in s[..end]
    ensures s[from..][end - from] == c && c !in s[from..][..end - from]
  {
    assert s[from..][..end - from] == s[from..end];
    forall k | from <= k < end ensures s[k] != c {
      assert s[k] == s[..end][k];
    }
  }

  /** The as-written value reading panics on a `>` before the `<`, where the intended one finds the address. */
  lemma AngleBracketOutOfOrder()
    ensures AddressOfAsWritten("x> <y>") == Err(SliceOutOfOrder)
    ensures AddressOf("x> <y>") == "y"
  {
    var v := "x> <y>";
    assert v[0] != '<' && v[1] != '<' && v[2] != '<' && v[3] == '<';
    assert IndexOf(v, '<') == 3;
    assert v[0] != '>' && v[1] == '>';
    assert IndexOf(v, '>') == 1;
    var tail := v[4..];
    assert tail == "y>";
    assert tail[0] != '>' && tail[1] == '>';
    assert IndexOf(tail, '>') == 1;
    assert v[4..5] == [v[4]] && v[4] == 'y';
  }

  /**
   * `extract_from_header` with the corrected address extraction: the
   * address on the first sender line, taken by `AddressOf`. Where the code as
   * written would panic (`AddressOfAsWritten`), this gives the intended address.
   */
  function FromHeader(headers: string): Option<string> {
    match FirstFromLine(Lines(headers))
    case Some(line) => Some(AddressOf(Trim(line[5..])))
    case None => None
  }

  /**
   * `extract_from_header`: scans the lines and returns at the first one
   * naming the sender, its address taken by the corrected `AddressOf`
   * rather than the slice of `AddressOfAsWritten`.
   */
  method ExtractFromHeader(headers: string) returns (r: Option<string>)
    ensures r == FromHeader(headers)
  {
    var lines := Lines(headers);
    var i := 0;
    while i < |lines|
      invariant 0 <= i <= |lines|
      invariant FirstFromLine(lines) == FirstFromLine(lines[i..])
    {
      if StartsWith(Lower(lines[i]), "from:") {
        var value := Trim(lines[i][5..]);
        return Some(AddressOf(value));
      }
      assert lines[i..][1..] == lines[i + 1..];
      i := i + 1;
    }
    return None;
  }

  /** No address comes out exactly when no line starts with `from:`; otherwise it comes from the first such line. */
  lemma FromHeaderNone(headers: string, lines: seq<string>)
    requires lines == Lines(headers)
    ensures FromHeader(headers).None? <==> forall k :: 0 <= k < |lines| ==> !IsFromLine(lines[k])
    ensures FromHeader(headers).Some? ==>
      exists k :: 0 <= k < |lines| && IsFromLine(lines[k])
        && (forall j :: 0 <= j < k ==> !IsFromLine(lines[j]))
        && FromHeader(headers).value == AddressOf(Trim(lines[k][5..]))
  {
    FirstFromLineMeaning(lines);
  }

  const MONTHS: seq<string> := ["Jan", "Feb", "Mar", "Apr", "May", "Jun", "Jul", "Aug", "Sep", "Oct", "Nov", "Dec"]

  const SECONDS_PER_DAY: int := 86400

  /** Whole days since the epoch. */
  function DaysOf(unixSecs: uint64): nat {
    unixSecs / SECONDS_PER_DAY
  }

  /** The year, on 365-day years, as the `u32` the code computes (wrapping where it would overflow). */
  function ImapYear(unixSecs: uint64): uint32 {
    (1970 + (DaysOf(unixSecs) / 365) % TWO_TO_THE_32) % TWO_TO_THE_32
  }

  /** The day of the (365-day) year. */
  function DayOfYear(unixSecs: uint64): nat {
    DaysOf(unixSecs) % 365
  }

  /** The month index, on 30-day months, the last month taking the remainder. */
  function ImapMonth(unixSecs: uint64): nat {
    if DayOfYear(unixSecs) / 30 < 11 then DayOfYear(unixSecs) / 30 else 11
  }

  /** The day of the month, from 1 to 30. */
  function ImapDay(unixSecs: uint64): nat {
    DayOfYear(unixSecs) % 30 + 1
  }

  /** `{:02}` on a day of the month. */
  function Pad2(n: nat): (r: string)
    requires 1 <= n <= 30
    ensures |r| == 2 && IsAsciiDigit(r[0]) && IsAsciiDigit(r[1])
    ensures (r[0] as int - '0' as int) * 10 + (r[1] as int - '0' as int) == n
  {
    if n < 10 then ['0', DigitChar(n)] else [DigitChar(n / 10), DigitChar(n % 10)]
  }

  /** `format_imap_date`: `DD-Mon-YYYY`. */
  function FormatImapDate(unixSecs: uint64): string {
    Pad2(ImapDay(unixSecs)) + "-" + MONTHS[ImapMonth(unixSecs)] + "-" + NatToString(ImapYear(unixSecs))
  }

  /**
   * The date text has the `DD-Mon-YYYY` shape: a two-digit day from 1 to
   * 30, a month name, and the year. While the year count fits in 32 bits
   * the fields add back up to the day count since the epoch, except in the
   * last five days of a 365-day year, which read as 1 to 5 December.
   */
  lemma FormatImapDateShape(unixSecs: uint64)
    ensures var r := FormatImapDate(unixSecs);
      && |r| >= 8 && r[2] == '-' && r[6] == '-'
      && r[3..6] == MONTHS[ImapMonth(unixSecs)]
      && r[7..] == NatToString(ImapYear(unixSecs))
      && (r[0] as int - '0' as int) * 10 + (r[1] as int - '0' as int) == ImapDay(unixSecs)
    ensures 1 <= ImapDay(unixSecs) <= 30 && ImapMonth(unixSecs) < 12
    ensures DaysOf(unixSecs) / 365 + 1970 < TWO_TO_THE_32 ==> ImapYear(unixSecs) == 1970 + DaysOf(unixSecs) / 365
    ensures DayOfYear(unixSecs) < 360 ==>
      DayOfYear(unixSecs) == ImapMonth(unixSecs) * 30 + ImapDay(unixSecs) - 1
    ensures DayOfYear(unixSecs) >= 360 ==>
      ImapMonth(unixSecs) == 11 && ImapDay(unixSecs) == DayOfYear(unixSecs) - 359
  {
    var r := FormatImapDate(unixSecs);
    var p := Pad2(ImapDay(unixSecs));
    var m := MONTHS[ImapMonth(unixSecs)];
    assert |m| == 3;
    assert r == p + "-" + m + "-" + NatToString(ImapYear(unixSecs));
    assert r[3..6] == m;
    assert r[..2] == p;
  }

  /** The answer of the server conversation, or the first step that failed. */
  datatype MailboxReply =
    | ConnectFailed(error: string)
    | LoginFailed(error: string)
    | SelectFailed(error: string)
    | SearchFailed(error: string)
    | NothingUnseen
    | FetchFailed(error: string)
    | Fetched(headers: seq<Option<string>>)

  /** `PollResult`: sender address to removal attempt, and the errors met. */
  datatype PollResult = PollResult(verified: map<string, string>, errors: seq<string>)

  /** The verified senders after the first `headers`: each header whose sender is a known broker, later ones winning. */
  function Verified(headers: seq<Option<string>>, brokerEmailToAttempt: map<string, string>): map<string, string> {
    if headers == [] then map[]
    else
      var before := Verified(headers[..|headers| - 1], brokerEmailToAttempt);
      match headers[|headers| - 1]
      case Some(h) =>
        (match FromHeader(h)
         case Some(from) =>
           if ToLowercase(from) in brokerEmailToAttempt then before[from := brokerEmailToAttempt[ToLowercase(from)]]
           else before
         case None => before)
      case None => before
  }

  /** Every sender recorded as verified is a known broker address, recorded with that broker's attempt. */
  lemma {:induction false} VerifiedFromBrokers(headers: seq<Option<string>>, brokerEmailToAttempt: map<string, string>)
    ensures forall from :: from in Verified(headers, brokerEmailToAttempt) ==>
      ToLowercase(from) in brokerEmailToAttempt
      && Verified(headers, brokerEmailToAttempt)[from] == brokerEmailToAttempt[ToLowercase(from)]
    decreases |headers|
  {
    if headers != [] {
      VerifiedFromBrokers(headers[..|headers| - 1], brokerEmailToAttempt);
    }
  }

  /** The outcome of a pass over a non-empty broker map. */
  function PollOutcome(brokerEmailToAttempt: map<string, string>, reply: MailboxReply): PollResult {
    match reply
    case ConnectFailed(e) => PollResult(map[], ["IMAP connect error: " + e])
    case LoginFailed(e) => PollResult(map[], ["IMAP login error: " + e])
    case SelectFailed(e) => PollResult(map[], ["IMAP select INBOX error: " + e])
    case SearchFailed(e) => PollResult(map[], ["IMAP search error: " + e])
    case NothingUnseen => PollResult(map[], [])
    case FetchFailed(e) => PollResult(map[], ["IMAP fetch error: " + e])
    case Fetched(headers) => PollResult(Verified(headers, brokerEmailToAttempt), [])
  }

  /**
   * `poll_for_verifications`: with no broker addresses to wait for it
   * returns an empty result without contacting the server; otherwise it
   * records each fetched message whose sender is a known broker, or the
   * error of the step that failed.
   */
  method PollForVerifications(brokerEmailToAttempt: map<string, string>, reply: MailboxReply)
    returns (result: PollResult, contacted: bool)
    ensures brokerEmailToAttempt == map[] ==> result == PollResult(map[], []) && !contacted
    ensures brokerEmailToAttempt != map[] ==> contacted && result == PollOutcome(brokerEmailToAttempt, reply)
  {
    result := PollResult(map[], []);
    contacted := false;
    if brokerEmailToAttempt == map[] {
      return;
    }
    contacted := true;
    match reply
    case ConnectFailed(e) => result := result.(errors := result.errors + ["IMAP connect error: " + e]);
    case LoginFailed(e) => result := result.(errors := result.errors + ["IMAP login error: " + e]);
    case SelectFailed(e) => result := result.(errors := result.errors + ["IMAP select INBOX error: " + e]);
    case SearchFailed(e) => result := result.(errors := result.errors + ["IMAP search error: " + e]);
    case NothingUnseen =>
    case FetchFailed(e) => result := result.(errors := result.errors + ["IMAP fetch error: " + e]);
    case Fetched(headers) =>
      var verified := ScanHeaders(headers, brokerEmailToAttempt);
      result := result.(verified := verified);
  }

  /** The loop of `poll_for_verifications` over the fetched message headers. */
  method ScanHeaders(headers: seq<Option<string>>, brokerEmailToAttempt: map<string, string>)
    returns (verified: map<string, string>)
    ensures verified == Verified(headers, brokerEmailToAttempt)
  {
    verified := map[];
    for i := 0 to |headers|
      invariant verified == Verified(headers[..i], brokerEmailToAttempt)
    {
      assert headers[..i + 1][..i] == headers[..i];
      if headers[i].Some? {
        var from := ExtractFromHeader(headers[i].value);
        if from.Some? && ToLowercase(from.value) in brokerEmailToAttempt {
          verified := verified[from.value := brokerEmailToAttempt[ToLowercase(from.value)]];
        }
      }
    }
    assert headers[..|headers|] == headers;
  }
}
