/**
 * The language-model commands of the desktop application: the prompt asking
 * for an e-mail draft and the reader of the reply, the prompt asking for the
 * values of a form and the reader of that reply, and the two commands that
 * send a prompt through the router and read what comes back.
 *
 * The prompts are assembled part by part and joined with line breaks; the
 * replies are read line by line. The language model itself is a parameter:
 * `complete` gives the reply content for a prompt, or the display text of the
 * router's error.
 */
module LlmCommands {
  import opened Wrappers
  import opened Text
  import Seqs
  import opened CommandErrors

  const PARSE_ERROR := "LLM_PARSE_ERROR"
  const EMAIL_PARSE_MESSAGE := "Failed to parse email body from LLM response"
  const FORM_PARSE_MESSAGE := "Failed to parse form values from LLM response"

  // ---------------------------------------------------------------------
  // Vault access
  // ---------------------------------------------------------------------

  /**
   * The unlocked vaults, by id, as the commands reach their databases: `Ok`
   * when the database opens, otherwise the display text of the vault error.
   */
  type VaultDatabases = map<string, Result<(), string>>

  /** `get_vault_pool`: a vault that is not unlocked, or whose database does not open, is an error. */
  function VaultPool(vaults: VaultDatabases, vaultId: string): (r: Result<(), CommandError>)
    ensures vaultId !in vaults ==> r == Err(New("VAULT_LOCKED", "Vault is locked"))
    ensures vaultId in vaults && vaults[vaultId].Err? ==>
              r == Err(New("VAULT_ERROR", "Failed to access vault database: " + vaults[vaultId].error))
    ensures r.Ok? <==> vaultId in vaults && vaults[vaultId].Ok?
  {
    if vaultId !in vaults then Err(New("VAULT_LOCKED", "Vault is locked"))
    else match vaults[vaultId]
      case Err(e) => Err(New("VAULT_ERROR", "Failed to access vault database: " + e))
      case Ok(_) => Ok(())
  }

  // ---------------------------------------------------------------------
  // E-mail drafting
  // ---------------------------------------------------------------------

  datatype EmailDraftRequest = EmailDraftRequest(
    prompt: string,
    recipient: Option<string>,
    subject: Option<string>,
    tone: Option<string>)

  datatype EmailDraftMetadata = EmailDraftMetadata(provider: string, piiFiltered: bool)

  datatype EmailDraftResponse = EmailDraftResponse(
    subject: string,
    body: string,
    metadata: Option<EmailDraftMetadata>)

  // The two longer texts are written in two pieces: the verifier does not
  // read the characters of a literal this long.
  const EMAIL_HEADER := "Draft an email " + "with the following requirements:"
  const INSTRUCTIONS_LABEL := "Instructions: "
  const RECIPIENT_LABEL := "Recipient: "
  const SUBJECT_HINT_LABEL := "Subject hint: "
  const TONE_LABEL := "Tone: "
  const FORMAT_INTRO := "\nProvide the response " + "in the following format:"
  const SUBJECT_TAG := "Subject:"
  const BODY_TAG := "Body:"
  const SUBJECT_TEMPLATE := "Subject: [email subject]"
  const BODY_TEMPLATE := "Body: [email body]"
  const DEFAULT_SUBJECT := "Email Draft"

  /** The line `prefix + value` when the value is given, nothing otherwise. */
  function Optional(prefix: string, value: Option<string>): (r: seq<string>)
    ensures value.None? ==> r == []
    ensures value.Some? ==> r == [prefix + value.value]
  {
    if value.Some? then [prefix + value.value] else []
  }

  /**
   * The parts of the e-mail prompt: the request, the instructions, the
   * recipient, subject hint and tone that are given, and the reply format.
   */
  function EmailParts(req: EmailDraftRequest): seq<string> {
    [EMAIL_HEADER, INSTRUCTIONS_LABEL + req.prompt]
      + Optional(RECIPIENT_LABEL, req.recipient)
      + Optional(SUBJECT_HINT_LABEL, req.subject)
      + Optional(TONE_LABEL, req.tone)
      + [FORMAT_INTRO, SUBJECT_TEMPLATE, BODY_TEMPLATE]
  }

  function EmailPrompt(req: EmailDraftRequest): string {
    Join(EmailParts(req), "\n")
  }

  /** `build_email_prompt`: the parts pushed one after another, then joined. */
  method BuildEmailPrompt(req: EmailDraftRequest) returns (prompt: string)
    ensures prompt == EmailPrompt(req)
  {
    var parts := [EMAIL_HEADER];
    parts := parts + [INSTRUCTIONS_LABEL + req.prompt];
    if req.recipient.Some? {
      parts := parts + [RECIPIENT_LABEL + req.recipient.value];
    }
    assert parts == [EMAIL_HEADER, INSTRUCTIONS_LABEL + req.prompt] + Optional(RECIPIENT_LABEL, req.recipient);
    if req.subject.Some? {
      parts := parts + [SUBJECT_HINT_LABEL + req.subject.value];
    }
    assert parts == [EMAIL_HEADER, INSTRUCTIONS_LABEL + req.prompt] + Optional(RECIPIENT_LABEL, req.recipient)
                    + Optional(SUBJECT_HINT_LABEL, req.subject);
    if req.tone.Some? {
      parts := parts + [TONE_LABEL + req.tone.value];
    }
    parts := parts + [FORMAT_INTRO];
    parts := parts + [SUBJECT_TEMPLATE];
    parts := parts + [BODY_TEMPLATE];
    assert parts == EmailParts(req);
    prompt := Join(parts, "\n");
  }

  /**
   * The prompt opens with the request and the instructions, lists exactly the
   * optional lines that are given, and closes with the reply format.
   */
  lemma EmailPromptShape(req: EmailDraftRequest)
    ensures var parts := EmailParts(req);
      var given := |Optional(RECIPIENT_LABEL, req.recipient)| + |Optional(SUBJECT_HINT_LABEL, req.subject)|
                   + |Optional(TONE_LABEL, req.tone)|;
      |parts| == 5 + given
      && parts[0] == EMAIL_HEADER && parts[1] == INSTRUCTIONS_LABEL + req.prompt
      && parts[|parts| - 3..] == [FORMAT_INTRO, SUBJECT_TEMPLATE, BODY_TEMPLATE]
  {
  }

  /** The first character of every fixed part and of every label; no two labels share it except the subject ones. */
  lemma PartInitials()
    ensures EMAIL_HEADER[0] == 'D' && INSTRUCTIONS_LABEL[0] == 'I' && RECIPIENT_LABEL[0] == 'R'
    ensures SUBJECT_HINT_LABEL[0] == 'S' && TONE_LABEL[0] == 'T' && FORMAT_INTRO[0] == '\n'
    ensures SUBJECT_TEMPLATE[0] == 'S' && BODY_TEMPLATE[0] == 'B'
    ensures SUBJECT_HINT_LABEL[7] == ' ' && SUBJECT_TEMPLATE[7] == ':'
  {
  }

  /** A recipient line is in the prompt exactly when that recipient was given. */
  lemma RecipientLine(req: EmailDraftRequest, r: string)
    ensures RECIPIENT_LABEL + r in EmailParts(req) <==> req.recipient == Some(r)
  {
    PartInitials();
    var line := RECIPIENT_LABEL + r;
    if line in EmailParts(req) {
      assert line[0] == 'R';
      var k :| 0 <= k < |EmailParts(req)| && EmailParts(req)[k] == line;
      assert (INSTRUCTIONS_LABEL + req.prompt)[0] == 'I';
      if req.subject.Some? { assert (SUBJECT_HINT_LABEL + req.subject.value)[0] == 'S'; }
      if req.tone.Some? { assert (TONE_LABEL + req.tone.value)[0] == 'T'; }
      assert req.recipient.Some? && RECIPIENT_LABEL + req.recipient.value == line;
      assert line[|RECIPIENT_LABEL|..] == r;
      assert (RECIPIENT_LABEL + req.recipient.value)[|RECIPIENT_LABEL|..] == req.recipient.value;
    }
  }

  /** A tone line is in the prompt exactly when that tone was given. */
  lemma ToneLine(req: EmailDraftRequest, t: string)
    ensures TONE_LABEL + t in EmailParts(req) <==> req.tone == Some(t)
  {
    PartInitials();
    var line := TONE_LABEL + t;
    if line in EmailParts(req) {
      assert line[0] == 'T';
      assert (INSTRUCTIONS_LABEL + req.prompt)[0] == 'I';
      if req.recipient.Some? { assert (RECIPIENT_LABEL + req.recipient.value)[0] == 'R'; }
      if req.subject.Some? { assert (SUBJECT_HINT_LABEL + req.subject.value)[0] == 'S'; }
      assert req.tone.Some? && TONE_LABEL + req.tone.value == line;
      assert line[|TONE_LABEL|..] == t;
      assert (TONE_LABEL + req.tone.value)[|TONE_LABEL|..] == req.tone.value;
    }
  }

  /** A subject-hint line is in the prompt exactly when that hint was given. */
  lemma SubjectHintLine(req: EmailDraftRequest, s: string)
    ensures SUBJECT_HINT_LABEL + s in EmailParts(req) <==> req.subject == Some(s)
  {
    PartInitials();
    var line := SUBJECT_HINT_LABEL + s;
    if line in EmailParts(req) {
      assert line[0] == 'S' && line[7] == ' ';
      assert (INSTRUCTIONS_LABEL + req.prompt)[0] == 'I';
      if req.recipient.Some? { assert (RECIPIENT_LABEL + req.recipient.value)[0] == 'R'; }
      if req.tone.Some? { assert (TONE_LABEL + req.tone.value)[0] == 'T'; }
      assert req.subject.Some? && SUBJECT_HINT_LABEL + req.subject.value == line;
      assert line[|SUBJECT_HINT_LABEL|..] == s;
      assert (SUBJECT_HINT_LABEL + req.subject.value)[|SUBJECT_HINT_LABEL|..] == req.subject.value;
    }
  }

  /** `trim_start_matches(p)`: every copy of `p` at the front is removed. */
  function TrimStartMatches(s: string, p: string): (r: string)
    requires p != []
    ensures !StartsWith(r, p)
    decreases |s|
  {
    if StartsWith(s, p) then TrimStartMatches(s[|p|..], p) else s
  }

  /** What follows a tag on its line, without the surrounding white space. */
  function AfterTag(line: string, tag: string): string
    requires tag != []
  {
    Trim(TrimStartMatches(line, tag))
  }

  /** A line cannot carry both tags. */
  lemma TagsExclusive(line: string)
    ensures StartsWith(line, BODY_TAG) ==> !StartsWith(line, SUBJECT_TAG)
  {
    if StartsWith(line, BODY_TAG) {
      assert line[0] == BODY_TAG[0] == 'B';
    }
  }

  /** A reply line, by the tag it starts with, with what follows the tag. */
  datatype ReplyLine = SubjectLine(subject: string) | BodyLine(start: string) | Untagged(text: string)

  function Classify(line: string): (r: ReplyLine)
    ensures r.SubjectLine? <==> StartsWith(line, SUBJECT_TAG)
    ensures r.BodyLine? <==> StartsWith(line, BODY_TAG)
    ensures r.SubjectLine? ==> r.subject == AfterTag(line, SUBJECT_TAG)
    ensures r.BodyLine? ==> r.start == AfterTag(line, BODY_TAG)
    ensures r.Untagged? ==> r.text == line
  {
    TagsExclusive(line);
    if StartsWith(line, SUBJECT_TAG) then SubjectLine(AfterTag(line, SUBJECT_TAG))
    else if StartsWith(line, BODY_TAG) then BodyLine(AfterTag(line, BODY_TAG))
    else Untagged(line)
  }

  /** The lines, classified, in order. */
  function ClassifyAll(lines: seq<string>): (r: seq<ReplyLine>)
    ensures |r| == |lines|
    decreases |lines|
  {
    if lines == [] then [] else ClassifyAll(lines[..|lines| - 1]) + [Classify(lines[|lines| - 1])]
  }

  /** Each line is classified on its own. */
  lemma {:induction false} ClassifiedAt(lines: seq<string>, k: nat)
    requires k < |lines|
    ensures ClassifyAll(lines)[k] == Classify(lines[k])
    decreases |lines|
  {
    var n := |lines| - 1;
    if k < n {
      ClassifiedAt(lines[..n], k);
    }
  }

  /** The lines of a reply, classified. */
  function ReplyLines(content: string): seq<ReplyLine> {
    ClassifyAll(Lines(content))
  }

  /** What the reader of an e-mail reply has collected so far. */
  datatype Draft = Draft(subject: string, bodyLines: seq<string>, inBody: bool)

  /**
   * One reply line: a subject line replaces the subject; a body line starts
   * the body with what follows the tag, if anything; once the body has
   * started every other line joins it.
   */
  function ReadLine(d: Draft, l: ReplyLine): Draft {
    match l
    case SubjectLine(s) => d.(subject := s)
    case BodyLine(start) => d.(inBody := true, bodyLines := if start != [] then d.bodyLines + [start] else d.bodyLines)
    case Untagged(text) => if d.inBody then d.(bodyLines := d.bodyLines + [text]) else d
  }

  /** The reply lines read in order, from nothing collected. */
  function ReadLines(ls: seq<ReplyLine>): Draft
    decreases |ls|
  {
    if ls == [] then Draft("", [], false)
    else ReadLine(ReadLines(ls[..|ls| - 1]), ls[|ls| - 1])
  }

  /** The subject (or the default) and the trimmed body; an empty body is a parse error. */
  function DraftResult(d: Draft): (r: Result<(string, string), CommandError>)
    ensures r.Err? <==> Trim(Join(d.bodyLines, "\n")) == []
    ensures r.Err? ==> r.error == New(PARSE_ERROR, EMAIL_PARSE_MESSAGE)
    ensures r.Ok? ==> r.value.0 == (if d.subject == [] then DEFAULT_SUBJECT else d.subject)
    ensures r.Ok? ==> Trimmed(r.value.1) && r.value.1 == Trim(Join(d.bodyLines, "\n"))
  {
    var subject := if d.subject == [] then DEFAULT_SUBJECT else d.subject;
    var body := Trim(Join(d.bodyLines, "\n"));
    TrimEnds(Join(d.bodyLines, "\n"));
    if body == [] then Err(New(PARSE_ERROR, EMAIL_PARSE_MESSAGE)) else Ok((subject, body))
  }

  function ParseEmail(content: string): Result<(string, string), CommandError> {
    DraftResult(ReadLines(ReplyLines(content)))
  }

  /** The loop of `parse_email_response`: the reply's lines read one by one. */
  method ReadReply(content: string) returns (subject: string, bodyLines: seq<string>)
    ensures subject == ReadLines(ReplyLines(content)).subject
    ensures bodyLines == ReadLines(ReplyLines(content)).bodyLines
  {
    var lines := Lines(content);
    var inBody := false;
    subject, bodyLines := "", [];
    for i := 0 to |lines|
      invariant Draft(subject, bodyLines, inBody) == ReadLines(ClassifyAll(lines[..i]))
    {
      var line := lines[i];
      assert lines[..i + 1][..i] == lines[..i];
      if StartsWith(line, SUBJECT_TAG) {
        subject := Trim(TrimStartMatches(line, SUBJECT_TAG));
      } else if StartsWith(line, BODY_TAG) {
        inBody := true;
        var start := Trim(TrimStartMatches(line, BODY_TAG));
        if start != [] {
          bodyLines := bodyLines + [start];
        }
      } else if inBody {
        bodyLines := bodyLines + [line];
      }
    }
    assert lines[..|lines|] == lines;
  }

  /** `parse_email_response`: the reply read line by line, then the subject defaulted and the body checked. */
  method ParseEmailResponse(content: string) returns (r: Result<(string, string), CommandError>)
    ensures r == ParseEmail(content)
  {
    var subject, bodyLines := ReadReply(content);
    if subject == [] {
      subject := DEFAULT_SUBJECT;
    }
    var body := Trim(Join(bodyLines, "\n"));
    if body == [] {
      return Err(New(PARSE_ERROR, EMAIL_PARSE_MESSAGE));
    }
    return Ok((subject, body));
  }

  /** A parsed draft always has a subject and a body with no white space around it. */
  lemma ParsedDraftComplete(content: string)
    requires ParseEmail(content).Ok?
    ensures ParseEmail(content).value.0 != [] && Trimmed(ParseEmail(content).value.1)
  {
  }

  /** The subject is the one on the last subject line. */
  lemma {:induction false} SubjectFromLastSubjectLine(ls: seq<ReplyLine>, k: nat)
    requires k < |ls| && ls[k].SubjectLine?
    requires forall j :: k < j < |ls| ==> !ls[j].SubjectLine?
    ensures ReadLines(ls).subject == ls[k].subject
    decreases |ls|
  {
    var n := |ls| - 1;
    if k < n {
      assert ls[..n][k] == ls[k];
      assert forall j :: k < j < n ==> ls[..n][j] == ls[j];
      SubjectFromLastSubjectLine(ls[..n], k);
    }
  }

  /** Without a subject line the subject stays empty. */
  lemma {:induction false} NoSubjectLine(ls: seq<ReplyLine>)
    requires forall j :: 0 <= j < |ls| ==> !ls[j].SubjectLine?
    ensures ReadLines(ls).subject == []
    decreases |ls|
  {
    if ls != [] {
      var n := |ls| - 1;
      assert forall j :: 0 <= j < n ==> ls[..n][j] == ls[j];
      NoSubjectLine(ls[..n]);
    }
  }

  /** Without a subject line in the reply, the draft gets the default subject. */
  lemma DefaultSubject(content: string)
    requires ParseEmail(content).Ok?
    requires forall j :: 0 <= j < |Lines(content)| ==> !StartsWith(Lines(content)[j], SUBJECT_TAG)
    ensures ParseEmail(content).value.0 == DEFAULT_SUBJECT
  {
    var ls := ReplyLines(content);
    forall j | 0 <= j < |ls| ensures !ls[j].SubjectLine? {
      ClassifiedAt(Lines(content), j);
    }
    NoSubjectLine(ls);
  }

  /**
   * The draft's subject is what follows the tag on the reply's last subject
   * line, or the default when that is empty.
   */
  lemma SubjectOfReply(content: string, k: nat)
    requires ParseEmail(content).Ok?
    requires k < |Lines(content)| && StartsWith(Lines(content)[k], SUBJECT_TAG)
    requires forall j :: k < j < |Lines(content)| ==> !StartsWith(Lines(content)[j], SUBJECT_TAG)
    ensures var after := AfterTag(Lines(content)[k], SUBJECT_TAG);
      ParseEmail(content).value.0 == if after == [] then DEFAULT_SUBJECT else after
  {
    var ls := ReplyLines(content);
    ClassifiedAt(Lines(content), k);
    forall j | k < j < |ls| ensures !ls[j].SubjectLine? {
      ClassifiedAt(Lines(content), j);
    }
    SubjectFromLastSubjectLine(ls, k);
  }

  /** The body has started exactly when some line carries the body tag. */
  lemma {:induction false} InBodyAfterBodyLine(ls: seq<ReplyLine>)
    ensures ReadLines(ls).inBody <==> exists j :: 0 <= j < |ls| && ls[j].BodyLine?
    decreases |ls|
  {
    if ls != [] {
      var n := |ls| - 1;
      InBodyAfterBodyLine(ls[..n]);
      if ReadLines(ls).inBody && !ls[n].BodyLine? {
        var j :| 0 <= j < n && ls[..n][j].BodyLine?;
        assert ls[j] == ls[..n][j];
      }
      if !ls[n].BodyLine? && exists j :: 0 <= j < |ls| && ls[j].BodyLine? {
        var j :| 0 <= j < |ls| && ls[j].BodyLine?;
        assert ls[..n][j] == ls[j];
      }
    }
  }

  /** A body line comes from line `j`: what follows a body tag, or an untagged line after a body tag. */
  predicate BodySource(ls: seq<ReplyLine>, j: int, b: string) {
    0 <= j < |ls|
    && (ls[j] == BodyLine(b)
        || (ls[j] == Untagged(b) && exists i :: 0 <= i < j && ls[i].BodyLine?))
  }

  /** Every body line has a source; subject lines and lines before the first body tag never reach the body. */
  lemma {:induction false} BodyLinesHaveSource(ls: seq<ReplyLine>)
    ensures |ReadLines(ls).bodyLines| <= |ls|
    ensures forall b :: b in ReadLines(ls).bodyLines ==> exists j :: BodySource(ls, j, b)
    decreases |ls|
  {
    if ls != [] {
      var n := |ls| - 1;
      var init := ls[..n];
      BodyLinesHaveSource(init);
      InBodyAfterBodyLine(init);
      forall b | b in ReadLines(ls).bodyLines ensures exists j :: BodySource(ls, j, b) {
        if b in ReadLines(init).bodyLines {
          var j :| BodySource(init, j, b);
          assert init[j] == ls[j];
          if !init[j].BodyLine? {
            var i :| 0 <= i < j && init[i].BodyLine?;
            assert init[i] == ls[i];
          }
          assert BodySource(ls, j, b);
        } else {
          if !ls[n].BodyLine? {
            var i :| 0 <= i < n && init[i].BodyLine?;
            assert init[i] == ls[i];
          }
          assert BodySource(ls, n, b);
        }
      }
    }
  }

  /** A reply without a body tag has no body, so it is refused. */
  lemma NoBodyTagRefused(content: string)
    requires forall j :: 0 <= j < |Lines(content)| ==> !StartsWith(Lines(content)[j], BODY_TAG)
    ensures ParseEmail(content) == Err(New(PARSE_ERROR, EMAIL_PARSE_MESSAGE))
  {
    var ls := ReplyLines(content);
    forall j | 0 <= j < |ls| ensures !ls[j].BodyLine? {
      ClassifiedAt(Lines(content), j);
    }
    NoBodyLine(ls);
  }

  /** Without a body line nothing is collected for the body. */
  lemma {:induction false} NoBodyLine(ls: seq<ReplyLine>)
    requires forall j :: 0 <= j < |ls| ==> !ls[j].BodyLine?
    ensures ReadLines(ls).bodyLines == [] && !ReadLines(ls).inBody
    decreases |ls|
  {
    if ls != [] {
      var n := |ls| - 1;
      assert forall j :: 0 <= j < n ==> ls[..n][j] == ls[j];
      NoBodyLine(ls[..n]);
    }
  }

  /** What follows a tag and one space is the text itself, when it has no white space around it. */
  lemma AfterTagSpace(tag: string, s: string)
    requires tag != [] && !IsWhitespace(tag[0]) && Trimmed(s)
    ensures AfterTag(tag + " " + s, tag) == s
  {
    var line := tag + " " + s;
    assert line[..|tag|] == tag;
    assert line[|tag|..] == [' '] + s;
    assert !StartsWith([' '] + s, tag);
    assert TrimStartMatches(line, tag) == [' '] + s;
    TrimSpacePrefix(s);
    TrimUnchanged(s);
  }

  /** The line `"Subject: " + s` is a subject line carrying `s`. */
  lemma SubjectTaggedLine(s: string)
    requires Trimmed(s)
    ensures Classify(SUBJECT_TAG + " " + s) == SubjectLine(s)
  {
    var l := SUBJECT_TAG + " " + s;
    assert StartsWith(l, SUBJECT_TAG) by {
      assert l[..|SUBJECT_TAG|] == SUBJECT_TAG;
    }
    assert AfterTag(l, SUBJECT_TAG) == s by {
      AfterTagSpace(SUBJECT_TAG, s);
    }
  }

  /** The line `"Body: " + s` is a body line carrying `s`. */
  lemma BodyTaggedLine(s: string)
    requires Trimmed(s)
    ensures Classify(BODY_TAG + " " + s) == BodyLine(s)
  {
    var l := BODY_TAG + " " + s;
    assert StartsWith(l, BODY_TAG) by {
      assert l[..|BODY_TAG|] == BODY_TAG;
    }
    assert AfterTag(l, BODY_TAG) == s by {
      AfterTagSpace(BODY_TAG, s);
    }
  }

  /**
   * A reply in the requested format, a subject line and a body line, gives
   * back that subject and body.
   */
  lemma RequestedFormatParses(s: string, b: string)
    requires Trimmed(s) && Trimmed(b) && '\n' !in s && '\n' !in b
    ensures ParseEmail(SUBJECT_TAG + " " + s + "\n" + BODY_TAG + " " + b) == Ok((s, b))
  {
    var content := SUBJECT_TAG + " " + s + "\n" + BODY_TAG + " " + b;
    assert ReplyLines(content) == [SubjectLine(s), BodyLine(b)] by {
      FormattedReplyLines(s, b);
    }
    assert ReadLines([SubjectLine(s), BodyLine(b)]) == Draft(s, [b], true) by {
      var ls := [SubjectLine(s), BodyLine(b)];
      assert ls[..1] == [SubjectLine(s)];
      assert [SubjectLine(s)][..0] == [];
      assert ReadLines(ls[..1]) == Draft(s, [], false);
      assert b != [];
    }
    TrimUnchanged(b);
  }

  /** The reply in the requested format is a subject line and then a body line. */
  lemma FormattedReplyLines(s: string, b: string)
    requires Trimmed(s) && Trimmed(b) && '\n' !in s && '\n' !in b
    ensures ReplyLines(SUBJECT_TAG + " " + s + "\n" + BODY_TAG + " " + b) == [SubjectLine(s), BodyLine(b)]
  {
    var l1 := SUBJECT_TAG + " " + s;
    var l2 := BODY_TAG + " " + b;
    FormattedLines(s, b);
    SubjectTaggedLine(s);
    BodyTaggedLine(b);
    ClassifyPair(l1, l2);
  }

  /** The reply in the requested format splits into its subject line and its body line. */
  lemma FormattedLines(s: string, b: string)
    requires Trimmed(s) && Trimmed(b) && '\n' !in s && '\n' !in b
    ensures Lines(SUBJECT_TAG + " " + s + "\n" + BODY_TAG + " " + b) == [SUBJECT_TAG + " " + s, BODY_TAG + " " + b]
  {
    var l1 := SUBJECT_TAG + " " + s;
    var l2 := BODY_TAG + " " + b;
    assert l1[|l1| - 1] == s[|s| - 1];
    assert SUBJECT_TAG + " " + s + "\n" + BODY_TAG + " " + b == l1 + "\n" + l2;
    LinesAfter(l1, l2);
    LinesSingle(l2);
  }

  /** Two lines are classified one by one. */
  lemma ClassifyPair(l1: string, l2: string)
    ensures ClassifyAll([l1, l2]) == [Classify(l1), Classify(l2)]
  {
    var ls := [l1, l2];
    assert ls[..1] == [l1];
    assert [l1][..0] == [];
  }


  /**
   * `draft_email`: the vault must be open; the prompt goes to the model; a
   * model error becomes `LLM_ERROR`, and the reply is read as a draft.
   */
  function DraftEmail(vaults: VaultDatabases, vaultId: string, req: EmailDraftRequest,
                      complete: string -> Result<string, string>): (r: Result<EmailDraftResponse, CommandError>)
    ensures VaultPool(vaults, vaultId).Err? ==> r == Err(VaultPool(vaults, vaultId).error)
    ensures VaultPool(vaults, vaultId).Ok? && complete(EmailPrompt(req)).Err? ==>
              r == Err(New("LLM_ERROR", "Failed to generate email draft: " + complete(EmailPrompt(req)).error))
    ensures VaultPool(vaults, vaultId).Ok? && complete(EmailPrompt(req)).Ok? ==>
              match ParseEmail(complete(EmailPrompt(req)).value)
              case Err(e) => r == Err(e)
              case Ok(draft) => r == Ok(EmailDraftResponse(draft.0, draft.1, Some(EmailDraftMetadata("stub", false))))
  {
    var _ :- VaultPool(vaults, vaultId);
    var content :- match complete(EmailPrompt(req))
      case Err(e) => Err(New("LLM_ERROR", "Failed to generate email draft: " + e))
      case Ok(c) => Ok(c);
    var draft :- ParseEmail(content);
    Ok(EmailDraftResponse(draft.0, draft.1, Some(EmailDraftMetadata("stub", false))))
  }

  /** A model that answers in the requested format yields exactly that subject and body. */
  lemma DraftFromFormattedReply(vaults: VaultDatabases, vaultId: string, req: EmailDraftRequest,
                                complete: string -> Result<string, string>, s: string, b: string)
    requires vaultId in vaults && vaults[vaultId].Ok?
    requires Trimmed(s) && Trimmed(b) && '\n' !in s && '\n' !in b
    requires complete(EmailPrompt(req)) == Ok(SUBJECT_TAG + " " + s + "\n" + BODY_TAG + " " + b)
    ensures DraftEmail(vaults, vaultId, req, complete).Ok?
    ensures DraftEmail(vaults, vaultId, req, complete).value.subject == s
    ensures DraftEmail(vaults, vaultId, req, complete).value.body == b
  {
    RequestedFormatParses(s, b);
  }

  // ---------------------------------------------------------------------
  // Form filling
  // ---------------------------------------------------------------------

  datatype FormField = FormField(name: string, fieldLabel: string, fieldType: string, required: Option<bool>)

  datatype FormFillingRequest = FormFillingRequest(fields: seq<FormField>, context: Option<string>)

  datatype FormFillingMetadata = FormFillingMetadata(provider: string, piiFiltered: bool, fieldsFilled: nat)

  datatype FormFillingResponse = FormFillingResponse(
    values: map<string, string>,
    metadata: Option<FormFillingMetadata>)

  const FORM_HEADER := "Fill the following form fields with appropriate values:"
  const CONTEXT_LABEL := "Context: "
  const FIELDS_HEADER := "\nFields:"
  const REQUIRED_MARK := " (required)"
  const FORM_FOOTER := ["\nProvide the response " + "in the following format:", "field_name: value",
                        "\nOnly provide realistic values appropriate for each field type."]

  /** The line describing one field; only a field marked required gets the mark. */
  function FieldLine(f: FormField): string {
    "- " + f.name + " (" + f.fieldType + "): " + f.fieldLabel + (if f.required == Some(true) then REQUIRED_MARK else "")
  }

  /** A field's line ends with the required mark when it is marked required, and is the bare description otherwise. */
  lemma RequiredMarked(f: FormField)
    ensures f.required == Some(true) ==> EndsWith(FieldLine(f), REQUIRED_MARK)
    ensures f.required != Some(true) ==> FieldLine(f) == "- " + f.name + " (" + f.fieldType + "): " + f.fieldLabel
  {
    var bare := "- " + f.name + " (" + f.fieldType + "): " + f.fieldLabel;
    if f.required == Some(true) {
      assert FieldLine(f) == bare + REQUIRED_MARK;
      assert (bare + REQUIRED_MARK)[|bare|..] == REQUIRED_MARK;
    } else {
      assert FieldLine(f) == bare + "";
    }
  }

  /** The parts before the field lines: the request and the context, if any, then the fields heading. */
  function FormPreamble(req: FormFillingRequest): seq<string> {
    [FORM_HEADER] + Optional(CONTEXT_LABEL, req.context) + [FIELDS_HEADER]
  }

  function FieldLines(fields: seq<FormField>): (r: seq<string>)
    ensures |r| == |fields| && forall k :: 0 <= k < |fields| ==> r[k] == FieldLine(fields[k])
  {
    Seqs.Map(fields, FieldLine)
  }

  function FormParts(req: FormFillingRequest): seq<string> {
    FormPreamble(req) + FieldLines(req.fields) + FORM_FOOTER
  }

  function FormPrompt(req: FormFillingRequest): string {
    Join(FormParts(req), "\n")
  }

  /** `build_form_prompt`: the preamble, one line per field in order, then the reply format. */
  method BuildFormPrompt(req: FormFillingRequest) returns (prompt: string)
    ensures prompt == FormPrompt(req)
  {
    var parts := [FORM_HEADER];
    if req.context.Some? {
      parts := parts + [CONTEXT_LABEL + req.context.value];
    }
    parts := parts + [FIELDS_HEADER];
    for i := 0 to |req.fields|
      invariant parts == FormPreamble(req) + FieldLines(req.fields[..i])
    {
      assert FieldLines(req.fields[..i + 1]) == FieldLines(req.fields[..i]) + [FieldLine(req.fields[i])];
      parts := parts + [FieldLine(req.fields[i])];
    }
    assert req.fields[..|req.fields|] == req.fields;
    parts := parts + FORM_FOOTER;
    prompt := Join(parts, "\n");
  }

  /** Every field has its line, in the order of the request, right after the preamble. */
  lemma FieldLinesInOrder(req: FormFillingRequest)
    ensures var off := if req.context.Some? then 3 else 2;
      |FormParts(req)| == off + |req.fields| + 3
      && forall k :: 0 <= k < |req.fields| ==> FormParts(req)[off + k] == FieldLine(req.fields[k])
  {
  }

  /** A field is declared when some field of the request has that name. */
  predicate Declared(fields: seq<FormField>, name: string) {
    exists k :: 0 <= k < |fields| && fields[k].name == name
  }

  /** `fields.iter().any(|f| f.name == name)`. */
  method IsDeclared(fields: seq<FormField>, name: string) returns (b: bool)
    ensures b <==> Declared(fields, name)
  {
    for i := 0 to |fields|
      invariant forall k :: 0 <= k < i ==> fields[k].name != name
    {
      if fields[i].name == name {
        return true;
      }
    }
    return false;
  }

  /** The field name and value a reply line gives: the trimmed text on either side of its first colon. */
  function Answer(line: string): Option<(string, string)> {
    var t := Trim(line);
    if t == [] then None
    else match Find(t, ':')
      case None => None
      case Some(c) => Some((Trim(t[..c]), Trim(t[c + 1..])))
  }

  /** The answers the lines give, in order. */
  function AnswersOf(lines: seq<string>): (r: seq<Option<(string, string)>>)
    ensures |r| == |lines|
    decreases |lines|
  {
    if lines == [] then [] else AnswersOf(lines[..|lines| - 1]) + [Answer(lines[|lines| - 1])]
  }

  /** Each line gives its own answer. */
  lemma {:induction false} AnswerAt(lines: seq<string>, k: nat)
    requires k < |lines|
    ensures AnswersOf(lines)[k] == Answer(lines[k])
    decreases |lines|
  {
    var n := |lines| - 1;
    assert AnswersOf(lines) == AnswersOf(lines[..n]) + [Answer(lines[n])];
    if k < n {
      assert AnswersOf(lines[..n])[k] == Answer(lines[k]) by {
        AnswerAt(lines[..n], k);
        assert lines[..n][k] == lines[k];
      }
    }
  }

  /** The answers the lines of a reply give. */
  function Answers(content: string): seq<Option<(string, string)>> {
    AnswersOf(Lines(content))
  }

  /** One answer: it is kept, over any earlier one, when it names a declared field. */
  function Record(values: map<string, string>, fields: seq<FormField>, a: Option<(string, string)>): map<string, string> {
    match a
    case None => values
    case Some(nv) => if Declared(fields, nv.0) then values[nv.0 := nv.1] else values
  }

  function ReadAnswers(answers: seq<Option<(string, string)>>, fields: seq<FormField>): map<string, string>
    decreases |answers|
  {
    if answers == [] then map[]
    else Record(ReadAnswers(answers[..|answers| - 1], fields), fields, answers[|answers| - 1])
  }

  function ParseForm(content: string, fields: seq<FormField>): (r: Result<map<string, string>, CommandError>)
    ensures r.Err? <==> ReadAnswers(Answers(content), fields) == map[]
    ensures r.Err? ==> r.error == New(PARSE_ERROR, FORM_PARSE_MESSAGE)
    ensures r.Ok? ==> r.value == ReadAnswers(Answers(content), fields)
  {
    var values := ReadAnswers(Answers(content), fields);
    if values == map[] then Err(New(PARSE_ERROR, FORM_PARSE_MESSAGE)) else Ok(values)
  }

  /** The loop of `parse_form_response`: the reply's lines read one by one into the map. */
  method ReadFormValues(content: string, fields: seq<FormField>) returns (values: map<string, string>)
    ensures values == ReadAnswers(Answers(content), fields)
  {
    var lines := Lines(content);
    values := map[];
    for i := 0 to |lines|
      invariant values == ReadAnswers(AnswersOf(lines[..i]), fields)
    {
      ReadAnswersSnoc(lines, i, fields);
      values := RecordLine(values, fields, lines[i]);
    }
    assert lines[..|lines|] == lines;
  }

  /** One turn of the loop: a non-blank line with a colon names a field and gives its value. */
  method RecordLine(values: map<string, string>, fields: seq<FormField>, l: string) returns (values': map<string, string>)
    ensures values' == Record(values, fields, Answer(l))
  {
    values' := values;
    var line := Trim(l);
    if line == [] {
      return;
    }
    var colon := Find(line, ':');
    if colon.Some? {
      var name := Trim(line[..colon.value]);
      var value := Trim(line[colon.value + 1..]);
      var known := IsDeclared(fields, name);
      if known {
        values' := values[name := value];
      }
    }
  }

  lemma ReadAnswersSnoc(lines: seq<string>, i: nat, fields: seq<FormField>)
    requires i < |lines|
    ensures ReadAnswers(AnswersOf(lines[..i + 1]), fields)
            == Record(ReadAnswers(AnswersOf(lines[..i]), fields), fields, Answer(lines[i]))
  {
    assert lines[..i + 1][..i] == lines[..i];
  }

  /** `parse_form_response`: the values read from the reply, which must not be empty. */
  method ParseFormResponse(content: string, fields: seq<FormField>) returns (r: Result<map<string, string>, CommandError>)
    ensures r == ParseForm(content, fields)
  {
    var values := ReadFormValues(content, fields);
    if values == map[] {
      return Err(New(PARSE_ERROR, FORM_PARSE_MESSAGE));
    }
    return Ok(values);
  }

  /** A field has a value exactly when it is declared and some answer names it. */
  lemma {:induction false} AnsweredFields(answers: seq<Option<(string, string)>>, fields: seq<FormField>, name: string)
    ensures name in ReadAnswers(answers, fields) <==>
              Declared(fields, name) && exists j :: 0 <= j < |answers| && answers[j].Some? && answers[j].value.0 == name
    decreases |answers|
  {
    if answers != [] {
      var n := |answers| - 1;
      AnsweredFields(answers[..n], fields, name);
      if exists j :: 0 <= j < |answers| && answers[j].Some? && answers[j].value.0 == name {
        var j :| 0 <= j < |answers| && answers[j].Some? && answers[j].value.0 == name;
        if j < n {
          assert answers[..n][j] == answers[j];
        }
      }
      if exists j :: 0 <= j < n && answers[..n][j].Some? && answers[..n][j].value.0 == name {
        var j :| 0 <= j < n && answers[..n][j].Some? && answers[..n][j].value.0 == name;
        assert answers[..n][j] == answers[j];
      }
    }
  }

  /** A field's value is the one of the last answer naming it. */
  lemma {:induction false} LastAnswerWins(answers: seq<Option<(string, string)>>, fields: seq<FormField>, k: nat)
    requires k < |answers| && answers[k].Some? && Declared(fields, answers[k].value.0)
    requires forall j :: k < j < |answers| ==> answers[j].None? || answers[j].value.0 != answers[k].value.0
    ensures answers[k].value.0 in ReadAnswers(answers, fields)
    ensures ReadAnswers(answers, fields)[answers[k].value.0] == answers[k].value.1
    decreases |answers|
  {
    var n := |answers| - 1;
    if k < n {
      assert answers[..n][k] == answers[k];
      assert forall j :: k < j < n ==> answers[..n][j] == answers[j];
      LastAnswerWins(answers[..n], fields, k);
    }
  }

  /** The line the prompt asks for, `field_name: value`. */
  function AnswerLine(a: (string, string)): string {
    a.0 + ": " + a.1
  }

  /** A name free of colons, line breaks and outer white space, and a value free of line breaks and outer white space. */
  predicate PlainAnswer(a: (string, string)) {
    Trimmed(a.0) && ':' !in a.0 && (a.1 == [] || Trimmed(a.1)) && '\n' !in a.0 && '\n' !in a.1
  }

  /** An answer line trims to itself, or loses only its trailing space when the value is empty. */
  lemma AnswerLineTrim(a: (string, string))
    requires PlainAnswer(a)
    ensures Trim(AnswerLine(a)) == if a.1 == [] then a.0 + ":" else AnswerLine(a)
  {
    var line := AnswerLine(a);
    if a.1 == [] {
      var t := a.0 + ":";
      assert line == t + " ";
      assert line[..|line| - 1] == t;
      assert TrimStart(line) == line;
      assert TrimEnd(line) == TrimEnd(t);
      assert TrimEnd(t) == t;
    } else {
      assert line[0] == a.0[0] && line[|line| - 1] == a.1[|a.1| - 1];
      TrimUnchanged(line);
    }
  }

  /** An answer line in the requested format gives back its name and value. */
  lemma AnswerLineRoundTrip(a: (string, string))
    requires PlainAnswer(a)
    ensures Answer(AnswerLine(a)) == Some(a)
  {
    var name, value := a.0, a.1;
    var t := Trim(AnswerLine(a));
    assert t == name + ":" + (if value == [] then [] else " " + value) by {
      AnswerLineTrim(a);
    }
    assert t[..|name|] == name && t[|name|] == ':';
    assert Find(t, ':') == Some(|name|) by {
      FindAt(t, ':', |name|);
    }
    assert Trim(t[..|name|]) == name by {
      TrimUnchanged(name);
    }
    assert Trim(t[|name| + 1..]) == value by {
      if value == [] {
        assert t[|name| + 1..] == [];
      } else {
        assert t[|name| + 1..] == [' '] + value;
        TrimSpacePrefix(value);
        TrimUnchanged(value);
      }
    }
  }

  /** Each answer given, in order, as the reader of a reply returns it. */
  function Given(answers: seq<(string, string)>): seq<Option<(string, string)>> {
    seq(|answers|, k requires 0 <= k < |answers| => Some(answers[k]))
  }

  /** The answers in order, a later one for the same name replacing an earlier one. */
  function AnswersMap(answers: seq<(string, string)>): map<string, string>
    decreases |answers|
  {
    if answers == [] then map[]
    else AnswersMap(answers[..|answers| - 1])[answers[|answers| - 1].0 := answers[|answers| - 1].1]
  }

  /** Recording given answers for declared fields one by one builds the map of the answers. */
  lemma {:induction false} RecordsAnswers(answers: seq<(string, string)>, fields: seq<FormField>)
    requires forall k :: 0 <= k < |answers| ==> Declared(fields, answers[k].0)
    ensures ReadAnswers(Given(answers), fields) == AnswersMap(answers)
    decreases |answers|
  {
    if answers != [] {
      var n := |answers| - 1;
      RecordsAnswers(answers[..n], fields);
      assert Given(answers)[..n] == Given(answers[..n]);
    }
  }

  /** Answer lines in the requested format are non-empty lines without a break or a final carriage return. */
  lemma AnswerLinesAreLines(answers: seq<(string, string)>)
    requires forall k :: 0 <= k < |answers| ==> PlainAnswer(answers[k])
    ensures forall k :: 0 <= k < |answers| ==>
      var l := AnswerLine(answers[k]); l != [] && '\n' !in l && l[|l| - 1] != '\r'
  {
    forall k | 0 <= k < |answers|
      ensures var l := AnswerLine(answers[k]); l != [] && '\n' !in l && l[|l| - 1] != '\r'
    {
      var a := answers[k];
      var l := AnswerLine(a);
      assert l[|l| - 1] == if a.1 == [] then ' ' else a.1[|a.1| - 1];
    }
  }

  /** The answers read from a reply made of answer lines are those answers. */
  lemma AnswersOfAnswerLines(answers: seq<(string, string)>)
    requires forall k :: 0 <= k < |answers| ==> PlainAnswer(answers[k])
    ensures Answers(Join(Seqs.Map(answers, AnswerLine), "\n"))
            == Given(answers)
  {
    var lines := Seqs.Map(answers, AnswerLine);
    assert Lines(Join(lines, "\n")) == lines by {
      AnswerLinesAreLines(answers);
      LinesOfJoin(lines);
    }
    AnswersOfPlainLines(answers);
  }

  /** Each answer line reads back as its answer. */
  lemma AnswersOfPlainLines(answers: seq<(string, string)>)
    requires forall k :: 0 <= k < |answers| ==> PlainAnswer(answers[k])
    ensures AnswersOf(Seqs.Map(answers, AnswerLine))
            == Given(answers)
  {
    var lines := Seqs.Map(answers, AnswerLine);
    forall k | 0 <= k < |answers| ensures AnswersOf(lines)[k] == Some(answers[k]) {
      AnswerAt(lines, k);
      AnswerLineRoundTrip(answers[k]);
    }
  }


  /**
   * A reply made of answer lines in the requested format, for declared
   * fields, parses into exactly those answers.
   */
  lemma RequestedAnswersParse(answers: seq<(string, string)>, fields: seq<FormField>)
    requires answers != []
    requires forall k :: 0 <= k < |answers| ==> PlainAnswer(answers[k])
    requires forall k :: 0 <= k < |answers| ==> Declared(fields, answers[k].0)
    ensures ParseForm(Join(Seqs.Map(answers, AnswerLine), "\n"), fields) == Ok(AnswersMap(answers))
  {
    AnswersOfAnswerLines(answers);
    ParsedAnswers(Join(Seqs.Map(answers, AnswerLine), "\n"), fields, answers);
  }

  /** A reply whose lines give declared answers, at least one, is parsed to those answers, the last one winning. */
  lemma ParsedAnswers(content: string, fields: seq<FormField>, answers: seq<(string, string)>)
    requires answers != []
    requires forall k :: 0 <= k < |answers| ==> Declared(fields, answers[k].0)
    requires Answers(content) == Given(answers)
    ensures ParseForm(content, fields) == Ok(AnswersMap(answers))
  {
    RecordsAnswers(answers, fields);
    AnswersMapNonEmpty(answers);
  }

  /** At least one answer gives at least one value. */
  lemma AnswersMapNonEmpty(answers: seq<(string, string)>)
    requires answers != []
    ensures AnswersMap(answers) != map[]
  {
    assert answers[|answers| - 1].0 in AnswersMap(answers);
  }

  /** Every value belongs to a declared field; there are no more values than fields. */
  lemma {:induction false} OnlyDeclaredFields(answers: seq<Option<(string, string)>>, fields: seq<FormField>)
    ensures forall name :: name in ReadAnswers(answers, fields) ==> Declared(fields, name)
    ensures |ReadAnswers(answers, fields)| <= |fields|
    decreases |answers|
  {
    if answers != [] {
      OnlyDeclaredFields(answers[..|answers| - 1], fields);
    }
    var names := set k | 0 <= k < |fields| :: fields[k].name;
    assert ReadAnswers(answers, fields).Keys <= names;
    NamesAtMostFields(fields);
    assert |ReadAnswers(answers, fields).Keys| <= |names| by {
      SubsetSize(ReadAnswers(answers, fields).Keys, names);
    }
  }

  lemma SubsetSize<T>(a: set<T>, b: set<T>)
    requires a <= b
    ensures |a| <= |b|
  {
    assert b == a + (b - a);
  }

  /** The set of field names is no larger than the list of fields. */
  lemma {:induction false} NamesAtMostFields(fields: seq<FormField>)
    ensures |set k | 0 <= k < |fields| :: fields[k].name| <= |fields|
    decreases |fields|
  {
    if fields != [] {
      var n := |fields| - 1;
      NamesAtMostFields(fields[..n]);
      var before := set k | 0 <= k < n :: fields[..n][k].name;
      var after := set k | 0 <= k < |fields| :: fields[k].name;
      assert after == before + {fields[n].name} by {
        forall x | x in after ensures x in before + {fields[n].name} {
          var k :| 0 <= k < |fields| && fields[k].name == x;
          if k < n { assert fields[..n][k] == fields[k]; }
        }
        forall x | x in before ensures x in after {
          var k :| 0 <= k < n && fields[..n][k].name == x;
          assert fields[k] == fields[..n][k];
        }
      }
    }
  }

  /**
   * `fill_form`: the vault must be open; the prompt goes to the model; a
   * model error becomes `LLM_ERROR`; the reply is read into field values,
   * counted in the metadata.
   */
  function FillForm(vaults: VaultDatabases, vaultId: string, req: FormFillingRequest,
                    complete: string -> Result<string, string>): (r: Result<FormFillingResponse, CommandError>)
    ensures VaultPool(vaults, vaultId).Err? ==> r == Err(VaultPool(vaults, vaultId).error)
    ensures VaultPool(vaults, vaultId).Ok? && complete(FormPrompt(req)).Err? ==>
              r == Err(New("LLM_ERROR", "Failed to fill form: " + complete(FormPrompt(req)).error))
    ensures VaultPool(vaults, vaultId).Ok? && complete(FormPrompt(req)).Ok? ==>
              match ParseForm(complete(FormPrompt(req)).value, req.fields)
              case Err(e) => r == Err(e)
              case Ok(values) => r == Ok(FormFillingResponse(values, Some(FormFillingMetadata("stub", false, |values|))))
  {
    var _ :- VaultPool(vaults, vaultId);
    var content :- match complete(FormPrompt(req))
      case Err(e) => Err(New("LLM_ERROR", "Failed to fill form: " + e))
      case Ok(c) => Ok(c);
    var values :- ParseForm(content, req.fields);
    Ok(FormFillingResponse(values, Some(FormFillingMetadata("stub", false, |values|))))
  }

  /** A filled form reports between one and as many values as there are fields, all for declared fields. */
  lemma FilledCountBounded(vaults: VaultDatabases, vaultId: string, req: FormFillingRequest,
                           complete: string -> Result<string, string>)
    requires FillForm(vaults, vaultId, req, complete).Ok?
    ensures var resp := FillForm(vaults, vaultId, req, complete).value;
      resp.metadata.Some? && 1 <= resp.metadata.value.fieldsFilled <= |req.fields|
      && forall name :: name in resp.values ==> Declared(req.fields, name)
  {
    OnlyDeclaredFields(Answers(complete(FormPrompt(req)).value), req.fields);
  }
}
