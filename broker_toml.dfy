/**
 * The broker-definition checker run before commit: a parsed TOML document is
 * checked section by section and every problem found becomes one diagnostic;
 * the batch driver turns the per-file results into printed lines and an exit
 * code.
 *
 * The checker is dynamically typed: a section or field of the wrong TOML type
 * makes Python raise (`in` on a number, indexing a string, `.startswith` on a
 * list, a list looked up in a set). Such an exception is not caught anywhere,
 * so it is modelled as the outcome `Raised`, which ends the whole batch.
 */
module BrokerToml {
  import opened Wrappers
  import Text

  /** A TOML value as the parser hands it to the checker. */
  datatype Value =
    | Str(s: string)
    | Int(i: int)
    | Bool(b: bool)
      /** A float, its printed form and whether it equals zero. */
    | Float(text: string, isZero: bool)
      /** A date, time or date-time, with what `str` and what `repr` print for it. */
    | DateTime(text: string, reprText: string)
    | Arr(items: seq<Value>)
      /**
       * A table: its entries, and its keys in the order the file lists them,
       * which is the order a Python dict keeps and prints.
       */
    | Table(entries: map<string, Value>, keys: seq<string>)

  /** The top-level table of a document. */
  type Document = map<string, Value>

  /** What reading one file gives. */
  datatype Load =
    | Parsed(doc: Document)
      /** The parser rejected the text; `message` is its explanation. */
    | SyntaxError(message: string)
      /** Opening or decoding the file raised (a directory, no permission, not UTF-8). */
    | ReadFailure

  /** The exceptions the checker can raise and nothing catches. */
  datatype Exception = TypeError | AttributeError | KeyError | ReadError

  /** One diagnostic, kept structured; `Message` gives its printed text. */
  datatype Diag =
    | InvalidSyntax(message: string)
    | MissingSection(section: string)
    | MissingField(section: string, field: string)
    | InvalidCategory(value: Value)
    | InvalidDomain(value: Value)
    | InvalidIdFormat(id: string)
    | IdNotLowercase(id: string)
    | MethodShape
    | InvalidMethod(value: Value)
    | InvalidUrl(url: string)
    | InvalidJurisdiction(value: Value)

  /** The result of checking: the diagnostics, or the exception that ended the run. */
  datatype Outcome = Report(diags: seq<Diag>) | Raised(exc: Exception)

  // ---------------------------------------------------------------------
  // Tables of the checker

  const REQUIRED_SECTIONS: seq<string> := ["broker", "removal"]
  const BROKER_FIELDS: seq<string> := ["id", "name", "domain", "category"]
  const REMOVAL_FIELDS: seq<string> := ["method"]

  function RequiredFields(section: string): seq<string> {
    if section == "broker" then BROKER_FIELDS
    else if section == "removal" then REMOVAL_FIELDS
    else []
  }

  const VALID_CATEGORIES: set<string> := {
    "people-search", "background-check", "data-aggregator", "marketing",
    "social-media", "government-records", "financial", "other"
  }
  const VALID_REMOVAL_METHODS: set<string> := {
    "web-form", "email", "mail", "phone", "api", "account-required"
  }
  const VALID_JURISDICTIONS: set<string> := {
    "ccpa", "gdpr", "vcdpa", "cpa", "ctdpa", "ucpa", "global"
  }

  /** The three sets in ascending order, as the diagnostics list them. */
  const SORTED_CATEGORIES: seq<string> := [
    "background-check", "data-aggregator", "financial", "government-records",
    "marketing", "other", "people-search", "social-media"
  ]
  const SORTED_REMOVAL_METHODS: seq<string> := [
    "account-required", "api", "email", "mail", "phone", "web-form"
  ]
  const SORTED_JURISDICTIONS: seq<string> := [
    "ccpa", "cpa", "ctdpa", "gdpr", "global", "ucpa", "vcdpa"
  ]

  const SKIP_FILES: set<string> := {"schema.toml", "README.md"}

  /** Python's ordering of strings: code point by code point. */
  predicate LexLess(a: string, b: string) {
    |b| > 0 && (|a| == 0 || a[0] < b[0] || (a[0] == b[0] && LexLess(a[1..], b[1..])))
  }

  predicate StrictlySorted(xs: seq<string>) {
    forall i :: 0 < i < |xs| ==> LexLess(xs[i - 1], xs[i])
  }

  /** The list holds exactly the members of the set. */
  ghost predicate Lists(xs: seq<string>, s: set<string>) {
    forall x :: x in xs <==> x in s
  }

  /** Two strings that agree before position `j` and differ there are ordered by that character. */
  lemma {:induction false} LexLessAt(a: string, b: string, j: nat)
    requires j < |a| && j < |b| && a[..j] == b[..j] && a[j] < b[j]
    ensures LexLess(a, b)
  {
    if j > 0 {
      assert a[0] == a[..j][0] == b[..j][0] == b[0];
      assert a[1..][..j - 1] == a[..j][1..] == b[..j][1..] == b[1..][..j - 1];
      LexLessAt(a[1..], b[1..], j - 1);
    }
  }

  /** `sorted(VALID_CATEGORIES)`. */
  lemma SortedCategories()
    ensures Lists(SORTED_CATEGORIES, VALID_CATEGORIES) && StrictlySorted(SORTED_CATEGORIES)
  {
    var xs := SORTED_CATEGORIES;
    forall i | 0 < i < |xs| ensures LexLess(xs[i - 1], xs[i]) {
      LexLessAt(xs[i - 1], xs[i], 0);
    }
  }

  /** `sorted(VALID_REMOVAL_METHODS)`. */
  lemma SortedRemovalMethods()
    ensures Lists(SORTED_REMOVAL_METHODS, VALID_REMOVAL_METHODS) && StrictlySorted(SORTED_REMOVAL_METHODS)
  {
    var xs := SORTED_REMOVAL_METHODS;
    forall i | 0 < i < |xs| ensures LexLess(xs[i - 1], xs[i]) {
      LexLessAt(xs[i - 1], xs[i], if i == 1 then 1 else 0);
    }
  }

  /** `sorted(VALID_JURISDICTIONS)`. */
  lemma SortedJurisdictions()
    ensures Lists(SORTED_JURISDICTIONS, VALID_JURISDICTIONS) && StrictlySorted(SORTED_JURISDICTIONS)
  {
    var xs := SORTED_JURISDICTIONS;
    forall i | 0 < i < |xs| ensures LexLess(xs[i - 1], xs[i]) {
      LexLessAt(xs[i - 1], xs[i], if i == 1 || i == 2 || i == 4 then 1 else 0);
    }
  }

  // ---------------------------------------------------------------------
  // Python operations on values

  /** Python's `key in container`. */
  function In(key: string, container: Value): Result<bool, Exception> {
    match container
    case Str(s) => Ok(Text.Contains(s, key))
    case Arr(items) => Ok(Str(key) in items)
    case Table(m, _) => Ok(key in m)
    case _ => Err(TypeError)
  }

  /** Python's `container[key]`. */
  function Index(container: Value, key: string): Result<Value, Exception> {
    match container
    case Table(m, _) => if key in m then Ok(m[key]) else Err(KeyError)
    case _ => Err(TypeError)
  }

  /** Python's `v in allowed` for a set of strings: lists and tables are unhashable. */
  function InSet(v: Value, allowed: set<string>): Result<bool, Exception> {
    match v
    case Str(s) => Ok(s in allowed)
    case Arr(_) => Err(TypeError)
    case Table(_, _) => Err(TypeError)
    case _ => Ok(false)
  }

  /** Python's truth value of `v`. */
  predicate Truthy(v: Value) {
    match v
    case Str(s) => s != ""
    case Int(i) => i != 0
    case Bool(b) => b
    case Float(_, isZero) => !isZero
    case DateTime(_, _) => true
    case Arr(items) => items != []
    case Table(m, _) => m != map[]
  }

  /** Python's `str(v)`, as an f-string prints it: a list or a dict prints as its `repr`. */
  function Render(v: Value): string {
    match v
    case Str(s) => s
    case Arr(_) => ReprOf(v)
    case Table(_, _) => ReprOf(v)
    case Int(i) => Text.IntToString(i)
    case Bool(b) => if b then "True" else "False"
    case Float(text, _) => text
    case DateTime(text, _) => text
  }

  /**
   * The quote `repr` puts around a string: a single quote, unless the string
   * holds a single quote and no double quote.
   */
  function QuoteFor(s: string): char {
    if '\'' in s && '"' !in s then '"' else '\''
  }

  function HexDigit(n: nat): char
    requires n < 16
  {
    if n < 10 then ('0' as int + n) as char else ('a' as int + n - 10) as char
  }

  /**
   * Python's `repr` of one character of a string quoted with `quote`: the
   * backslash and the quote are escaped, tab, line feed and carriage return
   * get their short escapes, and the other characters Python does not print
   * in ASCII and Latin-1 (controls, U+007F to U+00A0, the soft hyphen) are
   * written `\xNN`.
   */
  function ReprChar(c: char, quote: char): string {
    if c == '\\' || c == quote then ['\\', c]
    else if c == '\t' then "\\t"
    else if c == '\n' then "\\n"
    else if c == '\r' then "\\r"
    else if c < ' ' || ('\U{7F}' <= c <= '\U{A0}') || c == '\U{AD}' then
      ['\\', 'x', HexDigit(c as int / 16), HexDigit(c as int % 16)]
    else [c]
  }

  function ReprChars(s: string, quote: char): string {
    if s == [] then "" else ReprChar(s[0], quote) + ReprChars(s[1..], quote)
  }

  /** Python's `repr` of a string. */
  function ReprStr(s: string): string {
    var q := QuoteFor(s);
    [q] + ReprChars(s, q) + [q]
  }

  /** Python's `repr(v)`, used for the items of a list and the keys and values of a dict. */
  function ReprOf(v: Value): string
    decreases v, 1
  {
    match v
    case Str(s) => ReprStr(s)
    case Arr(items) => "[" + ReprItems(items) + "]"
    case Table(_, keys) => "{" + ReprEntries(v, keys) + "}"
    case Int(i) => Text.IntToString(i)
    case Bool(b) => if b then "True" else "False"
    case Float(text, _) => text
    case DateTime(_, text) => text
  }

  function ReprItems(items: seq<Value>): string
    decreases items, 0
  {
    if items == [] then ""
    else if |items| == 1 then ReprOf(items[0])
    else ReprOf(items[0]) + ", " + ReprItems(items[1..])
  }

  /** The entries of the dict `t` in the order of `keys`, as `key: value` joined by `, `. */
  function ReprEntries(t: Value, keys: seq<string>): string
    requires t.Table?
    decreases t, 0, |keys|
  {
    if keys == [] then ""
    else
      var here := if keys[0] in t.entries then ReprStr(keys[0]) + ": " + ReprOf(t.entries[keys[0]]) else "";
      if |keys| == 1 then here
      else if here == "" then ReprEntries(t, keys[1..])
      else
        var rest := ReprEntries(t, keys[1..]);
        if rest == "" then here else here + ", " + rest
  }

  /** The printed text of a diagnostic. */
  function Message(d: Diag): string {
    match d
    case InvalidSyntax(m) => "Invalid TOML syntax: " + m
    case MissingSection(s) => "Missing required section: [" + s + "]"
    case MissingField(s, f) => "Missing required field: " + s + "." + f
    case InvalidCategory(v) =>
      "Invalid category '" + Render(v) + "'. Must be one of: " + Text.Join(SORTED_CATEGORIES, ", ")
    case InvalidDomain(v) =>
      "Invalid domain '" + Render(v) + "'. Should be just the domain (e.g., 'spokeo.com')"
    case InvalidIdFormat(id) => "Invalid broker ID '" + id + "'. Use lowercase alphanumeric with hyphens."
    case IdNotLowercase(id) => "Broker ID '" + id + "' must be lowercase."
    case MethodShape => "removal.method must be a string or array of strings"
    case InvalidMethod(v) =>
      "Invalid removal method '" + Render(v) + "'. Must be one of: " + Text.Join(SORTED_REMOVAL_METHODS, ", ")
    case InvalidUrl(u) => "removal.url must be a full URL, got '" + u + "'"
    case InvalidJurisdiction(v) =>
      "Invalid jurisdiction '" + Render(v) + "'. Must be one of: " + Text.Join(SORTED_JURISDICTIONS, ", ")
  }

  /** Run `a`, then `b`; the first exception ends the run, otherwise the diagnostics add up. */
  function Then(a: Outcome, b: Outcome): Outcome {
    if a.Raised? then a else if b.Raised? then b else Report(a.diags + b.diags)
  }

  // ---------------------------------------------------------------------
  // The required-field pass

  /** The inner loop: one `MissingField` per field of `fields` absent from `body`. */
  function MissingFields(section: string, fields: seq<string>, body: Value): Outcome
    decreases |fields|
  {
    if fields == [] then Report([])
    else
      match In(fields[0], body)
      case Err(e) => Raised(e)
      case Ok(present) =>
        Then(Report(if present then [] else [MissingField(section, fields[0])]),
             MissingFields(section, fields[1..], body))
  }

  /** The outer loop over the required sections. */
  function RequiredPass(doc: Document, sections: seq<string>): Outcome
    decreases |sections|
  {
    if sections == [] then Report([])
    else
      Then(RequiredIn(doc, sections[0]), RequiredPass(doc, sections[1..]))
  }

  /** The required-field check of one section. */
  function RequiredIn(doc: Document, s: string): Outcome {
    if s !in doc then Report([MissingSection(s)])
    else MissingFields(s, RequiredFields(s), doc[s])
  }

  // ---------------------------------------------------------------------
  // The [broker] section

  function CheckCategory(broker: Value): Outcome {
    match In("category", broker)
    case Err(e) => Raised(e)
    case Ok(has) =>
      if !has then Report([])
      else
        match Index(broker, "category")
        case Err(e) => Raised(e)
        case Ok(v) =>
          match InSet(v, VALID_CATEGORIES)
          case Err(e) => Raised(e)
          case Ok(valid) => Report(if valid then [] else [InvalidCategory(v)])
  }

  /** Python's `v.startswith(prefix)`: only strings have the method. */
  function StartsWithMethod(v: Value, prefix: string): Result<bool, Exception> {
    match v
    case Str(s) => Ok(Text.StartsWith(s, prefix))
    case _ => Err(AttributeError)
  }

  /** `not domain or " " in domain or domain.startswith("http")`, evaluated left to right. */
  function DomainRejected(domain: Value): Result<bool, Exception> {
    if !Truthy(domain) then Ok(true)
    else
      match In(" ", domain)
      case Err(e) => Err(e)
      case Ok(spaced) => if spaced then Ok(true) else StartsWithMethod(domain, "http")
  }

  function CheckDomain(broker: Value): Outcome {
    match In("domain", broker)
    case Err(e) => Raised(e)
    case Ok(has) =>
      if !has then Report([])
      else
        match Index(broker, "domain")
        case Err(e) => Raised(e)
        case Ok(d) =>
          match DomainRejected(d)
          case Err(e) => Raised(e)
          case Ok(bad) => Report(if bad then [InvalidDomain(d)] else [])
  }

  /**
   * Python's `str.isalnum`: at least one character, each a letter or a
   * numeric character. Letters and numerals are those of ASCII and Latin-1;
   * the Unicode classes beyond U+00FF are not part of this model.
   */
  predicate IsAlnum(s: string) {
    s != [] && forall k :: 0 <= k < |s| ==> Text.IsAlphanumeric(s[k])
  }

  /** `id.replace("-", "").replace("_", "")`. */
  function StripSeparators(id: string): string {
    Text.Replace(Text.Replace(id, "-", ""), "_", "")
  }

  function CheckId(broker: Value): Outcome {
    match In("id", broker)
    case Err(e) => Raised(e)
    case Ok(has) =>
      if !has then Report([])
      else
        match Index(broker, "id")
        case Err(e) => Raised(e)
        case Ok(v) =>
          match v
          case Str(id) =>
            Report((if !IsAlnum(StripSeparators(id)) then [InvalidIdFormat(id)] else [])
                   + (if id != Text.ToLowercase(id) then [IdNotLowercase(id)] else []))
          // a date or time has a `replace` method, which rejects string arguments
          case DateTime(_, _) => Raised(TypeError)
          case _ => Raised(AttributeError)
  }

  function CheckBroker(broker: Value): Outcome {
    Then(CheckCategory(broker), Then(CheckDomain(broker), CheckId(broker)))
  }

  // ---------------------------------------------------------------------
  // The [removal] section

  /** `[method] if str else method if list else []`. */
  function MethodList(m: Value): seq<Value> {
    match m
    case Str(_) => [m]
    case Arr(items) => items
    case _ => []
  }

  /** The loop over the methods: one diagnostic per entry outside the method set. */
  function CheckMethodEntries(methods: seq<Value>): Outcome
    decreases |methods|
  {
    if methods == [] then Report([])
    else
      match InSet(methods[0], VALID_REMOVAL_METHODS)
      case Err(e) => Raised(e)
      case Ok(valid) =>
        Then(Report(if valid then [] else [InvalidMethod(methods[0])]), CheckMethodEntries(methods[1..]))
  }

  function CheckMethod(removal: Value): Outcome {
    match In("method", removal)
    case Err(e) => Raised(e)
    case Ok(has) =>
      if !has then Report([])
      else
        match Index(removal, "method")
        case Err(e) => Raised(e)
        case Ok(v) =>
          var methods := MethodList(v);
          Then(Report(if methods == [] then [MethodShape] else []), CheckMethodEntries(methods))
  }

  function CheckUrl(removal: Value): Outcome {
    match In("url", removal)
    case Err(e) => Raised(e)
    case Ok(has) =>
      if !has then Report([])
      else
        match Index(removal, "url")
        case Err(e) => Raised(e)
        case Ok(v) =>
          match v
          case Str(url) =>
            Report(if Text.StartsWith(url, "http://") || Text.StartsWith(url, "https://") then []
                   else [InvalidUrl(url)])
          case _ => Raised(AttributeError)
  }

  function CheckRemoval(removal: Value): Outcome {
    Then(CheckMethod(removal), CheckUrl(removal))
  }

  // ---------------------------------------------------------------------
  // The jurisdictions list

  /** The loop over the entries: only tables holding `law` are looked at. */
  function CheckJurisdictionEntries(entries: seq<Value>): Outcome
    decreases |entries|
  {
    if entries == [] then Report([])
    else
      var here :=
        match entries[0]
        case Table(m, _) =>
          if "law" in m then
            match InSet(m["law"], VALID_JURISDICTIONS)
            case Err(e) => Raised(e)
            case Ok(valid) => Report(if valid then [] else [InvalidJurisdiction(m["law"])])
          else Report([])
        case _ => Report([]);
      Then(here, CheckJurisdictionEntries(entries[1..]))
  }

  /** `for jurisdiction in jurisdictions`: a string yields characters and a table yields keys, never tables. */
  function CheckJurisdictions(jurisdictions: Value): Outcome {
    match jurisdictions
    case Arr(items) => CheckJurisdictionEntries(items)
    case Str(_) => Report([])
    case Table(_, _) => Report([])
    case _ => Raised(TypeError)
  }

  // ---------------------------------------------------------------------
  // One file

  function SectionCheck(doc: Document, section: string): Outcome {
    if section !in doc then Report([])
    else if section == "broker" then CheckBroker(doc[section])
    else if section == "removal" then CheckRemoval(doc[section])
    else if section == "jurisdictions" then CheckJurisdictions(doc[section])
    else Report([])
  }

  /** `validate_broker_toml`: all diagnostics of one file, in the order they are found. */
  function ValidateFile(load: Load): Outcome {
    match load
    case SyntaxError(m) => Report([InvalidSyntax(m)])
    case ReadFailure => Raised(ReadError)
    case Parsed(doc) =>
      if doc == map[] then Report([])
      else
        Then(RequiredPass(doc, REQUIRED_SECTIONS),
             Then(SectionCheck(doc, "broker"),
                  Then(SectionCheck(doc, "removal"), SectionCheck(doc, "jurisdictions"))))
  }
}

// The properties of the checker, and the batch driver, in a module of their own.
module BrokerTomlProperties {
  import opened Wrappers
  import opened BrokerToml
  import Text
  import Seqs

  // ---------------------------------------------------------------------
  // Early exits

  /** A syntax error gives exactly one diagnostic; an empty document gives none. */
  lemma EarlyExits(message: string)
    ensures ValidateFile(SyntaxError(message)) == Report([InvalidSyntax(message)])
    ensures ValidateFile(Parsed(map[])) == Report([])
  {
  }

  // ---------------------------------------------------------------------
  // The required-field pass

  function AbsentFrom(m: map<string, Value>): string -> bool {
    f => f !in m
  }

  function MissingIn(section: string): string -> Diag {
    f => MissingField(section, f)
  }

  /** What the pass should report for one section, stated with filter and map. */
  function ExpectedMissing(doc: Document, section: string): seq<Diag>
    requires section in doc ==> doc[section].Table?
  {
    if section !in doc then [MissingSection(section)]
    else Seqs.Map(Seqs.Filter(RequiredFields(section), AbsentFrom(doc[section].entries)), MissingIn(section))
  }

  lemma {:induction false} MissingFieldsOfTable(section: string, fields: seq<string>, m: map<string, Value>,
                                                 keys: seq<string>)
    ensures MissingFields(section, fields, Table(m, keys))
            == Report(Seqs.Map(Seqs.Filter(fields, AbsentFrom(m)), MissingIn(section)))
    decreases |fields|
  {
    if fields != [] {
      var f := fields[0];
      var kept: seq<string> := if f !in m then [f] else [];
      var rest := Seqs.Filter(fields[1..], AbsentFrom(m));
      var here := Seqs.Map(kept, MissingIn(section));
      assert here == if f !in m then [MissingField(section, f)] else [];
      assert MissingFields(section, fields, Table(m, keys)) == Report(here + Seqs.Map(rest, MissingIn(section))) by {
        MissingFieldsOfTable(section, fields[1..], m, keys);
      }
      assert Seqs.Filter(fields, AbsentFrom(m)) == kept + rest;
      assert Seqs.Map(kept + rest, MissingIn(section)) == here + Seqs.Map(rest, MissingIn(section)) by {
        Seqs.MapAppend(kept, rest, MissingIn(section));
      }
    }
  }

  lemma RequiredInExact(doc: Document, section: string)
    requires section in doc ==> doc[section].Table?
    ensures RequiredIn(doc, section) == Report(ExpectedMissing(doc, section))
  {
    if section in doc {
      MissingFieldsOfTable(section, RequiredFields(section), doc[section].entries, doc[section].keys);
    }
  }

  /**
   * A missing section gives exactly one `MissingSection` and none of its field
   * checks; a present section gives one `MissingField` per absent field, in the
   * order the manifest lists them; `broker` comes before `removal`.
   */
  lemma RequiredPassExact(doc: Document)
    requires forall s :: s in REQUIRED_SECTIONS && s in doc ==> doc[s].Table?
    ensures RequiredPass(doc, REQUIRED_SECTIONS)
            == Report(ExpectedMissing(doc, "broker") + ExpectedMissing(doc, "removal"))
  {
    assert REQUIRED_SECTIONS[1..] == ["removal"];
    assert REQUIRED_SECTIONS[1..][1..] == [];
    RequiredInExact(doc, "broker");
    RequiredInExact(doc, "removal");
    assert RequiredPass(doc, REQUIRED_SECTIONS)
        == Then(RequiredIn(doc, "broker"), Then(RequiredIn(doc, "removal"), Report([])));
  }

  /** A required section that is a number, boolean or date cannot be searched: the run ends. */
  lemma ScalarSectionRaises(doc: Document, section: string)
    requires section in REQUIRED_SECTIONS && section in doc
    requires !doc[section].Str? && !doc[section].Arr? && !doc[section].Table?
    ensures ValidateFile(Parsed(doc)).Raised?
  {
    assert REQUIRED_SECTIONS[1..] == ["removal"];
  }

  // ---------------------------------------------------------------------
  // Order of the phases

  /** Which part of the checker reports a diagnostic. */
  function Phase(d: Diag): nat {
    match d
    case InvalidSyntax(_) => 0
    case MissingSection(_) => 0
    case MissingField(_, _) => 0
    case InvalidCategory(_) => 1
    case InvalidDomain(_) => 1
    case InvalidIdFormat(_) => 1
    case IdNotLowercase(_) => 1
    case MethodShape => 2
    case InvalidMethod(_) => 2
    case InvalidUrl(_) => 2
    case InvalidJurisdiction(_) => 3
  }

  function OfPhase(ds: seq<Diag>, p: nat): (r: seq<Diag>) {
    if ds == [] then [] else (if Phase(ds[0]) == p then [ds[0]] else []) + OfPhase(ds[1..], p)
  }

  lemma {:induction false} OfPhaseAppend(a: seq<Diag>, b: seq<Diag>, p: nat)
    ensures OfPhase(a + b, p) == OfPhase(a, p) + OfPhase(b, p)
  {
    if a != [] {
      assert (a + b)[1..] == a[1..] + b;
      OfPhaseAppend(a[1..], b, p);
    } else {
      assert a + b == b;
    }
  }

  lemma {:induction false} OfPhaseSame(ds: seq<Diag>, p: nat, q: nat)
    requires forall d :: d in ds ==> Phase(d) == q
    ensures OfPhase(ds, p) == if p == q then ds else []
  {
    if ds != [] { OfPhaseSame(ds[1..], p, q); }
  }

  predicate AllInPhase(o: Outcome, p: nat) {
    o.Report? ==> forall d :: d in o.diags ==> Phase(d) == p
  }

  lemma {:induction false} MissingFieldsPhase(section: string, fields: seq<string>, body: Value)
    ensures AllInPhase(MissingFields(section, fields, body), 0)
    decreases |fields|
  {
    if fields != [] { MissingFieldsPhase(section, fields[1..], body); }
  }

  lemma {:induction false} RequiredPassPhase(doc: Document, sections: seq<string>)
    ensures AllInPhase(RequiredPass(doc, sections), 0)
    decreases |sections|
  {
    if sections != [] {
      if sections[0] in doc { MissingFieldsPhase(sections[0], RequiredFields(sections[0]), doc[sections[0]]); }
      RequiredPassPhase(doc, sections[1..]);
    }
  }

  lemma {:induction false} MethodEntriesPhase(methods: seq<Value>)
    ensures AllInPhase(CheckMethodEntries(methods), 2)
    decreases |methods|
  {
    if methods != [] { MethodEntriesPhase(methods[1..]); }
  }

  lemma {:induction false} JurisdictionEntriesPhase(entries: seq<Value>)
    ensures AllInPhase(CheckJurisdictionEntries(entries), 3)
    decreases |entries|
  {
    if entries != [] { JurisdictionEntriesPhase(entries[1..]); }
  }

  lemma SectionPhases(doc: Document)
    ensures AllInPhase(SectionCheck(doc, "broker"), 1)
    ensures AllInPhase(SectionCheck(doc, "removal"), 2)
    ensures AllInPhase(SectionCheck(doc, "jurisdictions"), 3)
  {
    if "broker" in doc { BrokerPhase(doc["broker"]); }
    if "removal" in doc { RemovalPhase(doc["removal"]); }
    if "jurisdictions" in doc { JurisdictionsPhase(doc["jurisdictions"]); }
  }

  lemma BrokerPhase(broker: Value)
    ensures AllInPhase(CheckBroker(broker), 1)
  {
    var c, d, i := CheckCategory(broker), CheckDomain(broker), CheckId(broker);
    assert AllInPhase(c, 1);
    assert AllInPhase(d, 1);
    assert AllInPhase(i, 1);
    ThenPhase(d, i, 1);
    ThenPhase(c, Then(d, i), 1);
  }

  lemma ThenPhase(a: Outcome, b: Outcome, p: nat)
    requires AllInPhase(a, p) && AllInPhase(b, p)
    ensures AllInPhase(Then(a, b), p)
  {
  }

  lemma RemovalPhase(removal: Value)
    ensures AllInPhase(CheckRemoval(removal), 2)
  {
    if In("method", removal) == Ok(true) && Index(removal, "method").Ok? {
      MethodEntriesPhase(MethodList(Index(removal, "method").value));
    }
  }

  lemma JurisdictionsPhase(jurisdictions: Value)
    ensures AllInPhase(CheckJurisdictions(jurisdictions), 3)
  {
    if jurisdictions.Arr? {
      JurisdictionEntriesPhase(jurisdictions.items);
    }
  }

  predicate PhaseSorted(ds: seq<Diag>) {
    forall i, j :: 0 <= i < j < |ds| ==> Phase(ds[i]) <= Phase(ds[j])
  }

  lemma SortedConcat(a: seq<Diag>, b: seq<Diag>)
    requires PhaseSorted(a) && PhaseSorted(b)
    requires forall x, y :: x in a && y in b ==> Phase(x) <= Phase(y)
    ensures PhaseSorted(a + b)
  {
    forall i, j | 0 <= i < j < |a + b| ensures Phase((a + b)[i]) <= Phase((a + b)[j]) {
      if j < |a| {
      } else if i >= |a| {
        assert (a + b)[i] == b[i - |a|] && (a + b)[j] == b[j - |a|];
      } else {
        assert (a + b)[i] in a && (a + b)[j] in b;
      }
    }
  }

  lemma SamePhaseSorted(ds: seq<Diag>, q: nat)
    requires forall d :: d in ds ==> Phase(d) == q
    ensures PhaseSorted(ds)
  {
    forall i, j | 0 <= i < j < |ds| ensures Phase(ds[i]) <= Phase(ds[j]) {
      assert ds[i] in ds && ds[j] in ds;
    }
  }

  lemma FourSorted(r0: seq<Diag>, r1: seq<Diag>, r2: seq<Diag>, r3: seq<Diag>)
    requires forall d :: d in r0 ==> Phase(d) == 0
    requires forall d :: d in r1 ==> Phase(d) == 1
    requires forall d :: d in r2 ==> Phase(d) == 2
    requires forall d :: d in r3 ==> Phase(d) == 3
    ensures PhaseSorted(r0 + (r1 + (r2 + r3)))
  {
    SamePhaseSorted(r0, 0);
    SamePhaseSorted(r1, 1);
    SamePhaseSorted(r2, 2);
    SamePhaseSorted(r3, 3);
    SortedConcat(r2, r3);
    SortedConcat(r1, r2 + r3);
    SortedConcat(r0, r1 + (r2 + r3));
  }

  lemma FourSplit(r0: seq<Diag>, r1: seq<Diag>, r2: seq<Diag>, r3: seq<Diag>, p: nat)
    ensures OfPhase(r0 + (r1 + (r2 + r3)), p)
            == OfPhase(r0, p) + (OfPhase(r1, p) + (OfPhase(r2, p) + OfPhase(r3, p)))
  {
    OfPhaseAppend(r0, r1 + (r2 + r3), p);
    OfPhaseAppend(r1, r2 + r3, p);
    OfPhaseAppend(r2, r3, p);
  }

  /** Four runs of diagnostics of phases 0 to 3, one after the other. */
  lemma FourPhases(r0: seq<Diag>, r1: seq<Diag>, r2: seq<Diag>, r3: seq<Diag>)
    requires forall d :: d in r0 ==> Phase(d) == 0
    requires forall d :: d in r1 ==> Phase(d) == 1
    requires forall d :: d in r2 ==> Phase(d) == 2
    requires forall d :: d in r3 ==> Phase(d) == 3
    ensures var ds := r0 + (r1 + (r2 + r3));
      && PhaseSorted(ds)
      && OfPhase(ds, 0) == r0 && OfPhase(ds, 1) == r1 && OfPhase(ds, 2) == r2 && OfPhase(ds, 3) == r3
  {
    FourSorted(r0, r1, r2, r3);
    PickPhase(r0, r1, r2, r3, 0);
    PickPhase(r0, r1, r2, r3, 1);
    PickPhase(r0, r1, r2, r3, 2);
    PickPhase(r0, r1, r2, r3, 3);
  }

  lemma PickPhase(r0: seq<Diag>, r1: seq<Diag>, r2: seq<Diag>, r3: seq<Diag>, p: nat)
    requires p <= 3
    requires forall d :: d in r0 ==> Phase(d) == 0
    requires forall d :: d in r1 ==> Phase(d) == 1
    requires forall d :: d in r2 ==> Phase(d) == 2
    requires forall d :: d in r3 ==> Phase(d) == 3
    ensures OfPhase(r0 + (r1 + (r2 + r3)), p) == [r0, r1, r2, r3][p]
  {
    FourSplit(r0, r1, r2, r3, p);
    var o0, o1, o2, o3 := OfPhase(r0, p), OfPhase(r1, p), OfPhase(r2, p), OfPhase(r3, p);
    assert o0 == if p == 0 then r0 else [] by { OfPhaseSame(r0, p, 0); }
    assert o1 == if p == 1 then r1 else [] by { OfPhaseSame(r1, p, 1); }
    assert o2 == if p == 2 then r2 else [] by { OfPhaseSame(r2, p, 2); }
    assert o3 == if p == 3 then r3 else [] by { OfPhaseSame(r3, p, 3); }
  }

  /**
   * Diagnostics come in phase order (required fields, broker, removal,
   * jurisdictions), and the diagnostics of each phase are exactly what that
   * checker reports on its own: no failure suppresses a later check.
   */
  lemma PhasesInOrder(doc: Document)
    requires doc != map[] && ValidateFile(Parsed(doc)).Report?
    ensures var ds := ValidateFile(Parsed(doc)).diags;
      && PhaseSorted(ds)
      && OfPhase(ds, 0) == RequiredPass(doc, REQUIRED_SECTIONS).diags
      && OfPhase(ds, 1) == SectionCheck(doc, "broker").diags
      && OfPhase(ds, 2) == SectionCheck(doc, "removal").diags
      && OfPhase(ds, 3) == SectionCheck(doc, "jurisdictions").diags
  {
    var r0 := RequiredPass(doc, REQUIRED_SECTIONS);
    var r1, r2, r3 := SectionCheck(doc, "broker"), SectionCheck(doc, "removal"), SectionCheck(doc, "jurisdictions");
    RequiredPassPhase(doc, REQUIRED_SECTIONS);
    SectionPhases(doc);
    assert r0.Report? && r1.Report? && r2.Report? && r3.Report?;
    assert ValidateFile(Parsed(doc)).diags == r0.diags + (r1.diags + (r2.diags + r3.diags));
    FourPhases(r0.diags, r1.diags, r2.diags, r3.diags);
  }
}

// Exact results of the section checks, and the batch driver.
module BrokerTomlSections {
  import opened Wrappers
  import opened BrokerToml
  import Text
  import Seqs

  // ---------------------------------------------------------------------
  // [broker]

  /** The domain rule on a string: empty, holding a space, or starting with `http`. */
  predicate BadDomain(d: string) {
    d == "" || ' ' in d || Text.StartsWith(d, "http")
  }

  /** What the category rule reports on a string category. */
  function CategoryDiags(m: map<string, Value>): seq<Diag>
    requires "category" in m ==> m["category"].Str?
  {
    if "category" in m && m["category"].s !in VALID_CATEGORIES then [InvalidCategory(m["category"])] else []
  }

  /** What the domain rule reports on a string domain. */
  function DomainDiags(m: map<string, Value>): seq<Diag>
    requires "domain" in m ==> m["domain"].Str?
  {
    if "domain" in m && BadDomain(m["domain"].s) then [InvalidDomain(m["domain"])] else []
  }

  /** What the two id rules report on a string id: the format rule, then the lowercase rule. */
  function IdDiags(m: map<string, Value>): seq<Diag>
    requires "id" in m ==> m["id"].Str?
  {
    if "id" !in m then []
    else
      var id := m["id"].s;
      (if !IsAlnum(StripSeparators(id)) then [InvalidIdFormat(id)] else [])
      + (if id != Text.ToLowercase(id) then [IdNotLowercase(id)] else [])
  }

  /**
   * With string values, the three broker checks are independent: the category,
   * the domain and the id are each reported on their own, in that order, and
   * the id can fail both its format rule and its lowercase rule.
   */
  lemma BrokerStringFields(m: map<string, Value>, keys: seq<string>)
    requires "category" in m ==> m["category"].Str?
    requires "domain" in m ==> m["domain"].Str?
    requires "id" in m ==> m["id"].Str?
    ensures CheckBroker(Table(m, keys)) == Report(CategoryDiags(m) + DomainDiags(m) + IdDiags(m))
  {
    var c, d, i := CategoryDiags(m), DomainDiags(m), IdDiags(m);
    StringCategory(m, keys);
    StringDomain(m, keys);
    StringId(m, keys);
    assert c + (d + i) == c + d + i;
  }

  lemma StringCategory(m: map<string, Value>, keys: seq<string>)
    requires "category" in m ==> m["category"].Str?
    ensures CheckCategory(Table(m, keys)) == Report(CategoryDiags(m))
  {
  }

  lemma StringDomain(m: map<string, Value>, keys: seq<string>)
    requires "domain" in m ==> m["domain"].Str?
    ensures CheckDomain(Table(m, keys)) == Report(DomainDiags(m))
  {
    if "domain" in m {
      Text.ContainsChar(m["domain"].s, ' ');
      assert " " == [' '];
    }
  }

  lemma StringId(m: map<string, Value>, keys: seq<string>)
    requires "id" in m ==> m["id"].Str?
    ensures CheckId(Table(m, keys)) == Report(IdDiags(m))
  {
  }

  lemma IdRules(id: string)
    ensures CheckId(Table(map["id" := Str(id)], ["id"]))
            == Report((if !IsAlnum(StripSeparators(id)) then [InvalidIdFormat(id)] else [])
                      + (if id != Text.ToLowercase(id) then [IdNotLowercase(id)] else []))
  {
  }

  /** An id without separators is left alone by their removal. */
  lemma NoSeparators(id: string)
    requires '-' !in id && '_' !in id
    ensures StripSeparators(id) == id
  {
    Text.NoCharNoPattern(id, "-", '-');
    Text.ReplaceAbsent(id, "-", "");
    Text.NoCharNoPattern(id, "_", '_');
    Text.ReplaceAbsent(id, "_", "");
  }

  /** An id of lowercase letters and digits passes both id rules. */
  lemma LowercaseIdAccepted(id: string)
    requires id != []
    requires forall k :: 0 <= k < |id| ==> Text.IsAsciiLower(id[k]) || Text.IsAsciiDigit(id[k])
    ensures CheckId(Table(map["id" := Str(id)], ["id"])) == Report([])
  {
    assert StripSeparators(id) == id by {
      assert forall k :: 0 <= k < |id| ==> id[k] != '-' && id[k] != '_';
      NoSeparators(id);
    }
    IdRules(id);
  }

  lemma PlainIdAccepted()
    ensures CheckId(Table(map["id" := Str("spokeo")], ["id"])) == Report([])
  {
    LowercaseIdAccepted("spokeo");
  }

  lemma StripCapitalised()
    ensures StripSeparators("Spokeo-1") == "Spokeo1"
  {
    assert "Spokeo-1" == "Spokeo" + ['-'] + "1";
    Text.ReplaceFirstChar("Spokeo", '-', "1", "");
    Text.NoCharNoPattern("1", "-", '-');
    Text.ReplaceAbsent("1", "-", "");
    assert Text.Replace("Spokeo-1", "-", "") == "Spokeo1";
    Text.NoCharNoPattern("Spokeo1", "_", '_');
    Text.ReplaceAbsent("Spokeo1", "_", "");
  }

  lemma CapitalisedFacts()
    ensures IsAlnum(StripSeparators("Spokeo-1"))
    ensures Text.ToLowercase("Spokeo-1") != "Spokeo-1"
  {
    StripCapitalised();
    assert Text.ToLowercase("Spokeo-1")[0] == 's';
  }

  /** Capitals break only the lowercase rule: the separator is removed before the format rule. */
  lemma CapitalisedIdRejected()
    ensures CheckId(Table(map["id" := Str("Spokeo-1")], ["id"])) == Report([IdNotLowercase("Spokeo-1")])
  {
    IdRules("Spokeo-1");
    CapitalisedFacts();
  }

  /**
   * A lowercase id with a character that is neither a letter, a digit nor a
   * separator breaks only the format rule.
   */
  lemma PunctuatedRejected(id: string, j: nat)
    requires j < |id| && !Text.IsAlphanumeric(id[j])
    requires forall k :: 0 <= k < |id| ==> Text.ToLowerChar(id[k]) == id[k] && id[k] != '-' && id[k] != '_'
    ensures CheckId(Table(map["id" := Str(id)], ["id"])) == Report([InvalidIdFormat(id)])
  {
    assert StripSeparators(id) == id by { NoSeparators(id); }
    IdRules(id);
  }

  lemma PunctuatedIdRejected()
    ensures CheckId(Table(map["id" := Str("spokeo!")], ["id"])) == Report([InvalidIdFormat("spokeo!")])
  {
    PunctuatedRejected("spokeo!", 6);
  }

  lemma AccentedFacts()
    ensures StripSeparators("caf\U{E9}") == "caf\U{E9}" && IsAlnum("caf\U{E9}")
    ensures Text.ToLowercase("caf\U{E9}") == "caf\U{E9}"
    ensures StripSeparators("\U{C9}") == "\U{C9}" && IsAlnum("\U{C9}")
    ensures Text.ToLowercase("\U{C9}") != "\U{C9}"
  {
    NoSeparators("caf\U{E9}");
    NoSeparators("\U{C9}");
    assert Text.ToLowercase("\U{C9}")[0] == '\U{E9}';
  }

  /**
   * The id rules apply to letters beyond ASCII as Python does: an accented
   * lowercase id passes both, and an accented capital passes the format rule
   * and fails only the lowercase rule.
   */
  lemma AccentedIds()
    ensures CheckId(Table(map["id" := Str("caf\U{E9}")], ["id"])) == Report([])
    ensures CheckId(Table(map["id" := Str("\U{C9}")], ["id"])) == Report([IdNotLowercase("\U{C9}")])
  {
    AccentedFacts();
    IdRules("caf\U{E9}");
    IdRules("\U{C9}");
  }

  /**
   * Characters `repr` prints as they are: every character of a string that
   * needs no escape under `quote` is copied unchanged.
   */
  predicate PrintedAsIs(c: char, quote: char) {
    c != '\\' && c != quote && ' ' <= c && !('\U{7F}' <= c <= '\U{A0}') && c != '\U{AD}'
  }

  lemma {:induction false} ReprCharsPlain(s: string, quote: char)
    requires forall k :: 0 <= k < |s| ==> PrintedAsIs(s[k], quote)
    ensures ReprChars(s, quote) == s
  {
    if s != [] {
      ReprCharsPlain(s[1..], quote);
      assert s == [s[0]] + s[1..];
    }
  }

  /**
   * The quote `repr` picks: a string with a single quote and no double quote
   * is put in double quotes and printed as it is; otherwise single quotes
   * are used, and a single quote inside is escaped.
   */
  lemma ReprQuotes()
    ensures ReprStr(" ") == "' '"
    ensures ReprStr("it's") == "\"it's\""
    ensures ReprStr("'\"") == "'\\'\"'"
  {
    ReprCharsPlain(" ", '\'');
    assert "it's"[2] == '\'';
    ReprCharsPlain("it's", '"');
    assert "'\""[1] == '"';
    assert ReprChars("'\"", '\'') == "\\'" + ReprChars("\"", '\'');
    ReprCharsPlain("\"", '\'');
  }

  /** `" " in` a list tests its items: a list holding a space is reported as a domain. */
  lemma ListDomainReported()
    ensures CheckDomain(Table(map["domain" := Arr([Str("it's"), Str(" ")])], ["domain"]))
            == Report([InvalidDomain(Arr([Str("it's"), Str(" ")]))])
  {
    assert Str(" ") in [Str("it's"), Str(" ")];
  }

  /** `" " in` a dict tests its keys: a dict with the key `" "` is reported as a domain. */
  lemma DictDomainReported()
    ensures CheckDomain(Table(map["domain" := Table(map[" " := Int(1)], [" "])], ["domain"]))
            == Report([InvalidDomain(Table(map[" " := Int(1)], [" "]))])
  {
  }

  /** A diagnostic prints a list as Python does, each string with its own quote. */
  lemma ListPrinted()
    ensures Render(Arr([Str("it's"), Str(" ")])) == "[\"it's\", ' ']"
  {
    ReprQuotes();
    assert ReprItems([Str("it's"), Str(" ")]) == ReprStr("it's") + ", " + ReprItems([Str(" ")]);
  }

  /** A diagnostic prints a dict as Python does, its entries in the file's order. */
  lemma DictPrinted()
    ensures Render(Table(map[" " := Int(1)], [" "])) == "{' ': 1}"
  {
    var t := Table(map[" " := Int(1)], [" "]);
    SpaceEntry(t);
    assert Render(t) == "{" + ReprEntries(t, [" "]) + "}";
  }

  lemma SpaceEntry(t: Value)
    requires t == Table(map[" " := Int(1)], [" "])
    ensures ReprEntries(t, [" "]) == "' ': 1"
  {
    ReprQuotes();
    assert ReprOf(Int(1)) == "1" by { assert Text.IntToString(1) == "1"; }
    assert ReprEntries(t, [" "]) == ReprStr(" ") + ": " + ReprOf(Int(1));
  }

  /** A bare domain passes; a URL does not. */
  lemma DomainExamples()
    ensures CheckDomain(Table(map["domain" := Str("spokeo.com")], ["domain"])) == Report([])
    ensures CheckDomain(Table(map["domain" := Str("https://spokeo.com")], ["domain"]))
            == Report([InvalidDomain(Str("https://spokeo.com"))])
  {
    Text.ContainsChar("spokeo.com", ' ');
    assert " " == [' '];
    assert !Text.StartsWith("spokeo.com", "http") by { assert "spokeo.com"[0] == 's'; }
  }

  // ---------------------------------------------------------------------
  // [removal]

  /** A value Python can look up in a set (lists and tables cannot be hashed). */
  predicate Hashable(v: Value) {
    !v.Arr? && !v.Table?
  }

  /** A method entry outside the method set. */
  predicate BadMethod(v: Value) {
    !(v.Str? && v.s in VALID_REMOVAL_METHODS)
  }

  function AsInvalidMethod(v: Value): Diag {
    InvalidMethod(v)
  }

  /** One diagnostic per entry outside the set, in order; an unhashable entry ends the run. */
  lemma {:induction false} MethodEntriesExact(methods: seq<Value>)
    ensures (forall v :: v in methods ==> Hashable(v))
            ==> CheckMethodEntries(methods) == Report(Seqs.Map(Seqs.Filter(methods, BadMethod), AsInvalidMethod))
    ensures (exists v :: v in methods && !Hashable(v)) ==> CheckMethodEntries(methods) == Raised(TypeError)
  {
    if forall v :: v in methods ==> Hashable(v) {
      MethodEntriesReported(methods);
    } else {
      MethodEntriesRaise(methods);
    }
  }

  lemma {:induction false} MethodEntriesReported(methods: seq<Value>)
    requires forall v :: v in methods ==> Hashable(v)
    ensures CheckMethodEntries(methods) == Report(Seqs.Map(Seqs.Filter(methods, BadMethod), AsInvalidMethod))
    decreases |methods|
  {
    if methods != [] {
      var v, tail := methods[0], methods[1..];
      var kept := if BadMethod(v) then [v] else [];
      var rest := Seqs.Filter(tail, BadMethod);
      var here := Seqs.Map(kept, AsInvalidMethod);
      assert InSet(v, VALID_REMOVAL_METHODS) == Ok(!BadMethod(v)) by {
        assert v in methods;
      }
      assert here == if BadMethod(v) then [InvalidMethod(v)] else [];
      assert CheckMethodEntries(tail) == Report(Seqs.Map(rest, AsInvalidMethod)) by {
        assert forall x :: x in tail ==> x in methods;
        MethodEntriesReported(tail);
      }
      assert Seqs.Filter(methods, BadMethod) == kept + rest;
      assert Seqs.Map(kept + rest, AsInvalidMethod) == here + Seqs.Map(rest, AsInvalidMethod) by {
        Seqs.MapAppend(kept, rest, AsInvalidMethod);
      }
    }
  }

  lemma {:induction false} MethodEntriesRaise(methods: seq<Value>)
    requires exists v :: v in methods && !Hashable(v)
    ensures CheckMethodEntries(methods) == Raised(TypeError)
    decreases |methods|
  {
    var v, tail := methods[0], methods[1..];
    if Hashable(v) {
      assert exists x :: x in tail && !Hashable(x) by {
        var x :| x in methods && !Hashable(x);
        assert x != v;
        assert x in tail;
      }
      MethodEntriesRaise(tail);
    }
  }

  /**
   * A string method is checked on its own; a list is checked entry by entry and
   * reported as ill-shaped only when empty; any other value is ill-shaped.
   */
  lemma MethodShapes(m: map<string, Value>, keys: seq<string>)
    ensures "method" !in m ==> CheckMethod(Table(m, keys)) == Report([])
    ensures "method" in m && m["method"].Str? ==>
      CheckMethod(Table(m, keys))
      == Report(if m["method"].s in VALID_REMOVAL_METHODS then [] else [InvalidMethod(m["method"])])
    ensures "method" in m && m["method"].Arr? && (forall v :: v in m["method"].items ==> Hashable(v)) ==>
      CheckMethod(Table(m, keys))
      == Report((if m["method"].items == [] then [MethodShape] else [])
                + Seqs.Map(Seqs.Filter(m["method"].items, BadMethod), AsInvalidMethod))
    ensures "method" in m && !m["method"].Str? && !m["method"].Arr? ==>
      CheckMethod(Table(m, keys)) == Report([MethodShape])
  {
    if "method" in m && m["method"].Arr? {
      MethodEntriesExact(m["method"].items);
    } else if "method" in m && m["method"].Str? {
      var v := m["method"];
      assert MethodList(v) == [v];
      assert CheckMethodEntries([v][1..]) == Report([]);
    }
  }

  /**
   * A string url passes iff it starts with `http://` or `https://`; otherwise
   * its one diagnostic echoes the value. A url of any other type raises.
   */
  lemma UrlRules(m: map<string, Value>, keys: seq<string>)
    ensures "url" !in m ==> CheckUrl(Table(m, keys)) == Report([])
    ensures "url" in m && m["url"].Str? ==>
      var u := m["url"].s;
      CheckUrl(Table(m, keys))
      == Report(if Text.StartsWith(u, "http://") || Text.StartsWith(u, "https://") then [] else [InvalidUrl(u)])
    ensures "url" in m && !m["url"].Str? ==> CheckUrl(Table(m, keys)) == Raised(AttributeError)
    ensures "url" in m && m["url"] == Str("spokeo.com") ==>
      CheckUrl(Table(m, keys)) == Report([InvalidUrl("spokeo.com")])
  {
    if "url" in m && m["url"] == Str("spokeo.com") {
      assert !Text.StartsWith("spokeo.com", "http://") by {
        assert "spokeo.com"[0] != "http://"[0];
      }
      assert !Text.StartsWith("spokeo.com", "https://") by {
        assert "spokeo.com"[0] != "https://"[0];
      }
    }
  }

  // ---------------------------------------------------------------------
  // jurisdictions

  /** A table with a `law` key: the only kind of entry the loop looks at. */
  predicate HasLaw(v: Value) {
    v.Table? && "law" in v.entries
  }

  predicate BadLaw(v: Value) {
    HasLaw(v) && !(v.entries["law"].Str? && v.entries["law"].s in VALID_JURISDICTIONS)
  }

  function LawDiag(v: Value): Diag {
    InvalidJurisdiction(if HasLaw(v) then v.entries["law"] else v)
  }

  /** Entries without a law are ignored; each law outside the set is reported once, in order. */
  lemma {:induction false} JurisdictionEntriesExact(entries: seq<Value>)
    requires forall v :: v in entries && HasLaw(v) ==> Hashable(v.entries["law"])
    ensures CheckJurisdictionEntries(entries) == Report(Seqs.Map(Seqs.Filter(entries, BadLaw), LawDiag))
    decreases |entries|
  {
    if entries != [] {
      var v, tail := entries[0], entries[1..];
      var kept := if BadLaw(v) then [v] else [];
      var rest := Seqs.Filter(tail, BadLaw);
      var here := Seqs.Map(kept, LawDiag);
      assert here == if BadLaw(v) then [InvalidJurisdiction(v.entries["law"])] else [];
      assert CheckJurisdictionEntries(entries) == Then(Report(here), CheckJurisdictionEntries(tail)) by {
        assert v in entries;
      }
      assert CheckJurisdictionEntries(tail) == Report(Seqs.Map(rest, LawDiag)) by {
        assert forall x :: x in tail ==> x in entries;
        JurisdictionEntriesExact(tail);
      }
      assert Seqs.Filter(entries, BadLaw) == kept + rest;
      assert Seqs.Map(kept + rest, LawDiag) == here + Seqs.Map(rest, LawDiag) by {
        Seqs.MapAppend(kept, rest, LawDiag);
      }
    }
  }

  // ---------------------------------------------------------------------
  // The batch driver

  const USAGE := "Usage: validate-broker-toml.py <file1.toml> [file2.toml ...]"

  predicate IsNamePart(part: string) {
    part != "" && part != "."
  }

  /** `Path(p).name`: the last component, empty and `.` components ignored. */
  /** The last of `parts` that names something. */
  function LastName(parts: seq<string>): (r: string)
    ensures r != "" ==> r in parts && IsNamePart(r)
  {
    if parts == [] then ""
    else if IsNamePart(parts[|parts| - 1]) then parts[|parts| - 1]
    else LastName(parts[..|parts| - 1])
  }

  /** Python's `Path(p).name`: the last component that is neither empty nor `.`. */
  function BaseName(p: string): (r: string)
    ensures r != "" ==> r != "." && '/' !in r
  {
    LastName(Text.Split(p, '/'))
  }


  /** What the loop body does for one argument: printed lines, whether it passed, whether it raised. */
  datatype Step = Step(lines: seq<string>, passed: bool, raised: bool)

  function Bullet(d: Diag): string {
    "  - " + Message(d)
  }

  /** `files` maps each existing path to what reading it gives. */
  function Examine(p: string, files: map<string, Load>): Step {
    if BaseName(p) in SKIP_FILES then Step(["SKIP: " + p + " (documentation)"], true, false)
    else if p !in files then Step(["ERROR: File not found: " + p], false, false)
    else
      match ValidateFile(files[p])
      case Raised(_) => Step([], false, true)
      case Report(ds) =>
        if ds == [] then Step(["OK: " + p], true, false)
        else Step(["ERROR: " + p] + Seqs.Map(ds, Bullet), false, false)
  }

  /** The state of `main` after the loop has handled `args`. */
  function Progress(args: seq<string>, files: map<string, Load>): Step
    decreases |args|
  {
    if args == [] then Step([], true, false)
    else
      var before := Progress(args[..|args| - 1], files);
      if before.raised then before
      else
        var here := Examine(args[|args| - 1], files);
        Step(before.lines + here.lines, before.passed && here.passed, here.raised)
  }

  /** The exit status and the printed lines of `main`; an escaped exception exits with 1. */
  function Batch(args: seq<string>, files: map<string, Load>): (int, seq<string>) {
    if args == [] then (1, [USAGE])
    else
      var r := Progress(args, files);
      (if r.passed && !r.raised then 0 else 1, r.lines)
  }

  /** Once an argument has raised, the later ones change nothing. */
  lemma {:induction false} RaisedStops(args: seq<string>, files: map<string, Load>, i: nat)
    requires i <= |args| && Progress(args[..i], files).raised
    ensures Progress(args, files) == Progress(args[..i], files)
    decreases |args| - i
  {
    if i < |args| {
      assert args[..i + 1][..i] == args[..i];
      RaisedStops(args, files, i + 1);
    } else {
      assert args[..i] == args;
    }
  }

  /** The printing loop for a file with diagnostics. */
  method PrintErrors(p: string, errors: seq<Diag>) returns (printed: seq<string>)
    ensures printed == ["ERROR: " + p] + Seqs.Map(errors, Bullet)
  {
    printed := PrintUnder("ERROR: " + p, errors, Bullet);
  }

  /** Prints `header`, then one line per item, in order. */
  method PrintUnder<T>(header: string, items: seq<T>, line: T -> string) returns (printed: seq<string>)
    ensures printed == [header] + Seqs.Map(items, line)
  {
    printed := [header];
    var k := 0;
    while k < |items|
      invariant 0 <= k <= |items|
      invariant printed == [header] + Seqs.Map(items[..k], line)
    {
      assert items[..k + 1] == items[..k] + [items[k]];
      Seqs.MapAppend(items[..k], [items[k]], line);
      printed := printed + [line(items[k])];
      k := k + 1;
    }
    assert items[..k] == items;
  }

  /** The body of the loop of `main` for one argument. */
  method HandleOne(p: string, files: map<string, Load>) returns (lines: seq<string>, passed: bool, raised: bool)
    ensures Step(lines, passed, raised) == Examine(p, files)
  {
    if BaseName(p) in SKIP_FILES {
      return ["SKIP: " + p + " (documentation)"], true, false;
    }
    if p !in files {
      return ["ERROR: File not found: " + p], false, false;
    }
    var outcome := ValidateFile(files[p]);
    if outcome.Raised? {
      return [], false, true;
    }
    if outcome.diags != [] {
      lines := PrintErrors(p, outcome.diags);
      return lines, false, false;
    }
    return ["OK: " + p], true, false;
  }

  lemma ProgressSnoc(args: seq<string>, files: map<string, Load>, i: nat)
    requires i < |args| && !Progress(args[..i], files).raised
    ensures var before, here := Progress(args[..i], files), Examine(args[i], files);
      Progress(args[..i + 1], files) == Step(before.lines + here.lines, before.passed && here.passed, here.raised)
  {
    assert args[..i + 1][..i] == args[..i];
  }

  /** One turn of the loop of `main`: handle `args[i]` after the first `i` arguments ran without raising. */
  method Advance(args: seq<string>, files: map<string, Load>, i: nat, printed: seq<string>, allValid: bool)
    returns (printed': seq<string>, allValid': bool, raised: bool)
    requires i < |args| && Progress(args[..i], files) == Step(printed, allValid, false)
    ensures Progress(args[..i + 1], files) == Step(printed', allValid', raised)
  {
    var lines, passed;
    lines, passed, raised := HandleOne(args[i], files);
    ProgressSnoc(args, files, i);
    printed' := printed + lines;
    allValid' := allValid && passed;
  }

  /** `main`: the loop over the arguments; an exception leaves it with exit status 1. */
  method RunBatch(args: seq<string>, files: map<string, Load>) returns (status: int, printed: seq<string>)
    ensures (status, printed) == Batch(args, files)
  {
    if |args| < 1 {
      return 1, [USAGE];
    }
    var allValid := true;
    printed := [];
    var i := 0;
    while i < |args|
      invariant 0 <= i <= |args|
      invariant Progress(args[..i], files) == Step(printed, allValid, false)
    {
      var raised;
      printed, allValid, raised := Advance(args, files, i, printed, allValid);
      if raised {
        RaisedStops(args, files, i + 1);
        return 1, printed;
      }
      i := i + 1;
    }
    assert args[..i] == args;
    status := if allValid then 0 else 1;
  }

  /** An argument passes when it is skipped, or it exists and has no diagnostic. */
  predicate Passes(p: string, files: map<string, Load>) {
    BaseName(p) in SKIP_FILES || (p in files && ValidateFile(files[p]) == Report([]))
  }

  lemma ExaminePasses(p: string, files: map<string, Load>)
    ensures Examine(p, files).passed && !Examine(p, files).raised <==> Passes(p, files)
    ensures Examine(p, files).raised ==> !Examine(p, files).passed
  {
  }

  lemma {:induction false} ProgressPasses(args: seq<string>, files: map<string, Load>)
    ensures Progress(args, files).raised ==> !Progress(args, files).passed
    ensures Progress(args, files).passed && !Progress(args, files).raised
            <==> forall p :: p in args ==> Passes(p, files)
    decreases |args|
  {
    if args != [] {
      var init := args[..|args| - 1];
      var last := args[|args| - 1];
      ProgressPasses(init, files);
      ExaminePasses(last, files);
      assert args == init + [last];
      assert forall p :: p in args <==> p in init || p == last;
      if Progress(init, files).raised {
        assert Progress(args, files) == Progress(init, files);
        var q :| q in init && !Passes(q, files);
        assert q in args;
      }
    }
  }

  /** The exit status is 0 exactly when there are arguments and every one passes. */
  lemma ExitZeroIff(args: seq<string>, files: map<string, Load>)
    ensures Batch(args, files).0 == 0 <==> args != [] && forall p :: p in args ==> Passes(p, files)
    ensures Batch(args, files).0 in {0, 1}
  {
    ProgressPasses(args, files);
  }

  /** Each argument's own lines, one argument after another. */
  function Transcript(args: seq<string>, files: map<string, Load>): seq<string>
    decreases |args|
  {
    if args == [] then [] else Transcript(args[..|args| - 1], files) + Examine(args[|args| - 1], files).lines
  }

  /** When nothing raises, every argument is reported, in order, whatever the earlier ones gave. */
  lemma {:induction false} EveryFileReported(args: seq<string>, files: map<string, Load>)
    requires forall p :: p in args ==> !Examine(p, files).raised
    ensures !Progress(args, files).raised
    ensures Progress(args, files).lines == Transcript(args, files)
    decreases |args|
  {
    if args != [] {
      var init, last := args[..|args| - 1], args[|args| - 1];
      assert forall p :: p in init ==> p in args;
      assert last in args;
      EveryFileReported(init, files);
      ProgressLast(args, files);
    }
  }

  lemma ProgressLast(args: seq<string>, files: map<string, Load>)
    requires args != [] && !Progress(args[..|args| - 1], files).raised
    ensures var before, here := Progress(args[..|args| - 1], files), Examine(args[|args| - 1], files);
      Progress(args, files) == Step(before.lines + here.lines, before.passed && here.passed, here.raised)
  {
  }
}
