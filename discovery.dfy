/**
 * Local file discovery: which files are scanned, which kinds of personal
 * data a text shows, and the scan of one file.
 *
 * The three regular expressions are the predicates of `PiiPatterns`; the
 * file system is the function `disk`, giving a path's size and contents.
 * A path is the list of its normal components.
 */
module Discovery {
  import opened Wrappers
  import opened Text
  import Seqs

  /** Files larger than this many bytes (100 MiB) are skipped. */
  const MAX_FILE_SIZE: nat := 100 * 1024 * 1024

  /** The extensions scanned as text. */
  const SCANNABLE_EXTENSIONS: seq<string> := ["txt", "csv", "json", "md", "log"]

  /** `Path::file_name`: the last component, unless the path ends in `..`. */
  function FileName(path: seq<string>): Option<string> {
    if path == [] || path[|path| - 1] == ".." then None else Some(path[|path| - 1])
  }

  /** Index of the last `c` in `s`. */
  function LastIndexOf(s: string, c: char): (i: nat)
    requires c in s
    ensures i < |s| && s[i] == c && forall k :: i < k < |s| ==> s[k] != c
  {
    if s[|s| - 1] == c then |s| - 1 else LastIndexOf(s[..|s| - 1], c)
  }

  /**
   * `Path::extension`: the text after the last `.` of the file name; none
   * when the name has no `.`, or only a leading one, or is `..`.
   */
  function Extension(path: seq<string>): (r: Option<string>)
    ensures r.Some? ==> FileName(path).Some? && '.' !in r.value
  {
    match FileName(path)
    case None => None
    case Some(name) =>
      if '.' !in name then None
      else
        var i := LastIndexOf(name, '.');
        if i == 0 then None
        else
          Some(name[i + 1..])
  }

  /** `is_scannable`: the lower-cased extension is one of the text extensions. */
  predicate IsScannable(path: seq<string>) {
    match Extension(path)
    case Some(ext) => ToLowercase(ext) in SCANNABLE_EXTENSIONS
    case None => false
  }

  /** A file is scanned exactly when its name ends in `.` and a text extension in any case; no extension, no scan. */
  lemma {:induction false} ScannableMeaning(dir: seq<string>, stem: string, ext: string)
    requires stem != [] && '.' !in ext && stem + "." + ext != ".."
    ensures IsScannable(dir + [stem + "." + ext]) <==> ToLowercase(ext) in SCANNABLE_EXTENSIONS
    ensures Extension(dir + [stem + "." + ext]) == Some(ext)
  {
    var name := stem + "." + ext;
    var path := dir + [name];
    assert FileName(path) == Some(name);
    assert name[|stem|] == '.';
    var i := LastIndexOf(name, '.');
    assert name[|stem| + 1..] == ext;
  }

  /** A name without a dot, or with only a leading dot, has no extension and is never scanned. */
  lemma NoExtensionNotScannable(dir: seq<string>, name: string)
    requires '.' !in name || (name[0] == '.' && '.' !in name[1..])
    ensures Extension(dir + [name]).None? && !IsScannable(dir + [name])
  {
    assert FileName(dir + [name]) == if name == ".." then None else Some(name);
  }

  datatype PiiMatch = Email | Phone | Ssn

  /** `description`. */
  function Description(m: PiiMatch): string {
    match m
    case Email => "Email address"
    case Phone => "Phone number"
    case Ssn => "Social Security Number"
  }

  /** `risk_level`. */
  function RiskLevel(m: PiiMatch): string {
    match m
    case Email | Phone => "medium"
    case Ssn => "critical"
  }

  /** Only an SSN is critical, everything else medium; no two kinds share a description. */
  lemma MatchLabels(m: PiiMatch, n: PiiMatch)
    ensures RiskLevel(m) == "critical" <==> m == Ssn
    ensures RiskLevel(m) == "medium" <==> m != Ssn
    ensures Description(m) == Description(n) ==> m == n
  {
    if m != n {
      assert Description(m)[0] != Description(n)[0] || |Description(m)| != |Description(n)|;
    }
  }

  /** The three detectors, one per kind of personal data. */
  datatype PiiPatterns = PiiPatterns(hasEmail: string -> bool, hasPhone: string -> bool, hasSsn: string -> bool)

  function Detects(p: PiiPatterns, m: PiiMatch, text: string): bool {
    match m
    case Email => p.hasEmail(text)
    case Phone => p.hasPhone(text)
    case Ssn => p.hasSsn(text)
  }

  /** The kinds in the order `find_all` reports them. */
  function Rank(m: PiiMatch): nat {
    match m
    case Email => 0
    case Phone => 1
    case Ssn => 2
  }

  /** The kinds a text shows, as `find_all` lists them. */
  function FoundIn(p: PiiPatterns, text: string): seq<PiiMatch> {
    (if p.hasEmail(text) then [Email] else [])
    + (if p.hasPhone(text) then [Phone] else [])
    + (if p.hasSsn(text) then [Ssn] else [])
  }

  /** Exactly the detected kinds are listed, each once, in the order email, phone, SSN. */
  lemma FoundInMeaning(p: PiiPatterns, text: string)
    ensures forall m :: m in FoundIn(p, text) <==> Detects(p, m, text)
    ensures forall i, j :: 0 <= i < j < |FoundIn(p, text)| ==> Rank(FoundIn(p, text)[i]) < Rank(FoundIn(p, text)[j])
    ensures Seqs.Distinct(FoundIn(p, text))
  {
  }

  /** `find_all`. */
  method FindAll(p: PiiPatterns, text: string) returns (matches: seq<PiiMatch>)
    ensures matches == FoundIn(p, text)
  {
    matches := [];
    if p.hasEmail(text) {
      matches := matches + [Email];
    }
    if p.hasPhone(text) {
      matches := matches + [Phone];
    }
    if p.hasSsn(text) {
      matches := matches + [Ssn];
    }
  }

  /** What the file system says about a path: its size, and its text when it reads as UTF-8. */
  datatype FileProbe = FileProbe(size: nat, contents: Option<string>)

  datatype FileScanResult = FileScanResult(path: seq<string>, matches: seq<PiiMatch>)

  /**
   * `scan_file`: nothing for a path that is not scannable, has no metadata,
   * is too large, does not read, or shows nothing.
   */
  function ScanFile(path: seq<string>, p: PiiPatterns, disk: seq<string> -> Option<FileProbe>): Option<FileScanResult> {
    if !IsScannable(path) then None
    else match disk(path)
      case None => None
      case Some(probe) =>
        if probe.size > MAX_FILE_SIZE then None
        else match probe.contents
          case None => None
          case Some(text) =>
            var matches := FoundIn(p, text);
            if matches == [] then None else Some(FileScanResult(path, matches))
  }

  /**
   * A path that is not scannable gives nothing whatever the disk holds; a
   * result names its path and lists what the file's text shows, never
   * nothing; and a file over the size limit gives nothing.
   */
  lemma ScanFileRules(path: seq<string>, p: PiiPatterns, disk: seq<string> -> Option<FileProbe>,
                      other: seq<string> -> Option<FileProbe>)
    ensures !IsScannable(path) ==> ScanFile(path, p, disk).None? && ScanFile(path, p, other).None?
    ensures ScanFile(path, p, disk).Some? ==>
      && disk(path).Some? && disk(path).value.size <= MAX_FILE_SIZE && disk(path).value.contents.Some?
      && ScanFile(path, p, disk).value == FileScanResult(path, FoundIn(p, disk(path).value.contents.value))
      && ScanFile(path, p, disk).value.matches != []
    ensures disk(path).Some? && disk(path).value.size > MAX_FILE_SIZE ==> ScanFile(path, p, disk).None?
  {
  }
}
