/**
 * PII detection and filtering for LLM requests (`PiiFilter`). Each default
 * pattern contributes at most its first match; the detections are then
 * refused (Block), replaced by `[REDACTED_<TYPE>]` placeholders (Redact) or
 * replaced by reversible `__PII_TOKEN_<i>__` tokens (Tokenize).
 *
 * The regular expressions are not modelled: `find(t)` is the span of the
 * first match of pattern `t` in the text, if any. Offsets are positions in
 * the character sequence.
 */
module PiiFilter {
  import opened Wrappers
  import opened Text
  import opened LlmErrors
  import Seqs

  datatype PiiType = Email | Phone | Ssn | CreditCard | Address | IpAddress

  datatype FilterStrategy = Redact | Tokenize | Block

  /** A detected instance of PII: its type, its span `[start, end)` and the matched text. */
  datatype Detection = Detection(piiType: PiiType, start: nat, end: nat, value: string)

  /** The span of a regular-expression match. */
  datatype Span = Span(start: nat, end: nat)

  datatype FilterResult = FilterResult(
    filteredText: string,
    detections: seq<Detection>,
    tokenMap: Option<map<string, string>>)
  {
    /** `has_pii`. */
    predicate HasPii() { detections != [] }

    /** `pii_count`. */
    function PiiCount(): nat { |detections| }
  }

  /** `PiiType::as_str`. */
  function AsStr(t: PiiType): (s: string)
    ensures |s| >= 3 && forall k :: 0 <= k < |s| ==> IsAsciiUpper(s[k]) || s[k] == '_'
  {
    match t
    case Email => "EMAIL"
    case Phone => "PHONE"
    case Ssn => "SSN"
    case CreditCard => "CREDIT_CARD"
    case Address => "ADDRESS"
    case IpAddress => "IP_ADDRESS"
  }

  /** Distinct types have distinct names, so a Block message names each type unambiguously. */
  lemma AsStrInjective(a: PiiType, b: PiiType)
    ensures AsStr(a) == AsStr(b) ==> a == b
  {
  }

  /** The default patterns, in the order `filter` tries them. Address has no pattern. */
  const DefaultPatterns: seq<PiiType> := [Email, Phone, Ssn, CreditCard, IpAddress]

  /** Position of a type in the default pattern order; Address comes last. */
  function Rank(t: PiiType): nat {
    match t
    case Email => 0
    case Phone => 1
    case Ssn => 2
    case CreditCard => 3
    case IpAddress => 4
    case Address => 5
  }

  /** Every reported match lies inside the text. */
  predicate Fits(text: string, find: PiiType -> Option<Span>) {
    forall t :: find(t).Some? ==> find(t).value.start <= find(t).value.end <= |text|
  }

  function DetectionOf(text: string, t: PiiType, sp: Span): Detection
    requires sp.start <= sp.end <= |text|
  {
    Detection(t, sp.start, sp.end, text[sp.start..sp.end])
  }

  /** The detection pattern `t` contributes: its first match, if any. */
  function Found(text: string, find: PiiType -> Option<Span>, t: PiiType): seq<Detection>
    requires Fits(text, find)
  {
    if find(t).Some? then [DetectionOf(text, t, find(t).value)] else []
  }

  /**
   * The detections of `patterns`, in pattern order. A detection is present
   * exactly when its pattern is listed and matched, and it is that match.
   */
  function Detections(patterns: seq<PiiType>, text: string, find: PiiType -> Option<Span>): (r: seq<Detection>)
    requires Fits(text, find)
    ensures |r| <= |patterns|
    ensures forall d :: d in r <==>
      d.piiType in patterns && find(d.piiType).Some? && d == DetectionOf(text, d.piiType, find(d.piiType).value)
    decreases |patterns|
  {
    if patterns == [] then []
    else
      var init := patterns[..|patterns| - 1];
      var last := patterns[|patterns| - 1];
      assert forall t :: t in patterns <==> t in init || t == last;
      Detections(init, text, find) + Found(text, find, last)
  }

  /** Detections in strictly increasing rank, hence of pairwise distinct types. */
  predicate RankedTypes(r: seq<Detection>) {
    forall a, b :: 0 <= a < b < |r| ==> Rank(r[a].piiType) < Rank(r[b].piiType)
  }

  /** Patterns listed in increasing rank give detections in increasing rank, hence with distinct types. */
  lemma {:induction false} DetectionsRanked(patterns: seq<PiiType>, text: string, find: PiiType -> Option<Span>)
    requires Fits(text, find)
    requires forall a, b :: 0 <= a < b < |patterns| ==> Rank(patterns[a]) < Rank(patterns[b])
    ensures RankedTypes(Detections(patterns, text, find))
    decreases |patterns|
  {
    if patterns != [] {
      var init := patterns[..|patterns| - 1];
      var last := patterns[|patterns| - 1];
      forall a, b | 0 <= a < b < |init| ensures Rank(init[a]) < Rank(init[b]) {
        assert init[a] == patterns[a] && init[b] == patterns[b];
      }
      DetectionsRanked(init, text, find);
      var r0 := Detections(init, text, find);
      forall d | d in r0 ensures Rank(d.piiType) < Rank(last) {
        var i :| 0 <= i < |init| && init[i] == d.piiType;
        assert init[i] == patterns[i];
      }
      var r := r0 + Found(text, find, last);
      assert Detections(patterns, text, find) == r;
      assert |Found(text, find, last)| <= 1;
      forall a, b | 0 <= a < b < |r| ensures Rank(r[a].piiType) < Rank(r[b].piiType) {
        if b >= |r0| {
          assert a < |r0|;
          assert r[a] == r0[a];
          assert r[a] in r0;
          assert Rank(r[a].piiType) < Rank(last);
          assert r[b] == Found(text, find, last)[0];
          assert r[b].piiType == last;
        } else {
          assert r[a] == r0[a] && r[b] == r0[b];
          assert Rank(r0[a].piiType) < Rank(r0[b].piiType);
        }
      }
    }
  }

  /**
   * The scan of `filter`: the first match of each default pattern, in
   * pattern order, so at most five detections of pairwise distinct types.
   */
  method Detect(text: string, find: PiiType -> Option<Span>) returns (detections: seq<Detection>)
    requires Fits(text, find)
    ensures detections == Detections(DefaultPatterns, text, find)
  {
    detections := [];
    var i := 0;
    while i < |DefaultPatterns|
      invariant 0 <= i <= |DefaultPatterns|
      invariant detections == Detections(DefaultPatterns[..i], text, find)
    {
      var t := DefaultPatterns[i];
      var m := find(t);
      if m.Some? {
        detections := detections + [DetectionOf(text, t, m.value)];
      }
      assert DefaultPatterns[..i + 1][..i] == DefaultPatterns[..i];
      i := i + 1;
    }
    assert DefaultPatterns[..i] == DefaultPatterns;
  }

  /** The facts `filter` relies on: at most five detections, one per matching pattern, distinct types. */
  lemma DefaultDetections(text: string, find: PiiType -> Option<Span>)
    requires Fits(text, find)
    ensures var r := Detections(DefaultPatterns, text, find);
      && |r| <= 5
      && (forall t :: t != Address ==> (find(t).Some? <==> exists d :: d in r && d.piiType == t))
      && RankedTypes(r)
  {
    var r := Detections(DefaultPatterns, text, find);
    DetectionsRanked(DefaultPatterns, text, find);
    forall t | t != Address && find(t).Some? ensures exists d :: d in r && d.piiType == t {
      assert t in DefaultPatterns;
      assert DetectionOf(text, t, find(t).value) in r;
    }
  }

  // ---------------------------------------------------------------------
  // Sorting by descending start (`sort_by_key(|d| Reverse(d.start))`)
  // ---------------------------------------------------------------------

  /** Insert `d` after every element whose start is at least its own (the sort is stable). */
  function InsertByStart(d: Detection, xs: seq<Detection>): (r: seq<Detection>)
    ensures |r| == |xs| + 1
    ensures multiset(r) == multiset(xs) + multiset{d}
  {
    if xs == [] then [d]
    else if xs[0].start >= d.start then
      assert xs == [xs[0]] + xs[1..];
      [xs[0]] + InsertByStart(d, xs[1..])
    else [d] + xs
  }

  /** Stable sort by descending start, as an insertion sort over the detections in order. */
  function SortByStartDesc(ds: seq<Detection>): (r: seq<Detection>)
    ensures multiset(r) == multiset(ds) && |r| == |ds|
    decreases |ds|
  {
    if ds == [] then []
    else
      assert ds == ds[..|ds| - 1] + [ds[|ds| - 1]];
      InsertByStart(ds[|ds| - 1], SortByStartDesc(ds[..|ds| - 1]))
  }

  predicate StartsDescending(xs: seq<Detection>) {
    forall a, b :: 0 <= a < b < |xs| ==> xs[a].start >= xs[b].start
  }

  lemma {:induction false} InsertKeepsOrder(d: Detection, xs: seq<Detection>)
    requires StartsDescending(xs)
    ensures StartsDescending(InsertByStart(d, xs))
    decreases |xs|
  {
    if xs != [] && xs[0].start >= d.start {
      InsertKeepsOrder(d, xs[1..]);
      var r := InsertByStart(d, xs[1..]);
      forall x | x in r ensures xs[0].start >= x.start {
        assert x in multiset(r);
        if x != d {
          assert x in multiset(xs[1..]);
        }
      }
    }
  }

  /** The sorted detections are a permutation of the input, ordered by non-increasing start. */
  lemma {:induction false} SortIsSorted(ds: seq<Detection>)
    ensures StartsDescending(SortByStartDesc(ds))
    ensures multiset(SortByStartDesc(ds)) == multiset(ds)
    decreases |ds|
  {
    if ds != [] {
      SortIsSorted(ds[..|ds| - 1]);
      InsertKeepsOrder(ds[|ds| - 1], SortByStartDesc(ds[..|ds| - 1]));
    }
  }

  /** Two detections at distinct positions never overlap. */
  predicate Separated(xs: seq<Detection>) {
    forall a, b :: 0 <= a < b < |xs| ==> xs[a].end <= xs[b].start || xs[b].end <= xs[a].start
  }

  predicate Apart(x: Detection, y: Detection) {
    x.end <= y.start || y.end <= x.start
  }

  lemma SeparatedCons(x: Detection, r: seq<Detection>)
    requires Separated(r) && forall y :: y in r ==> Apart(x, y)
    ensures Separated([x] + r)
  {
    var s := [x] + r;
    forall a, b | 0 <= a < b < |s| ensures s[a].end <= s[b].start || s[b].end <= s[a].start {
      if a == 0 {
        assert s[b] in r;
      } else {
        assert s[a] == r[a - 1] && s[b] == r[b - 1];
      }
    }
  }

  lemma {:induction false} InsertKeepsSeparated(d: Detection, xs: seq<Detection>)
    requires Separated(xs) && forall x :: x in xs ==> Apart(d, x)
    ensures Separated(InsertByStart(d, xs))
    decreases |xs|
  {
    if xs != [] && xs[0].start >= d.start {
      assert Separated(xs[1..]) by {
        forall a, b | 0 <= a < b < |xs[1..]|
          ensures xs[1..][a].end <= xs[1..][b].start || xs[1..][b].end <= xs[1..][a].start
        {
          assert xs[1..][a] == xs[a + 1] && xs[1..][b] == xs[b + 1];
        }
      }
      InsertKeepsSeparated(d, xs[1..]);
      var r := InsertByStart(d, xs[1..]);
      assert xs[0] in xs;
      forall x | x in r ensures Apart(xs[0], x) {
        assert x in multiset(r);
        if x != d {
          assert x in multiset(xs[1..]);
          var j :| 0 <= j < |xs[1..]| && xs[1..][j] == x;
          assert xs[j + 1] == x;
        }
      }
      SeparatedCons(xs[0], r);
    } else if xs != [] {
      SeparatedCons(d, xs);
    }
  }

  /** Sorting keeps pairwise non-overlapping detections non-overlapping. */
  lemma {:induction false} SortKeepsSeparated(ds: seq<Detection>)
    requires Separated(ds)
    ensures Separated(SortByStartDesc(ds))
    decreases |ds|
  {
    if ds != [] {
      var init := ds[..|ds| - 1];
      var d := ds[|ds| - 1];
      assert Separated(init) by {
        forall a, b | 0 <= a < b < |init| ensures init[a].end <= init[b].start || init[b].end <= init[a].start {
          assert init[a] == ds[a] && init[b] == ds[b];
        }
      }
      SortKeepsSeparated(init);
      var sorted := SortByStartDesc(init);
      forall x | x in sorted ensures Apart(d, x) {
        assert x in multiset(sorted);
        assert x in init;
        var j :| 0 <= j < |init| && init[j] == x;
        assert ds[j] == x;
      }
      InsertKeepsSeparated(d, sorted);
    }
  }

  // ---------------------------------------------------------------------
  // Replacing spans from the highest start down
  // ---------------------------------------------------------------------

  /**
   * The spans lie in `[0, bound)`, are well formed, and each ends at or
   * before the start of the one before it (descending, non-overlapping).
   */
  predicate DescDisjoint(ds: seq<Detection>, bound: nat) {
    && (forall k :: 0 <= k < |ds| ==> ds[k].start <= ds[k].end)
    && (forall k :: 0 <= k < |ds| ==> ds[k].end <= bound)
    && (forall k :: 0 <= k < |ds| - 1 ==> ds[k + 1].end <= ds[k].start)
  }

  lemma DescDisjointTail(ds: seq<Detection>, bound: nat)
    requires |ds| > 0 && DescDisjoint(ds, bound)
    ensures DescDisjoint(ds[1..], ds[0].start)
  {
    var t := ds[1..];
    forall k | 0 <= k < |t| - 1 ensures t[k + 1].end <= t[k].start {
      assert t[k] == ds[k + 1] && t[k + 1] == ds[k + 2];
    }
    forall k | 0 <= k < |t| ensures t[k].end <= ds[0].start {
      assert t[k] == ds[k + 1];
      StartsBelow(ds, k, bound);
    }
  }

  /** `String::replace_range(a..b, rep)`. */
  function ReplaceRange(s: string, a: nat, b: nat, rep: string): (r: string)
    requires a <= b <= |s|
    ensures |r| == |s| - (b - a) + |rep|
  {
    s[..a] + rep + s[b..]
  }

  /**
   * The text with the span of `ds[k]` replaced by `reps[k]`, for each `k`:
   * the text before the first span, then alternately a replacement and the
   * text up to the next span.
   */
  function Splice(text: string, ds: seq<Detection>, reps: seq<string>): string
    requires |reps| == |ds| && DescDisjoint(ds, |text|)
    decreases |ds|
  {
    if ds == [] then text
    else
      DescDisjointTail(ds, |text|);
      Splice(text[..ds[0].start], ds[1..], reps[1..]) + reps[0] + text[ds[0].end..]
  }

  /** Splicing inside a prefix leaves the rest of the text untouched. */
  lemma SplicePrefix(p: string, q: string, ds: seq<Detection>, reps: seq<string>)
    requires |reps| == |ds| && DescDisjoint(ds, |p|)
    ensures DescDisjoint(ds, |p + q|)
    ensures Splice(p + q, ds, reps) == Splice(p, ds, reps) + q
  {
    if ds != [] {
      var s := p + q;
      var a, b := ds[0].start, ds[0].end;
      DescDisjointTail(ds, |p|);
      assert DescDisjoint(ds, |s|);
      assert s[..a] == p[..a];
      assert s[b..] == p[b..] + q;
      var inner := Splice(p[..a], ds[1..], reps[1..]);
      assert Splice(s, ds, reps) == inner + reps[0] + (p[b..] + q);
      assert Splice(p, ds, reps) == inner + reps[0] + p[b..];
    }
  }

  /** Replacing the highest span first leaves the remaining spans to splice into the result. */
  lemma SpliceStep(result: string, ds: seq<Detection>, reps: seq<string>)
    requires |ds| > 0 && |reps| == |ds| && DescDisjoint(ds, |result|)
    ensures var next := ReplaceRange(result, ds[0].start, ds[0].end, reps[0]);
      && DescDisjoint(ds[1..], |next|)
      && Splice(next, ds[1..], reps[1..]) == Splice(result, ds, reps)
  {
    DescDisjointTail(ds, |result|);
    var p := result[..ds[0].start];
    var q := reps[0] + result[ds[0].end..];
    SplicePrefix(p, q, ds[1..], reps[1..]);
    assert ReplaceRange(result, ds[0].start, ds[0].end, reps[0]) == p + q;
  }

  /** The step of a replacement loop at position `i` of the sorted spans. */
  lemma SpliceAt(result: string, ds: seq<Detection>, reps: seq<string>, i: nat)
    requires i < |ds| && |reps| == |ds| && DescDisjoint(ds[i..], |result|)
    ensures var next := ReplaceRange(result, ds[i].start, ds[i].end, reps[i]);
      && DescDisjoint(ds[i + 1..], |next|)
      && Splice(next, ds[i + 1..], reps[i + 1..]) == Splice(result, ds[i..], reps[i..])
  {
    SpliceStep(result, ds[i..], reps[i..]);
    assert ds[i..][1..] == ds[i + 1..] && reps[i..][1..] == reps[i + 1..];
  }

  /** Splicing each span's own text back in gives the original text. */
  lemma {:induction false} SpliceOriginal(text: string, ds: seq<Detection>, reps: seq<string>)
    requires |reps| == |ds| && DescDisjoint(ds, |text|)
    requires forall k :: 0 <= k < |ds| ==> reps[k] == text[ds[k].start..ds[k].end]
    ensures Splice(text, ds, reps) == text
    decreases |ds|
  {
    if ds != [] {
      DescDisjointTail(ds, |text|);
      var p := text[..ds[0].start];
      forall k | 0 <= k < |ds[1..]| ensures reps[1..][k] == p[ds[1..][k].start..ds[1..][k].end] {
        assert ds[1..][k] == ds[k + 1];
      }
      SpliceOriginal(p, ds[1..], reps[1..]);
      assert text == p + text[ds[0].start..ds[0].end] + text[ds[0].end..];
    }
  }

  lemma {:induction false} StartsBelow(ds: seq<Detection>, k: nat, bound: nat)
    requires DescDisjoint(ds, bound) && k < |ds|
    ensures ds[k].start <= ds[0].start
    decreases k
  {
    if k > 0 {
      StartsBelow(ds, k - 1, bound);
    }
  }

  /** `[REDACTED_<TYPE>]`. */
  function Placeholder(t: PiiType): string {
    "[REDACTED_" + AsStr(t) + "]"
  }

  function Placeholders(ds: seq<Detection>): (r: seq<string>)
    ensures |r| == |ds| && forall k :: 0 <= k < |ds| ==> r[k] == Placeholder(ds[k].piiType)
  {
    Seqs.Map(ds, (d: Detection) => Placeholder(d.piiType))
  }

  /** `__PII_TOKEN_<idx>__`. */
  function Token(idx: nat): string {
    "__PII_TOKEN_" + NatToString(idx) + "__"
  }

  function Tokens(n: nat): (r: seq<string>)
    ensures |r| == n && forall k :: 0 <= k < n ==> r[k] == Token(k)
  {
    seq(n, (k: int) requires 0 <= k => Token(k))
  }

  /** The redacted text: each span replaced by its type's placeholder. */
  function Redacted(text: string, detections: seq<Detection>): string
    requires DescDisjoint(SortByStartDesc(detections), |text|)
  {
    var sorted := SortByStartDesc(detections);
    Splice(text, sorted, Placeholders(sorted))
  }

  /** The tokenized text: the `k`-th span in descending-start order replaced by token `k`. */
  function Tokenized(text: string, detections: seq<Detection>): string
    requires DescDisjoint(SortByStartDesc(detections), |text|)
  {
    var sorted := SortByStartDesc(detections);
    Splice(text, sorted, Tokens(|sorted|))
  }

  /** The token map: token `k` maps to the value of the `k`-th span in descending-start order. */
  function TokenMapOf(ds: seq<Detection>): map<string, string>
    decreases |ds|
  {
    if ds == [] then map[]
    else TokenMapOf(ds[..|ds| - 1])[Token(|ds| - 1) := ds[|ds| - 1].value]
  }

  /** One more span adds its token to the map. */
  lemma TokenMapSnoc(ds: seq<Detection>, i: nat)
    requires i < |ds|
    ensures TokenMapOf(ds[..i + 1]) == TokenMapOf(ds[..i])[Token(i) := ds[i].value]
  {
    assert ds[..i + 1][..i] == ds[..i];
  }

  /** `apply_redaction`. */
  method ApplyRedaction(text: string, detections: seq<Detection>) returns (result: string)
    requires DescDisjoint(SortByStartDesc(detections), |text|)
    ensures result == Redacted(text, detections)
  {
    result := text;
    var sorted := SortByStartDesc(detections);
    ghost var reps := Placeholders(sorted);
    var i := 0;
    while i < |sorted|
      invariant 0 <= i <= |sorted|
      invariant DescDisjoint(sorted[i..], |result|)
      invariant Splice(result, sorted[i..], reps[i..]) == Splice(text, sorted, reps)
    {
      var detection := sorted[i];
      var placeholder := "[REDACTED_" + AsStr(detection.piiType) + "]";
      SpliceAt(result, sorted, reps, i);
      result := ReplaceRange(result, detection.start, detection.end, placeholder);
      i := i + 1;
    }
  }

  /** `apply_tokenization`: the tokenized text and the map from each token to the value it hides. */
  method ApplyTokenization(text: string, detections: seq<Detection>)
    returns (result: string, tokenMap: map<string, string>)
    requires DescDisjoint(SortByStartDesc(detections), |text|)
    ensures result == Tokenized(text, detections)
    ensures tokenMap == TokenMapOf(SortByStartDesc(detections))
  {
    result := text;
    tokenMap := map[];
    var sorted := SortByStartDesc(detections);
    ghost var reps := Tokens(|sorted|);
    var idx := 0;
    while idx < |sorted|
      invariant 0 <= idx <= |sorted|
      invariant DescDisjoint(sorted[idx..], |result|)
      invariant Splice(result, sorted[idx..], reps[idx..]) == Splice(text, sorted, reps)
      invariant tokenMap == TokenMapOf(sorted[..idx])
    {
      var detection := sorted[idx];
      var token := "__PII_TOKEN_" + NatToString(idx) + "__";
      tokenMap := tokenMap[token := detection.value];
      SpliceAt(result, sorted, reps, idx);
      TokenMapSnoc(sorted, idx);
      result := ReplaceRange(result, detection.start, detection.end, token);
      idx := idx + 1;
    }
    assert sorted[..idx] == sorted;
  }

  /**
   * `detokenize`: each token of the map, in the map's iteration order
   * `order`, is replaced everywhere by its value.
   */
  function Detokenized(text: string, tokenMap: map<string, string>, order: seq<string>): string
    requires forall t :: t in order ==> t in tokenMap && |t| > 0
    decreases |order|
  {
    if order == [] then text
    else Detokenized(Replace(text, order[0], tokenMap[order[0]]), tokenMap, order[1..])
  }

  /** `order` lists each key of the map exactly once: an iteration order of the map. */
  ghost predicate IterationOrder(tokenMap: map<string, string>, order: seq<string>) {
    && (forall t :: t in order <==> t in tokenMap)
    && (forall a, b :: 0 <= a < b < |order| ==> order[a] != order[b])
  }

  method Detokenize(text: string, tokenMap: map<string, string>, order: seq<string>) returns (result: string)
    requires IterationOrder(tokenMap, order)
    requires forall t :: t in tokenMap ==> |t| > 0
    ensures result == Detokenized(text, tokenMap, order)
  {
    result := text;
    var i := 0;
    while i < |order|
      invariant 0 <= i <= |order|
      invariant Detokenized(result, tokenMap, order[i..]) == Detokenized(text, tokenMap, order)
    {
      assert order[i..][1..] == order[i + 1..];
      result := Replace(result, order[i], tokenMap[order[i]]);
      i := i + 1;
    }
  }

  /** The matches are non-empty and the matches of different patterns do not overlap. */
  predicate MatchesApart(find: PiiType -> Option<Span>) {
    && (forall t :: find(t).Some? ==> find(t).value.start < find(t).value.end)
    && (forall t, u :: t != u && find(t).Some? && find(u).Some? ==>
          find(t).value.end <= find(u).value.start || find(u).value.end <= find(t).value.start)
  }

  /** Detections of distinct patterns inherit the patterns' non-overlapping matches. */
  lemma DetectionsSeparated(text: string, find: PiiType -> Option<Span>)
    requires Fits(text, find) && MatchesApart(find)
    ensures Separated(Detections(DefaultPatterns, text, find))
  {
    var ds := Detections(DefaultPatterns, text, find);
    DefaultDetections(text, find);
    forall a, b | 0 <= a < b < |ds| ensures ds[a].end <= ds[b].start || ds[b].end <= ds[a].start {
      assert ds[a] in ds && ds[b] in ds;
      assert ds[a].piiType != ds[b].piiType;
    }
  }

  /** Separated, non-empty spans in descending order do not overlap, each ending before the previous starts. */
  lemma SeparatedSortedDisjoint(s: seq<Detection>, bound: nat)
    requires Separated(s) && StartsDescending(s)
    requires forall k :: 0 <= k < |s| ==> s[k].start < s[k].end <= bound
    ensures DescDisjoint(s, bound)
  {
    forall k | 0 <= k < |s| - 1 ensures s[k + 1].end <= s[k].start {
      assert s[k].end <= s[k + 1].start || s[k + 1].end <= s[k].start;
      assert s[k].start >= s[k + 1].start;
    }
  }

  /** Non-overlapping matches, once sorted, can be replaced from the highest start down. */
  lemma SortedDetectionsDisjoint(text: string, find: PiiType -> Option<Span>)
    requires Fits(text, find) && MatchesApart(find)
    ensures DescDisjoint(SortByStartDesc(Detections(DefaultPatterns, text, find)), |text|)
  {
    var ds := Detections(DefaultPatterns, text, find);
    DetectionsSeparated(text, find);
    SortKeepsSeparated(ds);
    SortIsSorted(ds);
    var s := SortByStartDesc(ds);
    forall k | 0 <= k < |s| ensures s[k].start < s[k].end <= |text| {
      assert s[k] in multiset(ds);
      assert s[k] in ds;
    }
    SeparatedSortedDisjoint(s, |text|);
  }

  /** `filter` with the given strategy and the default patterns. */
  method Filter(strategy: FilterStrategy, text: string, find: PiiType -> Option<Span>)
    returns (r: Result<FilterResult, LlmError>)
    requires Fits(text, find) && MatchesApart(find)
    ensures var ds := Detections(DefaultPatterns, text, find);
      && DescDisjoint(SortByStartDesc(ds), |text|)
      && (ds == [] ==> r == Ok(FilterResult(text, [], None)))
      && (ds != [] && strategy == Block ==> r == Err(PiiBlocked(BlockDetails(ds))))
      && (ds != [] && strategy == Redact ==> r == Ok(FilterResult(Redacted(text, ds), ds, None)))
      && (ds != [] && strategy == Tokenize ==>
            r == Ok(FilterResult(Tokenized(text, ds), ds, Some(TokenMapOf(SortByStartDesc(ds))))))
  {
    var detections := Detect(text, find);
    SortedDetectionsDisjoint(text, find);
    if detections == [] {
      return Ok(FilterResult(text, detections, None));
    }
    match strategy
    case Block =>
      r := Err(PiiBlocked(BlockDetails(detections)));
    case Redact =>
      var filtered := ApplyRedaction(text, detections);
      r := Ok(FilterResult(filtered, detections, None));
    case Tokenize =>
      var filtered, tokenMap := ApplyTokenization(text, detections);
      r := Ok(FilterResult(filtered, detections, Some(tokenMap)));
  }

  /** `detected <n> PII fields: <TYPE>, <TYPE>, ...`. */
  function BlockDetails(ds: seq<Detection>): string {
    "detected " + NatToString(|ds|) + " PII fields: " + Join(Seqs.Map(ds, (d: Detection) => AsStr(d.piiType)), ", ")
  }

  /** A filter result reports PII exactly when some default pattern matched, and counts at most five. */
  lemma HasPiiMeaning(text: string, find: PiiType -> Option<Span>, filtered: string, tokens: Option<map<string, string>>)
    requires Fits(text, find)
    ensures var res := FilterResult(filtered, Detections(DefaultPatterns, text, find), tokens);
      && (res.HasPii() <==> exists t :: t in DefaultPatterns && find(t).Some?)
      && res.PiiCount() <= 5
  {
    DetectionsNonEmpty(DefaultPatterns, text, find);
  }

  /** Some pattern matches exactly when there is a detection. */
  lemma DetectionsNonEmpty(patterns: seq<PiiType>, text: string, find: PiiType -> Option<Span>)
    requires Fits(text, find)
    ensures Detections(patterns, text, find) != [] <==> exists t :: t in patterns && find(t).Some?
  {
    var ds := Detections(patterns, text, find);
    if t :| t in patterns && find(t).Some? {
      assert DetectionOf(text, t, find(t).value) in ds;
    }
    if ds != [] {
      assert ds[0] in ds;
    }
  }
}
