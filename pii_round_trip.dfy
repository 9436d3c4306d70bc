/**
 * Tokenization is undone by `detokenize`: when the text holds no `_`, the
 * spans do not overlap and there are at most ten of them, replacing every
 * token of the token map by its value, in any iteration order of the map,
 * gives back the original text.
 *
 * The proof views a partly detokenized text as a list of segments: plain
 * stretches of text, and tokens that are still in place.
 */
module PiiRoundTrip {
  import opened Text
  import opened PiiFilter
  import opened Wrappers

  datatype Seg = Plain(s: string) | Tok(idx: nat)

  /** A segment after the tokens in `done` have been replaced by their values. */
  function FillSeg(g: Seg, done: set<nat>, vals: seq<string>): Seg {
    if g.Tok? && g.idx in done && g.idx < |vals| then Plain(vals[g.idx]) else g
  }

  function Fill(segs: seq<Seg>, done: set<nat>, vals: seq<string>): (r: seq<Seg>)
    ensures |r| == |segs| && forall k :: 0 <= k < |segs| ==> r[k] == FillSeg(segs[k], done, vals)
  {
    seq(|segs|, (k: int) requires 0 <= k < |segs| => FillSeg(segs[k], done, vals))
  }

  function RenderSeg(g: Seg): string {
    match g
    case Plain(s) => s
    case Tok(i) => Token(i)
  }

  function Render(segs: seq<Seg>): string
    decreases |segs|
  {
    if segs == [] then "" else RenderSeg(segs[0]) + Render(segs[1..])
  }

  lemma {:induction false} RenderAppend(a: seq<Seg>, b: seq<Seg>)
    ensures Render(a + b) == Render(a) + Render(b)
    decreases |a|
  {
    if a == [] {
      assert a + b == b;
    } else {
      assert (a + b)[1..] == a[1..] + b;
      RenderAppend(a[1..], b);
    }
  }

  /** Plain stretches hold no `_`, values hold no `_`, tokens are single-digit and have a value. */
  predicate Clean(segs: seq<Seg>, vals: seq<string>) {
    && PlainsFree(segs)
    && TokensWithin(segs, 0, |vals|)
    && |vals| <= 10
    && (forall k :: 0 <= k < |vals| ==> '_' !in vals[k])
  }

  // ---------------------------------------------------------------------
  // The shape of a single-digit token
  // ---------------------------------------------------------------------

  lemma TokenShape(i: nat)
    requires i < 10
    ensures Token(i) == ['_', '_', 'P', 'I', 'I', '_', 'T', 'O', 'K', 'E', 'N', '_', DigitChar(i), '_', '_']
  {
    assert NatToString(i) == [DigitChar(i)];
  }

  /** Every token starts with `_`. */
  lemma TokenFirst(i: nat)
    ensures |Token(i)| > 0 && Token(i)[0] == '_'
  {
  }

  /** Distinct single-digit indices have distinct tokens. */
  lemma TokenDistinct(i: nat, j: nat)
    requires i < 10 && j < 10 && i != j
    ensures Token(i) != Token(j)
  {
    TokenShape(i);
    TokenShape(j);
    assert Token(i)[12] != Token(j)[12];
  }

  /** Single-digit tokens are pairwise distinct. */
  lemma TokenInjective(i: nat, j: nat)
    requires i < 10 && j < 10 && Token(i) == Token(j)
    ensures i == j
  {
    TokenShape(i);
    TokenShape(j);
    assert Token(i)[12] == Token(j)[12];
  }

  // ---------------------------------------------------------------------
  // Replace over a concatenation
  // ---------------------------------------------------------------------

  /** When no occurrence of `pat` starts in the first `m` positions, `Replace` copies them. */
  lemma {:induction false} ReplaceSkip(s: string, pat: string, rep: string, m: nat)
    requires |pat| > 0 && m <= |s|
    requires forall k :: 0 <= k < m ==> !OccursAt(s, pat, k)
    ensures Replace(s, pat, rep) == s[..m] + Replace(s[m..], pat, rep)
    decreases m
  {
    if m > 0 {
      var t := s[1..];
      var r := Replace(s[m..], pat, rep);
      assert Replace(t, pat, rep) == t[..m - 1] + r by {
        forall k | 0 <= k < m - 1 ensures !OccursAt(t, pat, k) {
          OccursShift(s, pat, k);
        }
        ReplaceSkip(t, pat, rep, m - 1);
        assert t[m - 1..] == s[m..];
      }
      assert Replace(s, pat, rep) == [s[0]] + Replace(t, pat, rep) by {
        ReplaceHeadKept(s, pat, rep);
      }
      assert s[..m] == [s[0]] + t[..m - 1];
    }
  }

  /** A stretch free of the pattern's first character is copied unchanged. */
  lemma ReplaceAfterFree(u: string, r: string, pat: string, rep: string)
    requires |pat| > 0 && pat[0] !in u
    ensures Replace(u + r, pat, rep) == u + Replace(r, pat, rep)
  {
    var s := u + r;
    forall k | 0 <= k < |u| ensures !OccursAt(s, pat, k) {
      assert s[k] == u[k] && u[k] in u;
      if k + |pat| <= |s| {
        assert s[k..k + |pat|][0] == s[k];
      }
    }
    ReplaceSkip(s, pat, rep, |u|);
    assert s[..|u|] == u && s[|u|..] == r;
  }

  /** An occurrence at the very start is replaced. */
  lemma ReplaceAtStart(t: string, r: string, rep: string)
    requires |t| > 0
    ensures Replace(t + r, t, rep) == rep + Replace(r, t, rep)
  {
    var s := t + r;
    assert s[..|t|] == t && s[|t|..] == r;
  }

  /** Text with no `_` up to either its end or a `__`. */
  predicate FreeThenDouble(u: string, z: string) {
    '_' !in u && (z == [] || (|z| >= 2 && z[0] == '_' && z[1] == '_'))
  }

  /**
   * A token other than `Token(i)`, followed by text with no `_` up to its end
   * or a `__`, holds no occurrence of `Token(i)` that starts inside it.
   */
  lemma TokenSkip(j: nat, i: nat, u: string, z: string, rep: string)
    requires i < 10 && j < 10 && i != j && FreeThenDouble(u, z)
    ensures Replace(Token(j) + u + z, Token(i), rep) == Token(j) + Replace(u + z, Token(i), rep)
  {
    var t := Token(i);
    var w := u + z;
    var s := Token(j) + w;
    assert |t| == 15 && |Token(j)| == 15 by {
      TokenShape(i);
      TokenShape(j);
    }
    assert forall k :: 0 <= k < 15 ==> !OccursAt(s, t, k) by {
      TokenShape(i);
      TokenShape(j);
      forall k | 0 <= k < 15 ensures !OccursAt(s, t, k) {
        NoMatchInToken(s, t, w, i, j, k, u, z);
      }
    }
    ReplaceSkip(s, t, rep, 15);
    assert s[..15] == Token(j) && s[15..] == w;
    assert Token(j) + u + z == s;
  }

  lemma NoMatchInToken(s: string, t: string, w: string, i: nat, j: nat, k: nat, u: string, z: string)
    requires i < 10 && j < 10 && i != j && FreeThenDouble(u, z) && w == u + z
    requires s == Token(j) + w && k < 15
    requires t == ['_', '_', 'P', 'I', 'I', '_', 'T', 'O', 'K', 'E', 'N', '_', DigitChar(i), '_', '_']
    requires Token(j) == ['_', '_', 'P', 'I', 'I', '_', 'T', 'O', 'K', 'E', 'N', '_', DigitChar(j), '_', '_']
    ensures !OccursAt(s, t, k)
  {
    if k + 15 <= |s| {
      var x: nat;
      if k == 0 {
        x := 12;
        assert s[k + x] != t[x] by {
          assert s[12] == DigitChar(j);
        }
      } else if k <= 12 {
        x := if Token(j)[k] != '_' then 0 else 1;
        assert s[k + x] != t[x] by {
          NoDoubleUnderscoreInside(j, k);
          assert s[k + x] == Token(j)[k + x];
        }
      } else {
        var rest := t[15 - k..20 - k];
        TokenMiddle(t, i, k);
        var y := MismatchAfterToken(rest, u, z);
        x := 15 - k + y;
        assert s[k + x] != t[x] by {
          assert s[15 + y] == w[y];
          assert t[x] == rest[y];
        }
      }
      MismatchNoOccur(s, t, k, x);
    }
  }

  /** The five characters of a token that an occurrence starting at 13 or 14 would lay over the following text. */
  lemma TokenMiddle(t: string, i: nat, k: nat)
    requires i < 10 && 13 <= k < 15
    requires t == ['_', '_', 'P', 'I', 'I', '_', 'T', 'O', 'K', 'E', 'N', '_', DigitChar(i), '_', '_']
    ensures t[15 - k..20 - k] == if k == 13 then ['P', 'I', 'I', '_', 'T'] else ['_', 'P', 'I', 'I', '_']
  {
    if k == 13 {
      assert t[2..7] == ['P', 'I', 'I', '_', 'T'];
    } else {
      assert t[1..6] == ['_', 'P', 'I', 'I', '_'];
    }
  }

  /** One differing character rules out an occurrence. */
  lemma MismatchNoOccur(s: string, t: string, k: nat, x: nat)
    requires x < |t| && k + x < |s| && s[k + x] != t[x]
    ensures !OccursAt(s, t, k)
  {
    if k + |t| <= |s| {
      assert s[k..k + |t|][x] == s[k + x];
    }
  }

  /** Text with no `_` up to its end or a `__` starts with neither `"_PII_"` nor `"PII_T"`. */
  lemma MismatchAfterToken(rest: string, u: string, z: string) returns (y: nat)
    requires FreeThenDouble(u, z) && |u + z| >= 5
    requires rest == ['_', 'P', 'I', 'I', '_'] || rest == ['P', 'I', 'I', '_', 'T']
    ensures y < 5 && (u + z)[y] != rest[y]
  {
    var w := u + z;
    if rest[0] == '_' {
      if |u| > 0 {
        y := 0;
        assert w[0] == u[0] && u[0] in u;
      } else {
        y := 1;
        assert w[1] == z[1];
      }
    } else if |u| > 3 {
      y := 3;
      assert w[3] == u[3] && u[3] in u;
    } else {
      assert w[|u|] == z[0] && w[|u| + 1] == z[1];
      y := if |u| == 3 then 4 else |u|;
    }
  }

  /** Inside a token, `__` occurs only at its start and its end. */
  lemma NoDoubleUnderscoreInside(j: nat, k: nat)
    requires j < 10 && 1 <= k <= 12
    requires Token(j) == ['_', '_', 'P', 'I', 'I', '_', 'T', 'O', 'K', 'E', 'N', '_', DigitChar(j), '_', '_']
    ensures !(Token(j)[k] == '_' && Token(j)[k + 1] == '_')
  {
    var t := Token(j);
    if k == 1 { assert t[2] == 'P'; }
    else if k == 5 { assert t[6] == 'T'; }
    else if k == 11 { assert t[12] == DigitChar(j); }
    else if k == 12 { assert t[12] == DigitChar(j); }
    else if k < 5 { assert t[k] != '_'; }
    else { assert t[k] != '_'; }
  }

  /** The rendering of cleanly filled segments has no `_` up to its end or the first token still in place. */
  lemma {:induction false} RenderShape(segs: seq<Seg>, done: set<nat>, vals: seq<string>) returns (u: string, z: string)
    requires Clean(segs, vals)
    ensures Render(Fill(segs, done, vals)) == u + z && FreeThenDouble(u, z)
    decreases |segs|
  {
    if segs == [] {
      u, z := "", "";
    } else {
      var f := Fill(segs, done, vals);
      assert f[1..] == Fill(segs[1..], done, vals);
      assert Clean(segs[1..], vals) by {
        forall k | 0 <= k < |segs[1..]| ensures segs[1..][k] == segs[k + 1] {
        }
      }
      var g := FillSeg(segs[0], done, vals);
      if g.Tok? {
        TokenShape(g.idx);
        u, z := "", Render(f);
      } else {
        var u1, z1 := RenderShape(segs[1..], done, vals);
        u, z := g.s + u1, z1;
      }
    }
  }

  lemma CleanTail(segs: seq<Seg>, vals: seq<string>)
    requires segs != [] && Clean(segs, vals)
    ensures Clean(segs[1..], vals)
    ensures segs[0].Plain? ==> '_' !in segs[0].s
    ensures segs[0].Tok? ==> segs[0].idx < |vals|
  {
    forall k | 0 <= k < |segs[1..]| ensures segs[1..][k] == segs[k + 1] {
    }
  }

  /** One segment, followed by a rendering of the right shape, under the replacement of `Token(i)`. */
  lemma ReplaceFilledHead(g: Seg, u: string, z: string, rest2: string, done: set<nat>, vals: seq<string>, i: nat)
    requires i < |vals| <= 10 && (forall k :: 0 <= k < |vals| ==> '_' !in vals[k])
    requires g.Plain? ==> '_' !in g.s
    requires g.Tok? ==> g.idx < |vals|
    requires FreeThenDouble(u, z) && Replace(u + z, Token(i), vals[i]) == rest2
    ensures Replace(RenderSeg(FillSeg(g, done, vals)) + (u + z), Token(i), vals[i])
         == RenderSeg(FillSeg(g, done + {i}, vals)) + rest2
  {
    var h := RenderSeg(FillSeg(g, done, vals));
    var h2 := RenderSeg(FillSeg(g, done + {i}, vals));
    if g.Tok? && g.idx !in done && g.idx == i {
      assert h == Token(i) && h2 == vals[i];
      ReplaceAtStart(Token(i), u + z, vals[i]);
    } else if g.Tok? && g.idx !in done {
      assert h == Token(g.idx) && h2 == h;
      TokenSkip(g.idx, i, u, z, vals[i]);
      assert Token(g.idx) + u + z == Token(g.idx) + (u + z);
    } else {
      assert h2 == h;
      assert '_' !in h;
      TokenFirst(i);
      ReplaceAfterFree(h, u + z, Token(i), vals[i]);
    }
  }

  /**
   * Replacing `Token(i)` by its value in a cleanly filled rendering is the
   * rendering with `i` filled too.
   */
  lemma {:induction false} ReplaceFilled(segs: seq<Seg>, done: set<nat>, vals: seq<string>, i: nat)
    requires Clean(segs, vals) && i < |vals|
    ensures Replace(Render(Fill(segs, done, vals)), Token(i), vals[i]) == Render(Fill(segs, done + {i}, vals))
    decreases |segs|
  {
    if segs != [] {
      var f := Fill(segs, done, vals);
      var f2 := Fill(segs, done + {i}, vals);
      assert f[1..] == Fill(segs[1..], done, vals);
      assert f2[1..] == Fill(segs[1..], done + {i}, vals);
      CleanTail(segs, vals);
      ReplaceFilled(segs[1..], done, vals, i);
      var u, z := RenderShape(segs[1..], done, vals);
      ReplaceFilledHead(segs[0], u, z, Render(f2[1..]), done, vals, i);
      assert Render(f) == RenderSeg(f[0]) + Render(f[1..]);
      assert Render(f2) == RenderSeg(f2[0]) + Render(f2[1..]);
    }
  }

  /** The indices below `n` whose tokens appear in `order`. */
  function OrderIndices(order: seq<string>, n: nat): set<nat> {
    set i: nat | i < n && Token(i) in order
  }

  /** `t` is the token of some index `i`, and the map takes it to `vals[i]`. */
  predicate TokenFor(t: string, m: map<string, string>, vals: seq<string>) {
    t in m && exists i: nat :: i < |vals| && t == Token(i) && m[t] == vals[i]
  }

  /** Every entry of `order` is a key of the map, the token of an index whose value it maps to. */
  predicate TokensOf(order: seq<string>, m: map<string, string>, vals: seq<string>) {
    |vals| <= 10 && forall t :: t in order ==> TokenFor(t, m, vals)
  }

  lemma TokensAreKeys(order: seq<string>, m: map<string, string>, vals: seq<string>)
    requires TokensOf(order, m, vals)
    ensures forall t :: t in order ==> t in m && |t| > 0
  {
    forall t | t in order ensures t in m && |t| > 0 {
      var i: nat :| i < |vals| && t == Token(i) && m[t] == vals[i];
      TokenShape(i);
    }
  }

  lemma OrderIndicesCons(order: seq<string>, n: nat, i: nat)
    requires order != [] && i < n <= 10 && order[0] == Token(i)
    ensures OrderIndices(order, n) == {i} + OrderIndices(order[1..], n)
  {
    forall x: nat | x < n && Token(x) in order ensures x == i || Token(x) in order[1..] {
      if Token(x) == order[0] {
        TokenInjective(x, i);
      } else {
        var k :| 0 <= k < |order| && order[k] == Token(x);
        assert order[1..][k - 1] == Token(x);
      }
    }
    forall x: nat | x < n && Token(x) in order[1..] ensures Token(x) in order {
      var k :| 0 <= k < |order[1..]| && order[1..][k] == Token(x);
      assert order[k + 1] == Token(x);
    }
  }

  /**
   * Replacing each token of `order`, in turn, by its value fills exactly the
   * indices of the tokens in `order`, whatever the order.
   */
  lemma {:induction false} DetokenizeFills(
    segs: seq<Seg>, done: set<nat>, vals: seq<string>, m: map<string, string>, order: seq<string>)
    requires Clean(segs, vals) && TokensOf(order, m, vals)
    ensures forall t :: t in order ==> t in m && |t| > 0
    ensures Detokenized(Render(Fill(segs, done, vals)), m, order)
         == Render(Fill(segs, done + OrderIndices(order, |vals|), vals))
    decreases |order|
  {
    TokensAreKeys(order, m, vals);
    if order == [] {
      assert OrderIndices(order, |vals|) == {};
      assert done + {} == done;
    } else {
      var t := order[0];
      assert TokenFor(t, m, vals);
      var i: nat :| i < |vals| && t == Token(i) && m[t] == vals[i];
      ReplaceFilled(segs, done, vals, i);
      assert TokensOf(order[1..], m, vals) by {
        forall t' | t' in order[1..] ensures TokenFor(t', m, vals) {
          assert t' in order;
        }
      }
      DetokenizeFills(segs, done + {i}, vals, m, order[1..]);
      OrderIndicesCons(order, |vals|, i);
      assert done + {i} + OrderIndices(order[1..], |vals|) == done + OrderIndices(order, |vals|);
    }
  }

  // ---------------------------------------------------------------------
  // The tokenized text as segments
  // ---------------------------------------------------------------------

  /** The segments of a spliced text: the `k`-th span becomes token `base + k`. */
  function SegsOf(text: string, ds: seq<Detection>, base: nat): (r: seq<Seg>)
    requires DescDisjoint(ds, |text|)
    decreases |ds|
  {
    if ds == [] then [Plain(text)]
    else
      DescDisjointTail(ds, |text|);
      SegsOf(text[..ds[0].start], ds[1..], base + 1) + [Tok(base), Plain(text[ds[0].end..])]
  }

  /** Splicing in what each filled token renders to is rendering the filled segments. */
  lemma {:induction false} SpliceAsSegs(
    text: string, ds: seq<Detection>, reps: seq<string>, base: nat, done: set<nat>, vals: seq<string>)
    requires |reps| == |ds| && DescDisjoint(ds, |text|)
    requires forall k :: 0 <= k < |ds| ==> reps[k] == RenderSeg(FillSeg(Tok(base + k), done, vals))
    ensures Render(Fill(SegsOf(text, ds, base), done, vals)) == Splice(text, ds, reps)
    decreases |ds|
  {
    if ds == [] {
      assert Fill([Plain(text)], done, vals) == [Plain(text)];
      assert Render([Plain(text)]) == text + Render([]);
    } else {
      DescDisjointTail(ds, |text|);
      var p := text[..ds[0].start];
      assert Render(Fill(SegsOf(p, ds[1..], base + 1), done, vals)) == Splice(p, ds[1..], reps[1..]) by {
        forall k | 0 <= k < |ds[1..]| ensures reps[1..][k] == RenderSeg(FillSeg(Tok(base + 1 + k), done, vals)) {
          assert reps[1..][k] == reps[k + 1];
        }
        SpliceAsSegs(p, ds[1..], reps[1..], base + 1, done, vals);
      }
      assert reps[0] == RenderSeg(FillSeg(Tok(base), done, vals)) by {
        assert reps[0] == RenderSeg(FillSeg(Tok(base + 0), done, vals));
      }
      SpliceAsSegsStep(text, ds, reps, base, done, vals);
    }
  }

  /** The first span's token, between the segments of the text before it and the text after it. */
  lemma SpliceAsSegsStep(
    text: string, ds: seq<Detection>, reps: seq<string>, base: nat, done: set<nat>, vals: seq<string>)
    requires ds != [] && |reps| == |ds| && DescDisjoint(ds, |text|)
    requires DescDisjoint(ds[1..], ds[0].start)
    requires reps[0] == RenderSeg(FillSeg(Tok(base), done, vals))
    requires Render(Fill(SegsOf(text[..ds[0].start], ds[1..], base + 1), done, vals))
          == Splice(text[..ds[0].start], ds[1..], reps[1..])
    ensures Render(Fill(SegsOf(text, ds, base), done, vals)) == Splice(text, ds, reps)
  {
    var p := text[..ds[0].start];
    var q := text[ds[0].end..];
    var a := SegsOf(p, ds[1..], base + 1);
    SegsHead(text, ds, base);
    SpliceHead(text, ds, reps);
    RenderFillAppend(a, [Tok(base), Plain(q)], done, vals);
    RenderFillPair(base, q, done, vals);
    Regroup3(Render(Fill(a, done, vals)), reps[0], q);
  }

  lemma SegsHead(text: string, ds: seq<Detection>, base: nat)
    requires ds != [] && DescDisjoint(ds, |text|)
    ensures DescDisjoint(ds[1..], ds[0].start) && ds[0].end <= |text|
    ensures SegsOf(text, ds, base)
         == SegsOf(text[..ds[0].start], ds[1..], base + 1) + [Tok(base), Plain(text[ds[0].end..])]
  {
    DescDisjointTail(ds, |text|);
  }

  lemma SpliceHead(text: string, ds: seq<Detection>, reps: seq<string>)
    requires ds != [] && |reps| == |ds| && DescDisjoint(ds, |text|)
    ensures DescDisjoint(ds[1..], ds[0].start) && ds[0].end <= |text|
    ensures Splice(text, ds, reps)
         == Splice(text[..ds[0].start], ds[1..], reps[1..]) + reps[0] + text[ds[0].end..]
  {
    DescDisjointTail(ds, |text|);
  }

  lemma RenderFillAppend(a: seq<Seg>, b: seq<Seg>, done: set<nat>, vals: seq<string>)
    ensures Render(Fill(a + b, done, vals)) == Render(Fill(a, done, vals)) + Render(Fill(b, done, vals))
  {
    assert Fill(a + b, done, vals) == Fill(a, done, vals) + Fill(b, done, vals);
    RenderAppend(Fill(a, done, vals), Fill(b, done, vals));
  }

  lemma RenderFillPair(base: nat, q: string, done: set<nat>, vals: seq<string>)
    ensures Render(Fill([Tok(base), Plain(q)], done, vals)) == RenderSeg(FillSeg(Tok(base), done, vals)) + q
  {
    assert Fill([Tok(base), Plain(q)], done, vals) == [FillSeg(Tok(base), done, vals), Plain(q)];
    RenderPair(FillSeg(Tok(base), done, vals), Plain(q));
  }

  lemma Regroup3(x: string, y: string, z: string)
    ensures x + (y + z) == x + y + z
  {
  }

  lemma RenderPair(x: Seg, y: Seg)
    ensures Render([x, y]) == RenderSeg(x) + RenderSeg(y)
  {
    assert [x, y][1..] == [y];
    assert [y][1..] == [];
    assert Render([y]) == RenderSeg(y) + Render([]);
    assert RenderSeg(y) + "" == RenderSeg(y);
  }

  predicate TokensWithin(segs: seq<Seg>, lo: nat, hi: nat) {
    forall k :: 0 <= k < |segs| && segs[k].Tok? ==> lo <= segs[k].idx < hi
  }

  predicate PlainsFree(segs: seq<Seg>) {
    forall k :: 0 <= k < |segs| && segs[k].Plain? ==> '_' !in segs[k].s
  }

  /** Every token of the segments has an index below `base + |ds|`, and every plain stretch is a piece of the text. */
  lemma {:induction false} SegsOfParts(text: string, ds: seq<Detection>, base: nat)
    requires DescDisjoint(ds, |text|)
    ensures TokensWithin(SegsOf(text, ds, base), base, base + |ds|)
    ensures '_' !in text ==> PlainsFree(SegsOf(text, ds, base))
    decreases |ds|
  {
    if ds != [] {
      DescDisjointTail(ds, |text|);
      var p := text[..ds[0].start];
      SegsOfParts(p, ds[1..], base + 1);
      var a := SegsOf(p, ds[1..], base + 1);
      var segs := a + [Tok(base), Plain(text[ds[0].end..])];
      assert SegsOf(text, ds, base) == segs;
      forall k | 0 <= k < |segs| && segs[k].Plain? && '_' !in text ensures '_' !in segs[k].s {
        if k < |a| {
          assert segs[k] == a[k];
          assert '_' !in p by {
            forall x | 0 <= x < |p| ensures p[x] != '_' {
              assert p[x] == text[x];
            }
          }
        } else {
          assert segs[k].s == text[ds[0].end..];
          forall x | 0 <= x < |text[ds[0].end..]| ensures text[ds[0].end..][x] != '_' {
            assert text[ds[0].end..][x] == text[ds[0].end + x];
          }
        }
      }
      forall k | 0 <= k < |segs| && segs[k].Tok? ensures base <= segs[k].idx < base + |ds| {
        if k < |a| {
          assert segs[k] == a[k];
        }
      }
    }
  }

  // ---------------------------------------------------------------------
  // The token map
  // ---------------------------------------------------------------------

  /** The tokens of the indices below `n`. */
  function TokenSet(n: nat): set<string> {
    set k: nat | k < n :: Token(k)
  }

  /** The keys of the token map are the tokens of the indices below the number of detections. */
  lemma {:induction false} TokenMapKeys(ds: seq<Detection>)
    ensures TokenMapOf(ds).Keys == TokenSet(|ds|)
    decreases |ds|
  {
    if ds != [] {
      var n := |ds| - 1;
      TokenMapKeys(ds[..n]);
      assert TokenSet(n + 1) == TokenSet(n) + {Token(n)};
    }
  }

  /** Token `k` maps to the value of the `k`-th span, and there is one entry per detection. */
  lemma {:induction false} TokenMapEntries(ds: seq<Detection>)
    requires |ds| <= 10
    ensures forall k: nat :: k < |ds| ==> Token(k) in TokenMapOf(ds) && TokenMapOf(ds)[Token(k)] == ds[k].value
    ensures |TokenMapOf(ds)| == |ds|
    decreases |ds|
  {
    if ds != [] {
      var n := |ds| - 1;
      var init := ds[..n];
      var m0 := TokenMapOf(init);
      assert TokenMapOf(ds) == m0[Token(n) := ds[n].value];
      assert Token(n) !in m0 by {
        TokenMapKeys(init);
        forall k: nat | k < n ensures Token(k) != Token(n) {
          TokenDistinct(k, n);
        }
      }
      assert |m0| == n && forall k: nat :: k < n ==> Token(k) in m0 && m0[Token(k)] == ds[k].value by {
        TokenMapEntries(init);
        forall k: nat | k < n ensures init[k] == ds[k] {
        }
      }
    }
  }

  // ---------------------------------------------------------------------
  // The round trip
  // ---------------------------------------------------------------------

  /**
   * `detokenize(tokenize(t)) == t`: detokenizing the tokenized text with its
   * token map, in any iteration order of the map, gives back the text, when
   * the text holds no `_`, the spans do not overlap, each detection's value
   * is the text of its span, and there are at most ten detections.
   */
  lemma TokenizeRoundTrip(text: string, detections: seq<Detection>, order: seq<string>)
    requires '_' !in text && |detections| <= 10
    requires DescDisjoint(SortByStartDesc(detections), |text|)
    requires forall d :: d in detections ==> d.start <= d.end <= |text| && d.value == text[d.start..d.end]
    requires IterationOrder(TokenMapOf(SortByStartDesc(detections)), order)
    ensures forall t :: t in order ==> t in TokenMapOf(SortByStartDesc(detections)) && |t| > 0
    ensures Detokenized(Tokenized(text, detections), TokenMapOf(SortByStartDesc(detections)), order) == text
  {
    var ds := SortByStartDesc(detections);
    var m := TokenMapOf(ds);
    var vals := ValuesOf(ds);
    var segs := SegsOf(text, ds, 0);
    SortedValues(text, detections, ds);
    TokenizedAsSegs(text, ds, vals);
    OrderTokens(ds, order);
    DetokenizeFills(segs, {}, vals, m, order);
    FullyFilled(text, ds, vals, order);
  }

  /** The tokenized text is the rendering of its segments with nothing filled. */
  lemma TokenizedAsSegs(text: string, ds: seq<Detection>, vals: seq<string>)
    requires '_' !in text && |ds| <= 10 && DescDisjoint(ds, |text|) && vals == ValuesOf(ds)
    requires forall k :: 0 <= k < |ds| ==> '_' !in vals[k]
    ensures Clean(SegsOf(text, ds, 0), vals)
    ensures Render(Fill(SegsOf(text, ds, 0), {}, vals)) == Splice(text, ds, Tokens(|ds|))
  {
    SegsOfParts(text, ds, 0);
    SpliceAsSegs(text, ds, Tokens(|ds|), 0, {}, vals);
  }

  /** With every token of the map replaced, the segments render to the original text. */
  lemma FullyFilled(text: string, ds: seq<Detection>, vals: seq<string>, order: seq<string>)
    requires |ds| <= 10 && DescDisjoint(ds, |text|) && vals == ValuesOf(ds)
    requires forall k :: 0 <= k < |ds| ==> vals[k] == text[ds[k].start..ds[k].end]
    requires IterationOrder(TokenMapOf(ds), order)
    ensures Render(Fill(SegsOf(text, ds, 0), {} + OrderIndices(order, |vals|), vals)) == text
  {
    var full := {} + OrderIndices(order, |vals|);
    OrderCoversAll(ds, TokenMapOf(ds), order);
    AllFilledAsSplice(text, ds, vals, full);
    SpliceOriginal(text, ds, vals);
  }

  /** With every token filled, the segments render to the text with each span's value spliced in. */
  lemma AllFilledAsSplice(text: string, ds: seq<Detection>, vals: seq<string>, full: set<nat>)
    requires |vals| == |ds| && DescDisjoint(ds, |text|)
    requires forall k: nat :: k < |ds| ==> k in full
    ensures Render(Fill(SegsOf(text, ds, 0), full, vals)) == Splice(text, ds, vals)
  {
    forall k | 0 <= k < |ds| ensures vals[k] == RenderSeg(FillSeg(Tok(0 + k), full, vals)) {
      assert k in full;
    }
    SpliceAsSegs(text, ds, vals, 0, full, vals);
  }

  /** An iteration order of the token map holds the token of every detection. */
  lemma OrderCoversAll(ds: seq<Detection>, m: map<string, string>, order: seq<string>)
    requires m == TokenMapOf(ds) && forall t :: t in m ==> t in order
    ensures forall k: nat :: k < |ds| ==> k in OrderIndices(order, |ds|)
  {
    TokenMapKeys(ds);
    forall k: nat | k < |ds| ensures Token(k) in order {
      assert Token(k) in TokenSet(|ds|);
    }
  }

  function ValuesOf(ds: seq<Detection>): (vals: seq<string>)
    ensures |vals| == |ds| && forall k :: 0 <= k < |ds| ==> vals[k] == ds[k].value
  {
    seq(|ds|, (k: int) requires 0 <= k < |ds| => ds[k].value)
  }

  /** After sorting, each value is still the text of its span, and holds no `_` when the text holds none. */
  lemma SortedValues(text: string, detections: seq<Detection>, ds: seq<Detection>)
    requires ds == SortByStartDesc(detections) && DescDisjoint(ds, |text|)
    requires forall d :: d in detections ==> d.start <= d.end <= |text| && d.value == text[d.start..d.end]
    ensures forall k :: 0 <= k < |ds| ==> ValuesOf(ds)[k] == text[ds[k].start..ds[k].end]
    ensures '_' !in text ==> forall k :: 0 <= k < |ds| ==> '_' !in ValuesOf(ds)[k]
  {
    forall k | 0 <= k < |ds| ensures ds[k].start <= ds[k].end <= |text| && ds[k].value == text[ds[k].start..ds[k].end] {
      SortedFrom(detections, k);
    }
    if '_' !in text {
      forall k | 0 <= k < |ds| ensures '_' !in ds[k].value {
        SliceFree(text, ds[k].start, ds[k].end, '_');
      }
    }
  }

  /** Sorting only rearranges the detections. */
  lemma SortedFrom(detections: seq<Detection>, k: nat)
    requires k < |SortByStartDesc(detections)|
    ensures SortByStartDesc(detections)[k] in detections
  {
    assert SortByStartDesc(detections)[k] in multiset(detections);
  }

  /** A piece of a text without `c` has no `c`. */
  lemma SliceFree(text: string, a: nat, b: nat, c: char)
    requires c !in text && a <= b <= |text|
    ensures c !in text[a..b]
  {
    forall x | 0 <= x < b - a ensures text[a..b][x] != c {
      assert text[a..b][x] == text[a + x];
    }
  }

  /** Each token of an iteration order of the token map names an index and maps to that index's value. */
  lemma OrderTokens(ds: seq<Detection>, order: seq<string>)
    requires |ds| <= 10 && IterationOrder(TokenMapOf(ds), order)
    ensures TokensOf(order, TokenMapOf(ds), ValuesOf(ds))
  {
    var m := TokenMapOf(ds);
    var vals := ValuesOf(ds);
    TokenMapKeys(ds);
    TokenMapEntries(ds);
    forall t | t in order ensures TokenFor(t, m, vals) {
      assert t in TokenSet(|ds|);
      var k: nat :| k < |ds| && t == Token(k);
      assert m[t] == vals[k];
    }
  }

  /**
   * Absence of whole tokens in the text is not enough: a text that ends in a
   * token's first thirteen characters, followed by a detected span, does not
   * round-trip, because the first `__` of the inserted token completes the
   * earlier prefix.
   */
  lemma TokenPrefixBreaksRoundTrip()
    ensures var text := "__PII_TOKEN_0" + "ab";
      var d := Detection(Email, 13, 15, "ab");
      && DescDisjoint(SortByStartDesc([d]), |text|)
      && !Contains(text, Token(0))
      && Detokenized(Tokenized(text, [d]), TokenMapOf([d]), [Token(0)]) == "ab" + "PII_TOKEN_0__"
      && "ab" + "PII_TOKEN_0__" != text
  {
    var text := "__PII_TOKEN_0" + "ab";
    var d := Detection(Email, 13, 15, "ab");
    assert SortByStartDesc([d]) == [d];
    PrefixLacksToken();
    PrefixTokenized();
    PrefixDetokenized();
    assert ("ab" + "PII_TOKEN_0__")[0] != text[0];
  }

  lemma PrefixToken()
    ensures Token(0) == "__PII_TOKEN_0" + "__"
  {
    TokenShape(0);
  }

  /** The text before the span, followed by the token, is the token followed by the rest of the text. */
  lemma PrefixOverlap()
    ensures "__PII_TOKEN_0" + Token(0) == Token(0) + "PII_TOKEN_0__"
  {
    PrefixToken();
  }

  lemma PrefixLacksToken()
    ensures !Contains("__PII_TOKEN_0" + "ab", Token(0))
  {
    var text := "__PII_TOKEN_0" + "ab";
    var t := Token(0);
    PrefixToken();
    assert |text| == 15 == |t| && text[13] == 'a' && t[13] == '_';
    forall i | 0 <= i <= |text| - |t| ensures !OccursAt(text, t, i) {
      assert text[i..i + |t|][13] != t[13];
    }
  }

  lemma PrefixTokenized()
    ensures var d := Detection(Email, 13, 15, "ab");
      && DescDisjoint(SortByStartDesc([d]), 15)
      && Tokenized("__PII_TOKEN_0" + "ab", [d]) == "__PII_TOKEN_0" + Token(0)
  {
    var text := "__PII_TOKEN_0" + "ab";
    var d := Detection(Email, 13, 15, "ab");
    var t := Token(0);
    assert SortByStartDesc([d]) == [d];
    assert Tokens(1) == [t];
    assert [d][1..] == [] && Tokens(1)[1..] == [];
    assert text[..13] == "__PII_TOKEN_0" && text[15..] == "";
    assert Splice(text, [d], [t]) == Splice(text[..13], [], []) + t + text[15..];
  }

  lemma PrefixDetokenized()
    ensures var d := Detection(Email, 13, 15, "ab");
      Detokenized("__PII_TOKEN_0" + Token(0), TokenMapOf([d]), [Token(0)]) == "ab" + "PII_TOKEN_0__"
  {
    var d := Detection(Email, 13, 15, "ab");
    var t := Token(0);
    var tail := "PII_TOKEN_0__";
    PrefixOverlap();
    assert TokenMapOf([d]) == map[t := "ab"];
    DetokenizeSingle("__PII_TOKEN_0" + t, t, "ab");
    ReplaceWholeThenShort(t, tail, "ab");
  }

  /** Detokenizing with a one-entry map is one replacement. */
  lemma DetokenizeSingle(x: string, t: string, v: string)
    requires |t| > 0
    ensures Detokenized(x, map[t := v], [t]) == Replace(x, t, v)
  {
    assert [t][1..] == [];
  }

  /** A whole pattern followed by text too short to hold another is replaced once. */
  lemma ReplaceWholeThenShort(t: string, tail: string, rep: string)
    requires 0 < |t| && |tail| < |t|
    ensures Replace(t + tail, t, rep) == rep + tail
  {
    ReplaceAtStart(t, tail, rep);
  }

  /**
   * End to end: tokenizing what the default patterns find, then detokenizing
   * with the token map `filter` returns, restores the text.
   */
  lemma FilterTokenizeRoundTrip(text: string, find: PiiType -> Option<Span>, order: seq<string>)
    requires Fits(text, find) && MatchesApart(find) && '_' !in text
    requires IterationOrder(TokenMapOf(SortByStartDesc(Detections(DefaultPatterns, text, find))), order)
    ensures DescDisjoint(SortByStartDesc(Detections(DefaultPatterns, text, find)), |text|)
    ensures forall t :: t in order ==> |t| > 0
    ensures Detokenized(Tokenized(text, Detections(DefaultPatterns, text, find)),
                        TokenMapOf(SortByStartDesc(Detections(DefaultPatterns, text, find))), order) == text
  {
    var ds := Detections(DefaultPatterns, text, find);
    SortedDetectionsDisjoint(text, find);
    forall d | d in ds ensures d.start <= d.end <= |text| && d.value == text[d.start..d.end] {
    }
    TokenizeRoundTrip(text, ds, order);
  }
}
