/**
 * Search URLs built from a broker's URL template and the profile's name and
 * location (`build_search_url`), with the simple slug encoding used for
 * every substituted value (`url_encode_simple`).
 */
module UrlBuilder {
  import opened Wrappers
  import opened Text
  import BD = BrokerDefinition
  import VP = VaultProfile

  /** The scanner error this module raises. */
  datatype ScanError = ProfileDataError(brokerId: string, reason: string)

  /** What `url_encode_simple` keeps as it is. */
  predicate IsSlugChar(c: char) {
    IsAlphanumeric(c) || c == '-' || c == '_'
  }

  /** What one character becomes: itself, a hyphen for white space, or nothing. */
  function EncodeChar(c: char): string {
    if IsSlugChar(c) then [c] else if IsWhitespace(c) then "-" else ""
  }

  /** `url_encode_simple`. */
  function UrlEncodeSimple(s: string): (r: string)
    ensures |r| <= |s|
    ensures forall k :: 0 <= k < |r| ==> IsSlugChar(r[k])
  {
    if s == [] then "" else EncodeChar(s[0]) + UrlEncodeSimple(s[1..])
  }

  /** Encoding distributes over concatenation. */
  lemma {:induction false} EncodeAppend(a: string, b: string)
    ensures UrlEncodeSimple(a + b) == UrlEncodeSimple(a) + UrlEncodeSimple(b)
  {
    if a != [] {
      assert (a + b)[1..] == a[1..] + b;
      EncodeAppend(a[1..], b);
    } else {
      assert a + b == b;
    }
  }

  /** Text made only of kept characters is its own encoding. */
  lemma {:induction false} EncodeKeepsSlug(s: string)
    requires forall k :: 0 <= k < |s| ==> IsSlugChar(s[k])
    ensures UrlEncodeSimple(s) == s
  {
    if s != [] {
      EncodeKeepsSlug(s[1..]);
    }
  }

  /** Encoding already-encoded text leaves it unchanged. */
  lemma EncodeIdempotent(s: string)
    ensures UrlEncodeSimple(UrlEncodeSimple(s)) == UrlEncodeSimple(s)
  {
    EncodeKeepsSlug(UrlEncodeSimple(s));
  }

  /** Each white-space character becomes one hyphen, other punctuation is dropped. */
  lemma EncodeSpaceAndPunctuation(c: char, s: string)
    requires IsWhitespace(c)
    ensures UrlEncodeSimple([c] + s) == "-" + UrlEncodeSimple(s)
    ensures UrlEncodeSimple(['.'] + s) == UrlEncodeSimple(s)
  {
    assert !IsSlugChar(c) && EncodeChar(c) == "-" && EncodeChar('.') == "";
    assert ([c] + s)[1..] == s;
    assert (['.'] + s)[1..] == s;
  }

  /**
   * One placeholder step: when the field is stored, decrypt it (a failure
   * is reported after `failure`, which names the field), optionally
   * lower-case it, encode it and replace every `placeholder` with it; when
   * it is not stored, the URL is left as it is.
   */
  function Substitute(url: string, field: Option<VP.Sealed>, failure: string, placeholder: string,
                      lower: bool, decrypt: VP.Sealed -> Result<string, string>, brokerId: string)
    : (r: Result<string, ScanError>)
    requires |placeholder| > 0
    ensures field.None? ==> r == Ok(url)
    ensures field.Some? && decrypt(field.value).Err? ==>
      r == Err(ProfileDataError(brokerId, failure + decrypt(field.value).error))
    ensures field.Some? && decrypt(field.value).Ok? ==> r.Ok?
  {
    match field
    case None => Ok(url)
    case Some(sealed) =>
      match decrypt(sealed)
      case Err(e) => Err(ProfileDataError(brokerId, failure + e))
      case Ok(plain) =>
        var encoded := UrlEncodeSimple(if lower then ToLowercase(plain) else plain);
        Ok(Replace(url, placeholder, encoded))
  }

  /**
   * `build_search_url`, with decryption passed in. First name, last name and
   * city are lower-cased before encoding; the state is not.
   */
  function BuildSearchUrl(brokerId: string, search: BD.SearchMethod, p: VP.UserProfile,
                          decrypt: VP.Sealed -> Result<string, string>)
    : (r: Result<string, ScanError>)
    ensures !search.UrlTemplate? ==>
      r == Err(ProfileDataError(brokerId, "URL building only supported for UrlTemplate search method"))
    ensures search.UrlTemplate? && p.firstName.None? && p.lastName.None? && p.state.None? && p.city.None?
      ==> r == Ok(search.template)
    ensures search.UrlTemplate? && p.firstName.Some? && decrypt(p.firstName.value).Err? ==>
      r == Err(ProfileDataError(brokerId, "Failed to decrypt first_name: " + decrypt(p.firstName.value).error))
  {
    if !search.UrlTemplate? then
      Err(ProfileDataError(brokerId, "URL building only supported for UrlTemplate search method"))
    else
      var u1 :- Substitute(search.template, p.firstName, "Failed to decrypt first_name: ", "{first}",
                           true, decrypt, brokerId);
      var u2 :- Substitute(u1, p.lastName, "Failed to decrypt last_name: ", "{last}", true, decrypt, brokerId);
      var u3 :- Substitute(u2, p.state, "Failed to decrypt state: ", "{state}", false, decrypt, brokerId);
      var u4 :- Substitute(u3, p.city, "Failed to decrypt city: ", "{city}", true, decrypt, brokerId);
      Ok(u4)
  }

  /** A word of letters is lower-cased and kept whole by the encoding. */
  lemma EncodeLowerWord(w: string, lowered: string)
    requires |w| == |lowered|
    requires forall k :: 0 <= k < |w| ==> lowered[k] == ToLowerChar(w[k]) && IsAsciiAlpha(lowered[k])
    ensures UrlEncodeSimple(ToLowercase(w)) == lowered
  {
    assert ToLowercase(w) == lowered;
    EncodeKeepsSlug(lowered);
  }

  /**
   * A template of the documented shape `<host>{first}-{last}/{state}/{city}`
   * is filled in place by the four encoded values, when neither the host nor
   * the values hold a brace.
   */
  lemma FillTemplate(host: string, first: string, last: string, state: string, city: string)
    requires '{' !in host && '{' !in first && '{' !in last && '{' !in state
    ensures var t := host + "{first}" + "-" + "{last}" + "/" + "{state}" + "/" + "{city}";
            Replace(Replace(Replace(Replace(t, "{first}", first), "{last}", last), "{state}", state), "{city}", city)
            == host + first + "-" + last + "/" + state + "/" + city
  {
    assert 'f' in "{first}" && 'f' !in "-" + "{last}" + "/" + "{state}" + "/" + "{city}";
    assert 'l' in "{last}" && 'l' !in "/" + "{state}" + "/" + "{city}";
    assert 's' in "{state}" && 's' !in "/" + "{city}";
    FillFour(host, "{first}", "{last}", "{state}", "{city}", "-", "/", "/", first, last, state, city, 'f', 'l', 's');
  }

  /**
   * Four placeholders, each starting with a brace and told apart from the
   * ones after it by a character of its own, are each filled once, in order.
   */
  lemma FillFour(host: string, k1: string, k2: string, k3: string, k4: string, s1: string, s2: string, s3: string,
                 v1: string, v2: string, v3: string, v4: string, c1: char, c2: char, c3: char)
    requires |k1| > 0 && |k2| > 0 && |k3| > 0 && |k4| > 0
    requires k1[0] == '{' && k2[0] == '{' && k3[0] == '{' && k4[0] == '{'
    requires '{' !in host && '{' !in v1 && '{' !in v2 && '{' !in v3
    requires '{' !in s1 && '{' !in s2 && '{' !in s3
    requires c1 in k1 && c1 !in s1 + k2 + s2 + k3 + s3 + k4
    requires c2 in k2 && c2 !in s2 + k3 + s3 + k4
    requires c3 in k3 && c3 !in s3 + k4
    ensures Replace(Replace(Replace(Replace(host + k1 + s1 + k2 + s2 + k3 + s3 + k4, k1, v1), k2, v2), k3, v3), k4, v4)
         == host + v1 + s1 + v2 + s2 + v3 + s3 + v4
  {
    var r3 := s3 + k4;
    var r2 := s2 + k3 + r3;
    var r1 := s1 + k2 + r2;
    var h1 := host + v1 + s1;
    var h2 := h1 + v2 + s2;
    var h3 := h2 + v3 + s3;
    assert host + k1 + r1 == host + k1 + s1 + k2 + s2 + k3 + s3 + k4 by {
      Regroup(host + k1, s1, k2, r2);
      Regroup(host + k1 + s1 + k2, s2, k3, r3);
      Regroup(host + k1 + s1 + k2 + s2 + k3, s3, k4, []);
    }
    FillOne(host, k1, r1, v1, c1);
    assert host + v1 + r1 == h1 + k2 + r2 by {
      Regroup(host + v1, s1, k2, r2);
    }
    FillOne(h1, k2, r2, v2, c2);
    assert h1 + v2 + r2 == h2 + k3 + r3 by {
      Regroup(h1 + v2, s2, k3, r3);
    }
    FillOne(h2, k3, r3, v3, c3);
    assert h2 + v3 + r3 == h3 + k4 + [] by {
      Regroup(h2 + v3, s3, k4, []);
    }
    FillOne(h3, k4, [], v4, k4[0]);
    assert h3 + k4 + [] == h3 + k4 && h3 + v4 + [] == h3 + v4;
  }

  /** Concatenation regrouped to the left. */
  lemma Regroup(x: string, s: string, k: string, r: string)
    ensures x + (s + k + r) == x + s + k + r
    ensures x + (s + k) == x + s + k + []
  {
  }

  /** A placeholder with a character of its own that the rest lacks, after text without its first character, is filled once. */
  lemma FillOne(a: string, key: string, rest: string, v: string, c: char)
    requires |key| > 0 && key[0] !in a && c in key && c !in rest
    ensures Replace(a + key + rest, key, v) == a + v + rest
  {
    NoCharNoPattern(rest, key, c);
    ReplaceOnce(a, key, rest, v);
  }

  /** Encoded text holds no brace. */
  lemma EncodedHasNoBrace(s: string)
    ensures '{' !in UrlEncodeSimple(s)
  {
    var r := UrlEncodeSimple(s);
    assert forall k :: 0 <= k < |r| ==> r[k] != '{' by {
      forall k | 0 <= k < |r| ensures r[k] != '{' {
        assert IsSlugChar(r[k]);
      }
    }
  }

  /**
   * On a template `<host>{first}-{last}/{state}/{city}` whose host holds no
   * brace, with all four fields stored and decryptable, each placeholder is
   * replaced by its encoded value: first name, last name and city
   * lower-cased, the state as it is.
   */
  lemma BuildFillsTemplate(host: string, search: BD.SearchMethod, p: VP.UserProfile,
                           decrypt: VP.Sealed -> Result<string, string>,
                           first: string, last: string, state: string, city: string, id: string)
    requires '{' !in host
    requires search.UrlTemplate?
    requires search.template == host + "{first}" + "-" + "{last}" + "/" + "{state}" + "/" + "{city}"
    requires p.firstName.Some? && decrypt(p.firstName.value) == Ok(first)
    requires p.lastName.Some? && decrypt(p.lastName.value) == Ok(last)
    requires p.state.Some? && decrypt(p.state.value) == Ok(state)
    requires p.city.Some? && decrypt(p.city.value) == Ok(city)
    ensures BuildSearchUrl(id, search, p, decrypt)
         == Ok(host + UrlEncodeSimple(ToLowercase(first)) + "-" + UrlEncodeSimple(ToLowercase(last)) + "/"
               + UrlEncodeSimple(state) + "/" + UrlEncodeSimple(ToLowercase(city)))
  {
    var f, l, st, c := UrlEncodeSimple(ToLowercase(first)), UrlEncodeSimple(ToLowercase(last)),
                       UrlEncodeSimple(state), UrlEncodeSimple(ToLowercase(city));
    EncodedHasNoBrace(ToLowercase(first));
    EncodedHasNoBrace(ToLowercase(last));
    EncodedHasNoBrace(state);
    FillTemplate(host, f, l, st, c);
  }

  /** The four values of the documented example, lower-cased (except the state) and encoded. */
  lemma ExampleEncodings()
    ensures UrlEncodeSimple(ToLowercase("John")) == "john" && UrlEncodeSimple(ToLowercase("Doe")) == "doe"
    ensures UrlEncodeSimple("CA") == "CA" && UrlEncodeSimple(ToLowercase("Springfield")) == "springfield"
  {
    EncodeLowerWord("John", "john");
    EncodeLowerWord("Doe", "doe");
    EncodeKeepsSlug("CA");
    EncodeLowerWord("Springfield", "springfield");
  }

  /** The documented template, cut at its placeholders. */
  lemma ExampleTemplatePieces(host: string)
    requires host == "https://example.com/"
    ensures '{' !in host
    ensures "https://example.com/{first}-{last}/{state}/{city}"
         == host + "{first}" + "-" + "{last}" + "/" + "{state}" + "/" + "{city}"
  {
  }

  /** The documented URL, cut at its values. */
  lemma ExampleUrlPieces(host: string)
    requires host == "https://example.com/"
    ensures "https://example.com/john-doe/CA/springfield"
         == host + "john" + "-" + "doe" + "/" + "CA" + "/" + "springfield"
  {
  }

  /**
   * The documented example: John Doe of Springfield, CA, on the template
   * `https://example.com/{first}-{last}/{state}/{city}`.
   */
  lemma DocumentedExample(p: VP.UserProfile, search: BD.SearchMethod,
                          decrypt: VP.Sealed -> Result<string, string>)
    requires search.UrlTemplate? && search.template == "https://example.com/{first}-{last}/{state}/{city}"
    requires p.firstName.Some? && decrypt(p.firstName.value) == Ok("John")
    requires p.lastName.Some? && decrypt(p.lastName.value) == Ok("Doe")
    requires p.state.Some? && decrypt(p.state.value) == Ok("CA")
    requires p.city.Some? && decrypt(p.city.value) == Ok("Springfield")
    ensures BuildSearchUrl("test-broker", search, p, decrypt) == Ok("https://example.com/john-doe/CA/springfield")
  {
    var host := "https://example.com/";
    ExampleTemplatePieces(host);
    ExampleUrlPieces(host);
    ExampleEncodings();
    BuildFillsTemplate(host, search, p, decrypt, "John", "Doe", "CA", "Springfield", "test-broker");
    assert BuildSearchUrl("test-broker", search, p, decrypt)
        == Ok(host + "john" + "-" + "doe" + "/" + "CA" + "/" + "springfield");
  }
}
