/**
 * Opt-out e-mail rendering: `{{field}}` placeholders in a template are
 * replaced by profile values, then `{{email}}` by the user's address.
 *
 * The profile fields are a hash map, visited in an order the map chooses;
 * that order is the parameter `order`, which lists every key once.
 */
module MailTemplates {
  import opened Text
  import Seqs

  datatype EmailTemplate = EmailTemplate(to: string, subject: string, body: string)

  const SUBJECT_PREFIX: string := "Opt-Out Request \U{2014} "
  const EMAIL_PLACEHOLDER: string := "{{email}}"

  /** The placeholder text for a field key: the key in double braces. */
  function Placeholder(key: string): (r: string)
    ensures |r| == |key| + 4 && r[..2] == "{{"
  {
    "{{" + key + "}}"
  }

  /** The template after the field substitutions for the keys of `order`, taken in that order. */
  function ApplyFields(body: string, fields: map<string, string>, order: seq<string>): string
    requires forall k :: k in order ==> k in fields
    decreases |order|
  {
    if order == [] then body
    else
      var last := order[|order| - 1];
      Replace(ApplyFields(body, fields, order[..|order| - 1]), Placeholder(last), fields[last])
  }

  /**
   * `render_template`: the recipient unchanged, the subject naming the
   * `full_name` field (empty when absent), and the body with every field
   * placeholder substituted and then `{{email}}` filled from `email`.
   */
  method RenderTemplate(template: string, email: string, to: string, fields: map<string, string>,
                        order: seq<string>) returns (t: EmailTemplate)
    requires Seqs.Distinct(order) && forall k :: k in fields <==> k in order
    ensures t.to == to
    ensures t.subject == SUBJECT_PREFIX + (if "full_name" in fields then fields["full_name"] else "")
    ensures t.body == Replace(ApplyFields(template, fields, order), EMAIL_PLACEHOLDER, email)
  {
    var subject := SUBJECT_PREFIX + (if "full_name" in fields then fields["full_name"] else "");
    var body := template;
    for i := 0 to |order|
      invariant body == ApplyFields(template, fields, order[..i])
    {
      assert order[..i + 1][..i] == order[..i];
      body := Replace(body, Placeholder(order[i]), fields[order[i]]);
    }
    assert order[..|order|] == order;
    body := Replace(body, EMAIL_PLACEHOLDER, email);
    t := EmailTemplate(to, subject, body);
  }

  /** A text without `{{` holds no placeholder. */
  lemma NoBracesNoPlaceholder(s: string, key: string)
    requires !Contains(s, "{{")
    ensures !Contains(s, Placeholder(key))
  {
    var p := Placeholder(key);
    forall i | 0 <= i <= |s| - |p| ensures !OccursAt(s, p, i) {
      BracesOpenPlaceholder(s, key, i);
    }
  }

  /** Wherever a placeholder occurs, `{{` occurs. */
  lemma BracesOpenPlaceholder(s: string, key: string, i: int)
    ensures OccursAt(s, Placeholder(key), i) ==> OccursAt(s, "{{", i)
  {
    var p := Placeholder(key);
    if OccursAt(s, p, i) {
      assert s[i..i + 2] == s[i..i + |p|][..2];
    }
  }

  /** A template without `{{` comes back as the body unchanged, whatever the fields and the address. */
  lemma {:induction false} NoPlaceholdersUnchanged(template: string, email: string, fields: map<string, string>,
                                                   order: seq<string>)
    requires !Contains(template, "{{")
    requires forall k :: k in order ==> k in fields
    ensures ApplyFields(template, fields, order) == template
    ensures Replace(ApplyFields(template, fields, order), EMAIL_PLACEHOLDER, email) == template
    decreases |order|
  {
    if order != [] {
      var last := order[|order| - 1];
      NoPlaceholdersUnchanged(template, email, fields, order[..|order| - 1]);
      NoBracesNoPlaceholder(template, last);
      ReplaceAbsent(template, Placeholder(last), fields[last]);
    }
    assert Placeholder("email") == EMAIL_PLACEHOLDER;
    NoBracesNoPlaceholder(template, "email");
    ReplaceAbsent(template, EMAIL_PLACEHOLDER, email);
  }

  /** With a single field, its placeholder is replaced by its value throughout, before the address is filled in. */
  lemma OneField(template: string, email: string, key: string, value: string)
    ensures Replace(ApplyFields(template, map[key := value], [key]), EMAIL_PLACEHOLDER, email)
         == Replace(Replace(template, Placeholder(key), value), EMAIL_PLACEHOLDER, email)
  {
    assert [key][..0] == [];
  }

  /** Without an `email` field, `{{email}}` takes the address argument. */
  lemma EmailFromArgument(email: string)
    ensures Replace(ApplyFields(EMAIL_PLACEHOLDER, map[], []), EMAIL_PLACEHOLDER, email) == email
  {
    ReplaceOnce([], EMAIL_PLACEHOLDER, [], email);
    assert [] + EMAIL_PLACEHOLDER + [] == EMAIL_PLACEHOLDER && [] + email + [] == email;
  }

  /**
   * With an `email` field, the field is substituted first, so `{{email}}`
   * takes the field's value and the address argument is not used.
   */
  lemma EmailFieldWins(email: string, value: string)
    requires !Contains(value, "{{")
    ensures Replace(ApplyFields(EMAIL_PLACEHOLDER, map["email" := value], ["email"]), EMAIL_PLACEHOLDER, email)
         == value
  {
    assert ["email"][..0] == [];
    assert Placeholder("email") == EMAIL_PLACEHOLDER;
    ReplaceOnce([], EMAIL_PLACEHOLDER, [], value);
    assert [] + EMAIL_PLACEHOLDER + [] == EMAIL_PLACEHOLDER && [] + value + [] == value;
    NoBracesNoPlaceholder(value, "email");
    ReplaceAbsent(value, EMAIL_PLACEHOLDER, email);
  }
}
