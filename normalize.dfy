/**
 * Turning one raw feed entry into a normalized organization record
 * (_check_unicode and _validate_org of the organization sync script).
 */
module Normalize {
  import opened Common

  /** A feed entry: each key may be missing. */
  datatype RawOrg = RawOrg(name: Option<string>, url: Option<string>,
                           dctUrl: Option<string>, email: Option<string>)

  /** An accepted record: exactly the keys title, url, name, dcat_url and email. */
  datatype Org = Org(title: string, url: string, name: string, dcatUrl: string, email: string)

  const DcatSuffix := "/datasets/dcat"

  /**
   * _check_unicode with the text already decoded: a missing or empty
   * value becomes None, anything else passes through.
   */
  function CheckUnicode(text: Option<string>): (r: Option<string>)
    ensures r.None? <==> text.None? || text.value == ""
    ensures r.Some? ==> r == text
  {
    if text.None? || text.value == "" then None else text
  }

  /** str.replace(' ', ''): every space removed, everything else kept in order. */
  function RemoveSpaces(s: string): (r: string)
    ensures ' ' !in r
    ensures ' ' !in s ==> r == s
  {
    if s == [] then []
    else if s[0] == ' ' then RemoveSpaces(s[1..])
    else [s[0]] + RemoveSpaces(s[1..])
  }

  /** Every character but the space keeps its number of occurrences; no space is left. */
  lemma {:induction false} RemoveSpacesCount(s: string)
    ensures multiset(RemoveSpaces(s)) == multiset(s)[' ' := 0]
  {
    if s != [] {
      assert s == [s[0]] + s[1..];
      RemoveSpacesCount(s[1..]);
    }
  }

  /**
   * Removing spaces works piece by piece: the text of a concatenation is the
   * concatenation of the texts, so with the one-character cases below the
   * remaining characters keep their order.
   */
  lemma {:induction false} RemoveSpacesAppend(a: string, b: string)
    ensures RemoveSpaces(a + b) == RemoveSpaces(a) + RemoveSpaces(b)
  {
    if a != [] {
      assert (a + b)[0] == a[0] && (a + b)[1..] == a[1..] + b;
      RemoveSpacesAppend(a[1..], b);
    } else {
      assert a + b == b;
    }
  }

  /** A space disappears; any other character stays. */
  lemma RemoveSpacesChar(c: char)
    ensures RemoveSpaces([c]) == if c == ' ' then [] else [c]
  {
    assert [c][1..] == [];
  }

  /** The default harvest endpoint, '{0}/datasets/dcat'.format(url). */
  function DefaultDcatUrl(url: string): string {
    url + DcatSuffix
  }

  /**
   * _validate_org: None for the source's (False, None), Some(record) for (True, record).
   * `slugify` and `defaultEmail` are the script's slugify.slugify and configured address.
   */
  function ValidateOrg(raw: RawOrg, defaultEmail: string, slugify: string -> string): (r: Option<Org>)
    ensures r.None? <==> CheckUnicode(raw.name).None? || CheckUnicode(raw.url).None?
    ensures r.Some? ==> r.value.title == raw.name.value && r.value.name == slugify(r.value.title)
    ensures r.Some? ==> ' ' !in r.value.url && r.value.url == RemoveSpaces(raw.url.value)
    ensures r.Some? ==>
              r.value.dcatUrl == if CheckUnicode(raw.dctUrl).Some? then RemoveSpaces(raw.dctUrl.value)
                                 else DefaultDcatUrl(r.value.url)
    ensures r.Some? ==>
              r.value.email == if CheckUnicode(raw.email).Some? then raw.email.value else defaultEmail
  {
    var title := CheckUnicode(raw.name);
    var url := CheckUnicode(raw.url);
    var dctUrl := CheckUnicode(raw.dctUrl);
    var email := CheckUnicode(raw.email);
    if title.None? || url.None? then None
    else
      var u := if ' ' in url.value then RemoveSpaces(url.value) else url.value;
      var d := if dctUrl.Some? then
                 (if ' ' in dctUrl.value then RemoveSpaces(dctUrl.value) else dctUrl.value)
               else DefaultDcatUrl(u);
      var e := if email.Some? then email.value else defaultEmail;
      Some(Org(title.value, u, slugify(title.value), d, e))
  }

  /** The feed entry that carries an accepted record's fields back in. */
  function AsRaw(o: Org): RawOrg {
    RawOrg(Some(o.title), Some(o.url), Some(o.dcatUrl), Some(o.email))
  }

  /**
   * Normalization is a fixed point: feeding an accepted record back in gives the
   * same record, unless a spaces-only url or dct_url was stripped to nothing.
   */
  lemma ValidateIdempotent(raw: RawOrg, defaultEmail: string, slugify: string -> string)
    requires ValidateOrg(raw, defaultEmail, slugify).Some?
    requires ValidateOrg(raw, defaultEmail, slugify).value.url != ""
    requires ValidateOrg(raw, defaultEmail, slugify).value.dcatUrl != ""
    ensures ValidateOrg(AsRaw(ValidateOrg(raw, defaultEmail, slugify).value), defaultEmail, slugify)
            == ValidateOrg(raw, defaultEmail, slugify)
  {
    var o := ValidateOrg(raw, defaultEmail, slugify).value;
    var suffix := DcatSuffix;
    assert ' ' !in suffix;
    assert ' ' !in o.dcatUrl by {
      if CheckUnicode(raw.dctUrl).None? {
        assert o.dcatUrl == o.url + suffix;
      }
    }
  }
}
