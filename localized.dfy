/**
 * The template helper get_localized_value: the DCAT-AP choice labels are looked up
 * in a table of translations (dcat_ap_choices.json), keyed by label and locale. A
 * bracketed list of labels is translated item by item and joined with commas.
 */
module TemplateHelpers {
  import opened Common

  /** The translations file: for each label, its text in each locale. */
  type Translations = map<string, map<string, string>>

  /** The locale get_localized_value uses when none is given; callers here pass it explicitly. */
  const DefaultLocale: string := "en"

  /** The string starts with '[' and ends with ']': it is a list literal. */
  predicate Bracketed(s: string) {
    |s| > 0 && s[0] == '[' && s[|s| - 1] == ']'
  }

  /**
   * translations.get(v, v).get(locale, v) for one list item: the item's text in the
   * locale, the item itself when the locale is missing, and None when the item is
   * no label of the table (.get is then called on a str and raises).
   */
  function TranslateItem(t: Translations, v: string, locale: string): Option<string> {
    if v !in t then None
    else if locale in t[v] then Some(t[v][locale])
    else Some(v)
  }

  /** The items' translations in order; None when one of them raises. */
  function TranslateItems(t: Translations, items: seq<string>, locale: string): (r: Option<seq<string>>)
    ensures r.Some? <==> forall i :: 0 <= i < |items| ==> items[i] in t
    ensures r.Some? ==> |r.value| == |items|
    ensures r.Some? ==> forall i :: 0 <= i < |items| ==> Some(r.value[i]) == TranslateItem(t, items[i], locale)
  {
    if items == [] then Some([])
    else
      match TranslateItems(t, items[..|items| - 1], locale)
      case None => None
      case Some(init) =>
        match TranslateItem(t, items[|items| - 1], locale)
        case None => None
        case Some(last) => Some(init + [last])
  }

  /** ','.join(xs) */
  function Join(xs: seq<string>): string {
    if xs == [] then ""
    else if |xs| == 1 then xs[0]
    else Join(xs[..|xs| - 1]) + "," + xs[|xs| - 1]
  }

  /**
   * The text has no character above U+007F. Under Python 2, json.load gives unicode
   * strings, and '{}'.format(...) on a byte-string template encodes its unicode
   * argument as ASCII, raising UnicodeEncodeError on any other character.
   */
  predicate IsAscii(text: string) {
    forall i :: 0 <= i < |text| ==> text[i] <= '\U{007F}'
  }

  /**
   * get_localized_value(string, locale) as written: `evalList` reads a list literal
   * as eval does. None is the exception raised by a list item that is no label, or
   * by the ASCII encoding of a joined list holding any other character.
   */
  function GetLocalizedValue(t: Translations, evalList: string -> seq<string>, s: string, locale: string)
    : (r: Option<string>)
    ensures !Bracketed(s) ==> r.Some?
    ensures !Bracketed(s) && s !in t ==> r == Some(s)
    ensures !Bracketed(s) && s in t ==> r == Some(if locale in t[s] then t[s][locale] else s)
    ensures Bracketed(s) ==>
              (r.Some? <==> TranslateItems(t, evalList(s), locale).Some? &&
                            IsAscii(Join(TranslateItems(t, evalList(s), locale).value)))
    ensures Bracketed(s) && r.Some? ==> r.value == Join(TranslateItems(t, evalList(s), locale).value)
  {
    if Bracketed(s) then
      match TranslateItems(t, evalList(s), locale)
      case None => None
      case Some(xs) => if IsAscii(Join(xs)) then Some(Join(xs)) else None
    else if s !in t then Some(s)
    else if locale in t[s] then Some(t[s][locale])
    else Some(s)
  }

  /**
   * get_localized_value as evidently intended: a list literal gives the comma-join
   * of its items' translations, whatever characters they hold.
   */
  function IntendedLocalizedValue(t: Translations, evalList: string -> seq<string>, s: string, locale: string)
    : (r: Option<string>)
    ensures !Bracketed(s) ==> r == GetLocalizedValue(t, evalList, s, locale)
    ensures Bracketed(s) ==> (r.Some? <==> forall i :: 0 <= i < |evalList(s)| ==> evalList(s)[i] in t)
    ensures Bracketed(s) && r.Some? ==>
              TranslateItems(t, evalList(s), locale).Some? &&
              r.value == Join(TranslateItems(t, evalList(s), locale).value)
  {
    if Bracketed(s) then
      match TranslateItems(t, evalList(s), locale)
      case None => None
      case Some(xs) => Some(Join(xs))
    else GetLocalizedValue(t, evalList, s, locale)
  }

  /** The two agree except on a list whose joined translation is not ASCII, where the script raises. */
  lemma AsWrittenMatchesIntended(t: Translations, evalList: string -> seq<string>, s: string, locale: string)
    ensures var w := GetLocalizedValue(t, evalList, s, locale);
            var i := IntendedLocalizedValue(t, evalList, s, locale);
            (w == i || (Bracketed(s) && w.None? && i.Some? && !IsAscii(i.value))) &&
            (i.Some? && IsAscii(i.value) ==> w == i)
  {
  }

  /** One label, ENVI, whose Swedish text is "Miljö". */
  const Envi: Translations := map["ENVI" := map["sv" := "Milj\U{00F6}"]]

  /**
   * The list ['ENVI'] raises in Swedish as written, where the label on its own, and
   * the list as intended, give "Miljö".
   */
  lemma NonAsciiListRaises()
    ensures var evalList := (_: string) => ["ENVI"];
            && GetLocalizedValue(Envi, evalList, "['ENVI']", "sv") == None
            && GetLocalizedValue(Envi, evalList, "ENVI", "sv") == Some("Milj\U{00F6}")
            && IntendedLocalizedValue(Envi, evalList, "['ENVI']", "sv") == Some("Milj\U{00F6}")
  {
    var evalList := (_: string) => ["ENVI"];
    var items: seq<string> := ["ENVI"];
    assert evalList("['ENVI']") == items && items[..0] == [];
    assert TranslateItems(Envi, items[..0], "sv") == Some([]);
    assert TranslateItem(Envi, items[0], "sv") == Some("Milj\U{00F6}");
    assert TranslateItems(Envi, items, "sv") == Some([] + ["Milj\U{00F6}"]);
    assert !IsAscii("Milj\U{00F6}") by {
      assert "Milj\U{00F6}"[4] == '\U{00F6}';
    }
  }

  /** A one-label list translates, as intended, to the same text as the label on its own. */
  lemma SingletonListAsLabel(t: Translations, evalList: string -> seq<string>, s: string, v: string, locale: string)
    requires Bracketed(s) && evalList(s) == [v] && v in t && !Bracketed(v)
    ensures IntendedLocalizedValue(t, evalList, s, locale) == IntendedLocalizedValue(t, evalList, v, locale)
  {
    assert [v][..0] == [];
  }

  // ---------------------------------------------------------------------------
  // Reading the joined list back

  /** The position of the last `c` in `s`. */
  function LastIndex(s: string, c: char): (r: Option<nat>)
    ensures r.Some? ==> r.value < |s| && s[r.value] == c
  {
    if s == [] then None
    else if s[|s| - 1] == c then Some(|s| - 1)
    else LastIndex(s[..|s| - 1], c)
  }

  /** The comma-separated fields of a string. */
  function Split(s: string): seq<string>
    decreases |s|
  {
    match LastIndex(s, ',')
    case None => [s]
    case Some(i) => Split(s[..i]) + [s[i + 1..]]
  }

  lemma {:induction false} LastComma(a: string, b: string)
    requires ',' !in b
    ensures LastIndex(a + "," + b, ',') == Some(|a|)
  {
    if b != [] {
      var s := a + "," + b;
      assert s[|s| - 1] == b[|b| - 1];
      assert s[..|s| - 1] == a + "," + b[..|b| - 1];
      LastComma(a, b[..|b| - 1]);
    }
  }

  lemma {:induction false} NoComma(s: string)
    requires ',' !in s
    ensures LastIndex(s, ',') == None
  {
    if s != [] {
      assert s[|s| - 1] in s;
      assert forall k :: 0 <= k < |s| - 1 ==> s[..|s| - 1][k] == s[k];
      NoComma(s[..|s| - 1]);
    }
  }

  /** Splitting the comma-join of items without commas gives the items back. */
  lemma {:induction false} SplitJoin(xs: seq<string>)
    requires xs != [] && forall i :: 0 <= i < |xs| ==> ',' !in xs[i]
    ensures Split(Join(xs)) == xs
  {
    if |xs| == 1 {
      NoComma(xs[0]);
    } else {
      var init := xs[..|xs| - 1];
      var last := xs[|xs| - 1];
      var s := Join(init) + "," + last;
      LastComma(Join(init), last);
      assert s[..|Join(init)|] == Join(init);
      assert s[|Join(init)| + 1..] == last;
      SplitJoin(init);
      assert init + [last] == xs;
    }
  }

  /**
   * When no translation contains a comma, the list as intended can be split back
   * into one translation per item, in order.
   */
  lemma LocalizedListSplits(t: Translations, evalList: string -> seq<string>, s: string, locale: string)
    requires Bracketed(s) && evalList(s) != []
    requires forall i :: 0 <= i < |evalList(s)| ==> evalList(s)[i] in t
    requires forall v, l :: v in t && l in t[v] ==> ',' !in t[v][l]
    requires forall i :: 0 <= i < |evalList(s)| ==> ',' !in evalList(s)[i]
    ensures var r := IntendedLocalizedValue(t, evalList, s, locale);
            && r.Some?
            && |Split(r.value)| == |evalList(s)|
            && forall i :: 0 <= i < |evalList(s)| ==> Some(Split(r.value)[i]) == TranslateItem(t, evalList(s)[i], locale)
  {
    var items := evalList(s);
    var xs := TranslateItems(t, items, locale).value;
    forall i | 0 <= i < |xs|
      ensures ',' !in xs[i]
    {
      assert Some(xs[i]) == TranslateItem(t, items[i], locale);
    }
    SplitJoin(xs);
  }
}
