// The choice of the site language at start-up and the page direction that
// follows from it (src/i18n/config.ts). The stored choice and the browser's
// language are passed in; the writes to the document and to local storage
// are not modelled.

module I18n {
  import opened Types
  import opened Text

  /** The two languages the site is translated into. */
  predicate Supported(lang: string)
  {
    lang == "en" || lang == "ar"
  }

  /** getInitialLanguage: `stored` is the saved `i18nextLng` (None when
      nothing is saved) and `browserLanguage` is `navigator.language`. A
      saved supported language wins; otherwise the browser language's part
      before the first '-' decides, Arabic only when it is exactly "ar". */
  function InitialLanguage(stored: Option<string>, browserLanguage: string): (lang: string)
    ensures Supported(lang)
  {
    if stored.Some? && stored.value != "" && (stored.value == "en" || stored.value == "ar") then stored.value
    else if FirstSegment(browserLanguage, '-') == "ar" then "ar"
    else "en"
  }

  /** A saved supported language is taken as it is, and anything else that
      is saved counts as nothing saved. */
  lemma StoredChoice(stored: string, browserLanguage: string)
    ensures Supported(stored) ==> InitialLanguage(Some(stored), browserLanguage) == stored
    ensures !Supported(stored) ==>
      InitialLanguage(Some(stored), browserLanguage) == InitialLanguage(None, browserLanguage)
  {
  }

  /** The text before the first separator of `p + sep + rest` is p when p
      holds no separator. */
  lemma {:induction false} FirstSegmentOf(p: string, sep: char, rest: string)
    requires sep !in p
    ensures FirstSegment(p + [sep] + rest, sep) == p
  {
    if p != [] {
      assert (p + [sep] + rest)[1..] == p[1..] + [sep] + rest;
      FirstSegmentOf(p[1..], sep, rest);
    }
  }

  /** With nothing saved, any regional variant of Arabic ("ar-EG", "ar-SA")
      selects Arabic, and a browser language whose base is not "ar" (such as
      "arn" or "en-US") selects English. */
  lemma BrowserLanguage(region: string, base: string, rest: string)
    requires '-' !in base && base != "ar"
    ensures InitialLanguage(None, "ar") == "ar"
    ensures InitialLanguage(None, "ar" + "-" + region) == "ar"
    ensures InitialLanguage(None, base + "-" + rest) == "en"
    ensures InitialLanguage(None, base) == "en"
  {
    FirstSegmentOf("ar", '-', region);
    FirstSegmentOf(base, '-', rest);
    FirstSegmentOf("ar", '-', "");
    assert "ar" + "-" + region == "ar" + ['-'] + region;
    assert base + "-" + rest == base + ['-'] + rest;
    FirstSegmentOf(base, '-', "");
  }

  /** Every language change is saved, so the language chosen on one visit is
      the one the next visit starts with, whatever the browser says then. */
  lemma ChoiceIsKept(stored: Option<string>, browserLanguage: string, laterBrowserLanguage: string)
    ensures InitialLanguage(Some(InitialLanguage(stored, browserLanguage)), laterBrowserLanguage)
         == InitialLanguage(stored, browserLanguage)
  {
  }

  /** The `dir` attribute written for a language. */
  function Direction(lang: string): (dir: string)
    ensures dir == "rtl" || dir == "ltr"
  {
    if lang == "ar" then "rtl" else "ltr"
  }

  /** The page is laid out right to left exactly for Arabic, and left to
      right for English. */
  lemma DirectionOfLanguage(lang: string)
    requires Supported(lang)
    ensures Direction(lang) == "rtl" <==> lang == "ar"
    ensures Direction(lang) == "ltr" <==> lang == "en"
  {
  }
}
