/**
  The two interface languages and what each implies for the page: the
  language code written to `<html lang>` and the text direction written to
  `<html dir>`.
 */
module Languages {
  import opened Wrappers

  datatype Language = Ar | En

  /** The code stored in local storage and written to `<html lang>`. */
  function Code(l: Language): (r: string)
    ensures r == "ar" || r == "en"
  {
    match l
    case Ar => "ar"
    case En => "en"
  }

  /** `language === 'ar' ? 'rtl' : 'ltr'` */
  function Dir(l: Language): (r: string)
    ensures r == "rtl" <==> l == Ar
    ensures r == "ltr" <==> l == En
  {
    assert "rtl"[0] != "ltr"[0];
    match l
    case Ar => "rtl"
    case En => "ltr"
  }

  /** A stored value is a language only when it is exactly `ar` or `en`. */
  function ParseLanguage(stored: Option<string>): (r: Option<Language>)
    ensures r.Some? <==> stored == Some("ar") || stored == Some("en")
    ensures r.Some? ==> stored == Some(Code(r.value))
  {
    if stored == Some("ar") then Some(Ar)
    else if stored == Some("en") then Some(En)
    else None
  }

  /** Codes and languages correspond one to one. */
  lemma ParseCode(l: Language)
    ensures ParseLanguage(Some(Code(l))) == Some(l)
  {
  }
}
