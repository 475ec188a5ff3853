/** The locale store of src/lib/i18n/store.ts. */
module LocaleStore {

  /** `"en" | "mr"` */
  datatype Locale = En | Mr

  function Code(locale: Locale): (code: string)
    ensures code == "en" || code == "mr"
  {
    match locale
    case En => "en"
    case Mr => "mr"
  }

  class LocaleState {
    var locale: Locale

    constructor ()
      ensures locale == En
    {
      locale := En;
    }

    /** The last call wins; calling again with the same locale changes nothing. */
    method SetLocale(l: Locale)
      modifies this
      ensures locale == l
    {
      locale := l;
    }
  }

  /** Distinct locales have distinct codes. */
  lemma CodeInjective(a: Locale, b: Locale)
    ensures Code(a) == Code(b) ==> a == b
  {
  }
}
