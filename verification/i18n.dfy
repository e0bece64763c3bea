/** The locale configuration of the storefront (i18n.config.ts). */
module I18n {

  /** `i18n.locales`, in declaration order. */
  const Locales: seq<string> := ["en", "ar", "fr"]

  predicate IsLocale(s: string) {
    s in Locales
  }

  /** The `Locale` type: one of the configured locale codes. */
  type Locale = s: string | IsLocale(s) witness "en"

  /** `i18n.defaultLocale`; its type makes it a member of `Locales`. */
  const DefaultLocale: Locale := "en"

  /** `i18n.dir(locale)`: Arabic is written right to left, every other string left to right. */
  function Dir(locale: string): (d: string)
    ensures d == "rtl" || d == "ltr"
    ensures d == "rtl" <==> locale == "ar"
  {
    if locale == "ar" then "rtl" else "ltr"
  }

  /** The configured locales are exactly en, ar and fr, with no slash in any of them. */
  lemma LocalesAreEnArFr(s: string)
    ensures IsLocale(s) <==> s == "en" || s == "ar" || s == "fr"
    ensures IsLocale(s) ==> '/' !in s && s != ""
  {
  }
}
