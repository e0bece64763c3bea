/** The language switcher (src/components/LangSwitcher.tsx): path rewriting and menu state. */
module LangSwitcher {
  import opened Wrappers
  import opened JsString
  import opened I18n
  import opened LocalePath

  /** `replaceLocaleInPath(pathname, newLocale)`: the locale test is written out literally. */
  function ReplaceLocaleInPath(pathname: string, newLocale: Locale): (r: string)
    ensures r == WithLocalePath(pathname, newLocale)
  {
    var parts := Segments(pathname);
    LocalesAreEnArFr(if |parts| > 0 then parts[0] else "");
    var parts' :=
      if |parts| > 0 && (parts[0] == "en" || parts[0] == "fr" || parts[0] == "ar")
      then [newLocale] + parts[1..]
      else [newLocale] + parts;
    "/" + Join(parts', '/')
  }

  /**
   * The hand-written locale test agrees with the configured locale list, so
   * the switcher's rewrite is exactly `withLocalePath`: the result starts
   * with "/", its first segment is the new locale and later segments are kept.
   */
  lemma AgreesWithLocalePath(pathname: string, newLocale: Locale)
    ensures ReplaceLocaleInPath(pathname, newLocale) == WithLocalePath(pathname, newLocale)
    ensures Segments(ReplaceLocaleInPath(pathname, newLocale))[0] == newLocale
  {
    var parts := Segments(pathname);
    if |parts| > 0 {
      LocalesAreEnArFr(parts[0]);
    }
  }

  /** One entry of the `LANGS` menu. */
  datatype Lang = Lang(locale: Locale, caption: string, flag: string, shortcut: string)

  const Langs: seq<Lang> := [
    Lang("ar", "العربية", "fi-ma", "AR"),
    Lang("en", "English", "fi-sh", "EN"),
    Lang("fr", "Français", "fi-fr", "FR")
  ]

  /** `LANGS.find(l => l.locale === currentLocale)`. */
  function Find(langs: seq<Lang>, currentLocale: string): (r: Option<Lang>)
    ensures r.Some? ==> r.value in langs && r.value.locale == currentLocale
    ensures r.None? ==> forall l :: l in langs ==> l.locale != currentLocale
  {
    if |langs| == 0 then None
    else if langs[0].locale == currentLocale then Some(langs[0])
    else Find(langs[1..], currentLocale)
  }

  /** `current`: the listed entry for the locale, falling back to the first entry of `LANGS`. */
  function Current(currentLocale: string): (l: Lang)
    ensures l in Langs
    ensures (exists m :: m in Langs && m.locale == currentLocale) ==> l.locale == currentLocale
    ensures (forall m :: m in Langs ==> m.locale != currentLocale) ==> l == Langs[0]
  {
    Find(Langs, currentLocale).GetOr(Langs[0])
  }

  /** `usePathname() || "/"`: the router's path, or the root when it has none or an empty one. */
  function CurrentPathname(pathname: Option<string>): (r: string)
    ensures r != ""
    ensures pathname.Some? && pathname.value != "" ==> r == pathname.value
    ensures pathname.None? || pathname.value == "" ==> r == "/"
  {
    if pathname.None? || pathname.value == "" then "/" else pathname.value
  }

  /**
   * `changeLanguage(newLocale)`: the path pushed to the router, or `None` when
   * nothing happens. `pathname` is what `usePathname()` returned.
   */
  function ChangeLanguage(pathname: Option<string>, currentLocale: Locale, newLocale: Locale): (push: Option<string>)
    ensures push.None? <==> newLocale == currentLocale
    ensures push.Some? ==> push.value == WithLocalePath(CurrentPathname(pathname), newLocale)
    ensures push.Some? && pathname.None? ==> push.value == WithLocalePath("/", newLocale)
    ensures push.Some? ==> Segments(push.value)[0] == newLocale
  {
    var path := CurrentPathname(pathname);
    AgreesWithLocalePath(path, newLocale);
    if newLocale == currentLocale then None else Some(ReplaceLocaleInPath(path, newLocale))
  }
}
