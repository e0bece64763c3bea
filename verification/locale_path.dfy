/** Locale prefixes on URL paths (src/lib/locale-path.ts). */
module LocalePath {
  import opened JsString
  import opened I18n

  /** `isLocaleSegment(value)`: the value is one of the configured locales. */
  predicate IsLocaleSegment(value: string)
    ensures IsLocaleSegment(value) <==> value == "en" || value == "ar" || value == "fr"
  {
    LocalesAreEnArFr(value);
    value in Locales
  }

  /** `pathname.split("/").filter(Boolean)`: the non-empty segments of a path. */
  function Segments(pathname: string): (parts: seq<string>)
    ensures forall i :: 0 <= i < |parts| ==> parts[i] != "" && '/' !in parts[i]
  {
    var parts := NonEmpty(Split(pathname, '/'));
    assert forall i :: 0 <= i < |parts| ==> parts[i] in Split(pathname, '/');
    parts
  }

  /** The segments `withLocalePath` joins: the first segment replaced when it is a locale, else the locale prepended. */
  function Relocalized(parts: seq<string>, locale: Locale): seq<string> {
    if |parts| > 0 && IsLocaleSegment(parts[0]) then [locale] + parts[1..] else [locale] + parts
  }

  /** Relocalizing clean segments gives clean segments that start with the locale. */
  lemma RelocalizedClean(parts: seq<string>, locale: Locale)
    requires forall i :: 0 <= i < |parts| ==> parts[i] != "" && '/' !in parts[i]
    ensures var r := Relocalized(parts, locale);
      && |r| >= 1 && r[0] == locale
      && forall i :: 0 <= i < |r| ==> r[i] != "" && '/' !in r[i]
  {
    LocalesAreEnArFr(locale);
    var rest := if |parts| > 0 && IsLocaleSegment(parts[0]) then parts[1..] else parts;
    assert Relocalized(parts, locale) == [locale] + rest;
    forall i | 0 <= i < |rest|
      ensures rest[i] != "" && '/' !in rest[i]
    {
      if rest != parts {
        assert rest[i] == parts[i + 1];
      }
    }
  }

  /** `withLocalePath(pathname, locale)`. */
  function WithLocalePath(pathname: string, locale: Locale): (r: string)
    ensures |r| > 0 && r[0] == '/'
    ensures Segments(r) == Relocalized(Segments(pathname), locale)
    ensures Segments(r)[0] == locale
    ensures Split(r, '/') == [""] + Segments(r)
  {
    var parts := Relocalized(Segments(pathname), locale);
    RelocalizedClean(Segments(pathname), locale);
    SlashJoin(parts);
    "/" + Join(parts, '/')
  }

  /** A path built as "/" + the join of clean segments splits back into exactly those segments. */
  lemma SlashJoin(parts: seq<string>)
    requires |parts| >= 1
    requires forall i :: 0 <= i < |parts| ==> parts[i] != "" && '/' !in parts[i]
    ensures Split("/" + Join(parts, '/'), '/') == [""] + parts
    ensures Segments("/" + Join(parts, '/')) == parts
  {
    SplitPrefix("", Join(parts, '/'), '/');
    assert "" + "/" + Join(parts, '/') == "/" + Join(parts, '/');
    SplitJoin(parts, '/');
    NonEmptyOfNonEmpty(parts);
    assert NonEmpty([""] + parts) == NonEmpty(parts) by {
      assert ([""] + parts)[1..] == parts;
    }
  }

  /** When the path already starts with a locale, only that segment changes. */
  lemma ReplacesLocaleSegment(pathname: string, locale: Locale)
    requires |Segments(pathname)| > 0 && IsLocaleSegment(Segments(pathname)[0])
    ensures Segments(WithLocalePath(pathname, locale)) == [locale] + Segments(pathname)[1..]
  {
  }

  /** Otherwise the locale is prepended and every original segment is kept, in order. */
  lemma PrependsLocale(pathname: string, locale: Locale)
    requires |Segments(pathname)| == 0 || !IsLocaleSegment(Segments(pathname)[0])
    ensures Segments(WithLocalePath(pathname, locale)) == [locale] + Segments(pathname)
  {
  }

  /** Switching locales composes: only the last locale applied matters. */
  lemma {:induction false} SwitchComposes(pathname: string, a: Locale, b: Locale)
    ensures WithLocalePath(WithLocalePath(pathname, a), b) == WithLocalePath(pathname, b)
  {
    var parts := Segments(pathname);
    var once := WithLocalePath(pathname, a);
    var rest := if |parts| > 0 && IsLocaleSegment(parts[0]) then parts[1..] else parts;
    assert Segments(once) == [a] + rest;
    assert IsLocaleSegment(a);
    assert ([a] + rest)[1..] == rest;
    assert Relocalized(Segments(once), b) == [b] + rest;
    assert Relocalized(parts, b) == [b] + rest;
  }

  /** `withLocalePath` is idempotent. */
  lemma Idempotent(pathname: string, locale: Locale)
    ensures WithLocalePath(WithLocalePath(pathname, locale), locale) == WithLocalePath(pathname, locale)
  {
    SwitchComposes(pathname, locale, locale);
  }

  /** The root path and the empty path both become "/" + locale. */
  lemma RootBecomesLocale(locale: Locale)
    ensures WithLocalePath("/", locale) == "/" + locale
    ensures WithLocalePath("", locale) == "/" + locale
  {
    assert Split("/", '/') == ["", ""] by {
      assert "/" == "" + "/" + "";
      SplitPrefix("", "", '/');
    }
    assert Segments("/") == [];
    assert Segments("") == [];
  }
}
