/** The localized pathname table of `src/navigation.ts`: the closed locale
    set, the prefix mode and the map from canonical path to per-locale path
    strings. How next-intl resolves and matches URLs with this table is not
    part of this model; what is proved here are properties of the table's
    strings. */
module Navigation {
  import opened Base

  datatype Locale = En | Fr

  /** `locales`, in declaration order. */
  const Locales: seq<Locale> := [En, Fr]

  function LocaleTag(l: Locale): string {
    match l
    case En => "en"
    case Fr => "fr"
  }

  /** The locale a language tag names, if it is one of the configured ones. */
  function ParseLocale(s: string): (r: Option<Locale>)
    ensures r.Some? ==> LocaleTag(r.value) == s
    ensures r.None? ==> s != "en" && s != "fr"
  {
    if s == "en" then Some(En) else if s == "fr" then Some(Fr) else None
  }

  /** The configured locales are exactly `en` and `fr`, each listed once. */
  lemma LocalesAreEnAndFr(l: Locale)
    ensures l in Locales && |Locales| == 2 && Locales[0] != Locales[1]
    ensures ParseLocale(LocaleTag(l)) == Some(l)
    ensures LocaleTag(l) == "en" || LocaleTag(l) == "fr"
  {
  }

  /** next-intl's `localePrefix` modes. */
  datatype LocalePrefixMode = Always | AsNeeded | Never

  /** `localePrefix = 'always'`: every URL is configured to carry the locale
      segment. */
  const LocalePrefix: LocalePrefixMode := Always

  /** An entry of `pathnames`: one string for all locales (the `'/'` entry)
      or one string per locale. */
  datatype PathEntry = SamePath(path: string) | PerLocale(en: string, fr: string)

  const Pathnames: map<string, PathEntry> := map[
    "/" := SamePath("/"),
    "/contact" := PerLocale("/contact", "/contact"),
    "/opportunities" := PerLocale("/opportunities", "/opportunites"),
    "/opportunities/submit" := PerLocale("/opportunities/submit", "/opportunites/soumettre"),
    "/opportunities/[id]" := PerLocale("/opportunities/[id]", "/opportunites/[id]"),
    "/orientation" := PerLocale("/orientation", "/orientation"),
    "/reseau" := PerLocale("/network", "/reseau"),
    "/innovation-entreprenariat" := PerLocale("/innovation-entrepreneurship", "/innovation-entreprenariat"),
    "/partnerships" := PerLocale("/partnerships", "/partenariats"),
    "/news/[id]" := PerLocale("/news/[id]", "/actualites/[id]")
  ]

  /** The canonical keys in table order. */
  const CanonicalKeys: seq<string> := [
    "/", "/contact", "/opportunities", "/opportunities/submit", "/opportunities/[id]",
    "/orientation", "/reseau", "/innovation-entreprenariat", "/partnerships", "/news/[id]"
  ]

  /** The keys with an `[id]` segment. */
  const DynamicKeys: set<string> := {"/opportunities/[id]", "/news/[id]"}

  /** The localized path string of `key` for `locale`; `None` for a path the
      table does not list. */
  function LocalizedPath(key: string, locale: Locale): (r: Option<string>)
    ensures r.Some? <==> key in Pathnames
  {
    if key !in Pathnames then None
    else match Pathnames[key]
      case SamePath(p) => Some(p)
      case PerLocale(en, fr) => Some(if locale == En then en else fr)
  }

  /** The table lists exactly the ten canonical keys, each once. */
  lemma TableKeys()
    ensures Pathnames.Keys == set k | k in CanonicalKeys
    ensures |CanonicalKeys| == 10
    ensures forall i, j :: 0 <= i < j < |CanonicalKeys| ==> CanonicalKeys[i] != CanonicalKeys[j]
  {
  }

  /** `'/'` is `'/'` in every locale, and every localized path is absolute. */
  lemma RootAndAbsolute(key: string, locale: Locale)
    requires key in Pathnames
    ensures LocalizedPath("/", locale) == Some("/")
    ensures |LocalizedPath(key, locale).value| >= 1 && LocalizedPath(key, locale).value[0] == '/'
  {
  }

  /** The two entries whose English and French paths differ most. */
  lemma ReseauAndSubmitEntries()
    ensures LocalizedPath("/reseau", En) == Some("/network")
    ensures LocalizedPath("/reseau", Fr) == Some("/reseau")
    ensures LocalizedPath("/opportunities/submit", En) == Some("/opportunities/submit")
    ensures LocalizedPath("/opportunities/submit", Fr) == Some("/opportunites/soumettre")
  {
  }

  /** For each locale, no two canonical keys share a localized path string.
      (As patterns, `/opportunities/[id]` still matches the literal
      `/opportunities/submit`; this is about the table's strings.) */
  lemma LocalizedPathInjective(k1: string, k2: string, locale: Locale)
    requires k1 in Pathnames && k2 in Pathnames
    requires LocalizedPath(k1, locale) == LocalizedPath(k2, locale)
    ensures k1 == k2
  {
    LocalizedPathRoundTrip(k1, locale);
    LocalizedPathRoundTrip(k2, locale);
  }

  /** The table read backwards: the canonical key whose path for `locale`
      is `path`. */
  function CanonicalKey(path: string, locale: Locale): Option<string> {
    match locale
    case En =>
      (match path
       case "/" => Some("/")
       case "/contact" => Some("/contact")
       case "/opportunities" => Some("/opportunities")
       case "/opportunities/submit" => Some("/opportunities/submit")
       case "/opportunities/[id]" => Some("/opportunities/[id]")
       case "/orientation" => Some("/orientation")
       case "/network" => Some("/reseau")
       case "/innovation-entrepreneurship" => Some("/innovation-entreprenariat")
       case "/partnerships" => Some("/partnerships")
       case "/news/[id]" => Some("/news/[id]")
       case _ => None)
    case Fr =>
      (match path
       case "/" => Some("/")
       case "/contact" => Some("/contact")
       case "/opportunites" => Some("/opportunities")
       case "/opportunites/soumettre" => Some("/opportunities/submit")
       case "/opportunites/[id]" => Some("/opportunities/[id]")
       case "/orientation" => Some("/orientation")
       case "/reseau" => Some("/reseau")
       case "/innovation-entreprenariat" => Some("/innovation-entreprenariat")
       case "/partenariats" => Some("/partnerships")
       case "/actualites/[id]" => Some("/news/[id]")
       case _ => None)
  }

  /** Reading a key's localized path backwards gives the key again. */
  lemma LocalizedPathRoundTrip(key: string, locale: Locale)
    requires key in Pathnames
    ensures CanonicalKey(LocalizedPath(key, locale).value, locale) == Some(key)
  {
  }

  /** No `[` or `]` in `s`: nothing in it is a placeholder. */
  predicate NoBrackets(s: string) {
    '[' !in s && ']' !in s
  }

  /** `p` ends in the segment `[id]` and has no other bracket, so `[id]` is
      its only placeholder and its last segment. */
  predicate EndsWithIdPlaceholder(p: string) {
    |p| >= 5 && p[|p| - 5..] == "/[id]" && NoBrackets(p[..|p| - 4])
  }

  /** The dynamic keys and both their localized forms end in the single
      placeholder `[id]`; every other key and localized path has none. */
  lemma PlaceholderPlacement(key: string, locale: Locale)
    requires key in Pathnames
    ensures key in DynamicKeys ==>
      EndsWithIdPlaceholder(key) && EndsWithIdPlaceholder(LocalizedPath(key, locale).value)
    ensures key !in DynamicKeys ==>
      NoBrackets(key) && NoBrackets(LocalizedPath(key, locale).value)
  {
    var p := LocalizedPath(key, locale).value;
    if key in DynamicKeys {
      IdPathsEndWithPlaceholder();
      assert p in {"/opportunities/[id]", "/opportunites/[id]", "/news/[id]", "/actualites/[id]"};
    } else {
      StaticPathsHaveNoBrackets();
      assert key in StaticPaths && p in StaticPaths;
    }
  }

  /** Every string of the table without a placeholder. */
  const StaticPaths: set<string> := {
    "/", "/contact", "/opportunities", "/opportunites", "/opportunities/submit",
    "/opportunites/soumettre", "/orientation", "/reseau", "/network",
    "/innovation-entreprenariat", "/innovation-entrepreneurship",
    "/partnerships", "/partenariats"
  }

  lemma StaticPathsHaveNoBrackets()
    ensures forall s :: s in StaticPaths ==> NoBrackets(s)
  {
    ShortPathsHaveNoBrackets();
    LongPathsHaveNoBrackets();
  }

  // The next four lemmas split one fact, that the static paths have no
  // brackets, into small pieces only to keep each proof cheap.
  lemma ShortPathsHaveNoBrackets()
    ensures NoBrackets("/") && NoBrackets("/contact") && NoBrackets("/opportunities")
    ensures NoBrackets("/opportunites") && NoBrackets("/orientation")
    ensures NoBrackets("/reseau") && NoBrackets("/network")
  {
  }

  lemma LongPathsHaveNoBrackets()
    ensures NoBrackets("/opportunities/submit") && NoBrackets("/opportunites/soumettre")
    ensures NoBrackets("/innovation-entreprenariat") && NoBrackets("/innovation-entrepreneurship")
    ensures NoBrackets("/partnerships") && NoBrackets("/partenariats")
  {
    SubmitPathsHaveNoBrackets();
    InnovationPathsHaveNoBrackets();
  }

  lemma SubmitPathsHaveNoBrackets()
    ensures NoBrackets("/opportunities/submit") && NoBrackets("/opportunites/soumettre")
  {
  }

  lemma InnovationPathsHaveNoBrackets()
    ensures NoBrackets("/innovation-entreprenariat") && NoBrackets("/innovation-entrepreneurship")
  {
  }

  lemma IdPathsEndWithPlaceholder()
    ensures EndsWithIdPlaceholder("/opportunities/[id]") && EndsWithIdPlaceholder("/opportunites/[id]")
    ensures EndsWithIdPlaceholder("/news/[id]") && EndsWithIdPlaceholder("/actualites/[id]")
  {
    var a, b, c, d := "/opportunities/[id]", "/opportunites/[id]", "/news/[id]", "/actualites/[id]";
    assert a[..|a| - 4] == "/opportunities/" && b[..|b| - 4] == "/opportunites/";
    assert c[..|c| - 4] == "/news/" && d[..|d| - 4] == "/actualites/";
  }

  /** The path `p` with its final `[id]` placeholder replaced by `id`. */
  function FillId(p: string, id: string): (r: string)
    requires EndsWithIdPlaceholder(p)
    ensures |r| == |p| - 4 + |id|
    ensures r[..|p| - 4] == p[..|p| - 4] && r[|p| - 4..] == id
  {
    p[..|p| - 4] + id
  }

  /** `navItems` of the header (`src/components/header.tsx`). */
  const HeaderNavHrefs: seq<string> :=
    ["/", "/opportunities", "/orientation", "/reseau", "/innovation-entreprenariat", "/contact"]

  /** `navItems` of the footer (`src/components/footer.tsx`). */
  const FooterNavHrefs: seq<string> :=
    ["/", "/opportunities", "/orientation", "/reseau", "/innovation-entreprenariat", "/contact"]

  /** Every navigation link of the header and footer is a canonical key, so
      it has a localized path in every locale. */
  lemma NavHrefsAreKeys(locale: Locale)
    ensures forall h :: h in HeaderNavHrefs ==> h in Pathnames && LocalizedPath(h, locale).Some?
    ensures forall h :: h in FooterNavHrefs ==> h in Pathnames && LocalizedPath(h, locale).Some?
  {
  }
}
