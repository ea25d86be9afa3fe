/** The opportunity card (`src/components/opportunity-card.tsx`): the
    category badge's colour and label, the closing-date text, whether the
    picture is shown, and the link to the details page. The translator and
    the date library are parameters. */
module OpportunityCard {
  import opened Base
  import opened JsString
  import opened Types
  import Navigation

  const BlueBadge: string := "bg-blue-100 text-blue-800 border-blue-300"
  const PinkBadge: string := "bg-pink-100 text-pink-800 border-pink-300"
  const GreenBadge: string := "bg-green-100 text-green-800 border-green-300"
  const PurpleBadge: string := "bg-purple-100 text-purple-800 border-purple-300"
  const YellowBadge: string := "bg-yellow-100 text-yellow-800 border-yellow-300"
  const IndigoBadge: string := "bg-indigo-100 text-indigo-800 border-indigo-300"
  const GrayBadge: string := "bg-gray-100 text-gray-800 border-gray-300"

  /** `getCategoryColor`: the badge classes for a stored category string.
      Exactly the six category names get a colour of their own; every
      other string gets gray. */
  function CategoryColor(category: string): (r: string)
    ensures r == GrayBadge <==> ParseCategory(category).None?
  {
    match category
    case "Employment" => BlueBadge
    case "Internship" => PinkBadge
    case "Scholarships" => GreenBadge
    case "Entrepreneurship" => PurpleBadge
    case "Formations" => YellowBadge
    case "Autres" => IndigoBadge
    case _ => GrayBadge
  }

  /** The six categories have pairwise distinct colours. */
  lemma CategoryColorsDistinct(c1: Category, c2: Category)
    ensures CategoryColor(CategoryName(c1)) == CategoryColor(CategoryName(c2)) <==> c1 == c2
  {
    var b1, b2 := CategoryColor(CategoryName(c1)), CategoryColor(CategoryName(c2));
    if b1 == b2 {
      // The colours differ at their fourth or fifth character.
      assert b1[3] == b2[3] && b1[4] == b2[4];
    }
  }

  /** The `HomePage.services` message key of each category's title. */
  function TranslationKey(c: Category): string {
    match c
    case Employment => "employmentTitle"
    case Internship => "internshipTitle"
    case Scholarships => "scholarshipsTitle"
    case Entrepreneurship => "entrepreneurshipTitle"
    case Formations => "formationsTitle"
    case Autres => "othersTitle"
  }

  /** `categoryTranslations`: each category name to its translated title,
      `tCat` being the `HomePage.services` translator. */
  function CategoryTranslations(tCat: string -> string): (m: map<string, string>)
    ensures forall k :: k in m ==> ParseCategory(k).Some?
  {
    map[
      "Employment" := tCat("employmentTitle"),
      "Internship" := tCat("internshipTitle"),
      "Scholarships" := tCat("scholarshipsTitle"),
      "Entrepreneurship" := tCat("entrepreneurshipTitle"),
      "Formations" := tCat("formationsTitle"),
      "Autres" := tCat("othersTitle")
    ]
  }

  /** `categoryTranslations[category] || category`: the label is empty
      only for an empty category. */
  function TranslatedCategory(category: string, tCat: string -> string): (r: string)
    ensures r == "" <==> category == ""
  {
    var translations := CategoryTranslations(tCat);
    Or(if category in translations then translations[category] else "", category)
  }

  /** A category name is labelled with its translated title when that is
      non-empty, and with the raw name otherwise. */
  lemma TranslatedListedCategory(c: Category, tCat: string -> string)
    ensures tCat(TranslationKey(c)) != "" ==> TranslatedCategory(CategoryName(c), tCat) == tCat(TranslationKey(c))
    ensures tCat(TranslationKey(c)) == "" ==> TranslatedCategory(CategoryName(c), tCat) == CategoryName(c)
  {
    var m := CategoryTranslations(tCat);
    assert CategoryName(c) in m && m[CategoryName(c)] == tCat(TranslationKey(c)) by {
      match c
      case Employment => case Internship => case Scholarships =>
      case Entrepreneurship => case Formations => case Autres =>
    }
  }

  /** Any other string is shown as it is. */
  lemma TranslatedOtherString(category: string, tCat: string -> string)
    requires ParseCategory(category).None?
    ensures TranslatedCategory(category, tCat) == category
  {
    assert category !in CategoryTranslations(tCat);
  }

  /** The date-fns locale passed to `format`: `fr`, or none (`undefined`). */
  datatype DateLocale = FrenchDates | DefaultDates

  /** `locale === 'fr' ? fr : undefined`: French dates exactly for the
      French locale. */
  function DateLocaleFor(locale: Navigation.Locale): (d: DateLocale)
    ensures d == FrenchDates <==> Navigation.LocaleTag(locale) == "fr"
  {
    if locale == Navigation.Fr then FrenchDates else DefaultDates
  }

  /** The date-fns pattern both views use. */
  const DatePattern: string := "d MMMM yyyy"

  /** `fromUnixTime(seconds)`: the date `seconds` seconds after the epoch. */
  function FromUnixTime(seconds: int): (d: Date)
    ensures d.epochMillis / 1000 == seconds && d.epochMillis % 1000 == 0
  {
    Date(seconds * 1000)
  }

  /** `getClosingDate`: a string is parsed (`new Date`, here `parse`) and
      formatted; an object with numeric `seconds` is formatted from those
      seconds; anything else reads `N/A`. `format` stands for date-fns'
      `format`. */
  function ClosingDateText(v: ClosingDateValue, locale: Navigation.Locale,
                           parse: string -> Date, format: (Date, string, DateLocale) -> string)
    : (r: string)
    ensures v.DateText? ==> r == format(parse(v.text), DatePattern, DateLocaleFor(locale))
    ensures v.DateRecord? && v.seconds.Some? ==>
      r == format(FromUnixTime(v.seconds.value), DatePattern, DateLocaleFor(locale))
    ensures v.OtherValue? || (v.DateRecord? && v.seconds.None?) ==> r == "N/A"
  {
    match v
    case DateText(text) => format(parse(text), DatePattern, DateLocaleFor(locale))
    case DateRecord(Some(seconds)) => format(FromUnixTime(seconds), DatePattern, DateLocaleFor(locale))
    case _ => "N/A"
  }

  /** The text depends only on the moment a date stands for: a string and a
      timestamp naming the same moment are shown alike, and so are two
      strings that parse alike. */
  lemma ClosingDateTextByMoment(v1: ClosingDateValue, v2: ClosingDateValue, locale: Navigation.Locale,
                                parse: string -> Date, format: (Date, string, DateLocale) -> string)
    requires Moment(v1, parse).Some? && Moment(v1, parse) == Moment(v2, parse)
    ensures ClosingDateText(v1, locale, parse, format) == ClosingDateText(v2, locale, parse, format)
  {
  }

  /** The moment a stored closing date stands for, if it stands for one. */
  function Moment(v: ClosingDateValue, parse: string -> Date): Option<Date> {
    match v
    case DateText(text) => Some(parse(text))
    case DateRecord(Some(seconds)) => Some(FromUnixTime(seconds))
    case _ => None
  }

  /** `` `/opportunities/${id}` ``: the details link. */
  function DetailsHref(id: string): (r: string)
    ensures |r| == |"/opportunities/"| + |id|
    ensures r[..|"/opportunities/"|] == "/opportunities/" && r[|"/opportunities/"|..] == id
  {
    "/opportunities/" + id
  }

  /** The link is the table's dynamic key `/opportunities/[id]` with the
      placeholder replaced by the id; for the id `submit` it is the literal
      key `/opportunities/submit` as well, as the two patterns overlap. */
  lemma DetailsHrefFillsTableKey(id: string)
    ensures "/opportunities/[id]" in Navigation.Pathnames
    ensures Navigation.EndsWithIdPlaceholder("/opportunities/[id]")
    ensures DetailsHref(id) == Navigation.FillId("/opportunities/[id]", id)
    ensures DetailsHref("submit") in Navigation.Pathnames
  {
    Navigation.PlaceholderPlacement("/opportunities/[id]", Navigation.En);
    assert "/opportunities/[id]"[..15] == "/opportunities/";
    assert DetailsHref("submit") == "/opportunities/submit";
  }

  /** What the card displays. */
  datatype CardContent = CardContent(
    image: Option<string>, title: string, badgeClass: string, badgeLabel: string,
    company: string, location: string, closes: string, detailsHref: string)

  /** The card for `o`: the picture only when `imageUrl` is non-empty, the
      badge coloured and labelled by category, the closing-date text, and
      the details link for its id. */
  function Card(o: Opportunity, locale: Navigation.Locale, tCat: string -> string,
                parse: string -> Date, format: (Date, string, DateLocale) -> string)
    : (c: CardContent)
    ensures c.image.Some? <==> o.imageUrl != ""
    ensures c.image.Some? ==> c.image.value == o.imageUrl
    ensures c.title == o.title && c.company == o.company && c.location == o.location
    ensures c.badgeClass == CategoryColor(o.category)
    ensures c.badgeLabel == TranslatedCategory(o.category, tCat)
    ensures c.closes == ClosingDateText(o.closingDate, locale, parse, format)
    ensures c.detailsHref == DetailsHref(o.id)
  {
    CardContent(
      if o.imageUrl != "" then Some(o.imageUrl) else None,
      o.title, CategoryColor(o.category), TranslatedCategory(o.category, tCat),
      o.company, o.location, ClosingDateText(o.closingDate, locale, parse, format),
      DetailsHref(o.id))
  }
}
