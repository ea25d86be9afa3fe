/** The opportunity details view (`src/components/opportunity-details.tsx`):
    its own copies of the card's category colour, category label and
    closing-date rules, the requirements list, and the text `handleShare`
    composes. The share and clipboard calls themselves are not modelled. */
module OpportunityDetails {
  import opened Base
  import opened JsString
  import opened Types
  import Navigation
  import OpportunityCard

  /** The component's own `getCategoryColor` switch. */
  function CategoryColor(category: string): (r: string)
    ensures r == OpportunityCard.GrayBadge <==> ParseCategory(category).None?
  {
    match category
    case "Employment" => "bg-blue-100 text-blue-800 border-blue-300"
    case "Internship" => "bg-pink-100 text-pink-800 border-pink-300"
    case "Scholarships" => "bg-green-100 text-green-800 border-green-300"
    case "Entrepreneurship" => "bg-purple-100 text-purple-800 border-purple-300"
    case "Formations" => "bg-yellow-100 text-yellow-800 border-yellow-300"
    case "Autres" => "bg-indigo-100 text-indigo-800 border-indigo-300"
    case _ => "bg-gray-100 text-gray-800 border-gray-300"
  }

  /** The two switches agree on every string. */
  lemma CategoryColorAgrees(category: string)
    ensures CategoryColor(category) == OpportunityCard.CategoryColor(category)
  {
  }

  /** The component's own `categoryTranslations[...] || category`. */
  function TranslatedCategory(category: string, tCat: string -> string): (r: string)
    ensures r == "" <==> category == ""
  {
    var translations := map[
      "Employment" := tCat("employmentTitle"),
      "Internship" := tCat("internshipTitle"),
      "Scholarships" := tCat("scholarshipsTitle"),
      "Entrepreneurship" := tCat("entrepreneurshipTitle"),
      "Formations" := tCat("formationsTitle"),
      "Autres" := tCat("othersTitle")
    ];
    Or(if category in translations then translations[category] else "", category)
  }

  /** The label is the card's label for every string and translator. */
  lemma TranslatedCategoryAgrees(category: string, tCat: string -> string)
    ensures TranslatedCategory(category, tCat) == OpportunityCard.TranslatedCategory(category, tCat)
  {
  }

  /** The component's own `getClosingDate`. */
  function ClosingDateText(v: ClosingDateValue, locale: Navigation.Locale, parse: string -> Date,
                           format: (Date, string, OpportunityCard.DateLocale) -> string): (r: string)
    ensures v.DateText? ==>
      r == format(parse(v.text), OpportunityCard.DatePattern, OpportunityCard.DateLocaleFor(locale))
    ensures v.DateRecord? && v.seconds.Some? ==>
      r == format(OpportunityCard.FromUnixTime(v.seconds.value), OpportunityCard.DatePattern,
                  OpportunityCard.DateLocaleFor(locale))
    ensures v.OtherValue? || (v.DateRecord? && v.seconds.None?) ==> r == "N/A"
  {
    var dateLocale := if locale == Navigation.Fr then OpportunityCard.FrenchDates
                      else OpportunityCard.DefaultDates;
    if v.DateText? then format(parse(v.text), "d MMMM yyyy", dateLocale)
    else if v.DateRecord? && v.seconds.Some? then
      format(OpportunityCard.FromUnixTime(v.seconds.value), "d MMMM yyyy", dateLocale)
    else "N/A"
  }

  /** The three-way dispatch is the card's. */
  lemma ClosingDateTextAgrees(v: ClosingDateValue, locale: Navigation.Locale, parse: string -> Date,
                              format: (Date, string, OpportunityCard.DateLocale) -> string)
    ensures ClosingDateText(v, locale, parse, format) == OpportunityCard.ClosingDateText(v, locale, parse, format)
  {
  }

  /** One `<li>` of the requirements list, keyed by its index. */
  datatype ListItem = ListItem(key: nat, text: string)

  /** `Array.isArray(requirements) && requirements.map(...)`: one item per
      stored requirement, in stored order and unchanged, when the field is
      an array; no item otherwise. */
  function ListedRequirements(v: RequirementsValue): (r: seq<ListItem>)
    ensures v.NotAList? ==> r == []
    ensures v.RequirementList? ==>
      |r| == |v.items| && forall i :: 0 <= i < |r| ==> r[i] == ListItem(i, v.items[i])
  {
    match v
    case NotAList => []
    case RequirementList(items) => seq(|items|, i requires 0 <= i < |items| => ListItem(i, items[i]))
  }

  /** The texts of the list items. */
  function ItemTexts(items: seq<ListItem>): seq<string> {
    if items == [] then [] else [items[0].text] + ItemTexts(items[1..])
  }

  /** An array of requirements is shown as exactly those requirements. */
  lemma {:induction false} ListedRequirementTexts(v: RequirementsValue)
    ensures ItemTexts(ListedRequirements(v)) == (if v.RequirementList? then v.items else [])
  {
    if v.RequirementList? {
      ItemTextsOf(ListedRequirements(v), v.items);
    }
  }

  lemma {:induction false} ItemTextsOf(r: seq<ListItem>, items: seq<string>)
    requires |r| == |items| && forall i :: 0 <= i < |r| ==> r[i].text == items[i]
    ensures ItemTexts(r) == items
  {
    if r != [] {
      ItemTextsOf(r[1..], items[1..]);
    }
  }

  /** The value `${verb}` prints: the verb, or `undefined` when there is
      none. */
  function TemplateValue(v: Option<string>): string {
    match v
    case Some(s) => s
    case None => "undefined"
  }

  /** `verbs[opportunity.category] || verbs['Autres']` in the share line:
      the raw category's verb when it is non-empty, otherwise the `Autres`
      verb, otherwise `undefined`. `verbs` is the raw `shareMessages.verbs`
      record. */
  function ShareVerb(category: string, verbs: map<string, string>): (r: string)
    ensures category in verbs && verbs[category] != "" ==> r == verbs[category]
    ensures (category !in verbs || verbs[category] == "") && "Autres" in verbs ==> r == verbs["Autres"]
    ensures (category !in verbs || verbs[category] == "") && "Autres" !in verbs ==> r == "undefined"
  {
    var own := if category in verbs then verbs[category] else "";
    if own != "" then own else TemplateValue(if "Autres" in verbs then Some(verbs["Autres"]) else None)
  }

  /** A category without a verb of its own is shared with the `Autres` verb. */
  lemma MissingVerbIsAutresVerb(category: string, verbs: map<string, string>)
    requires category !in verbs || verbs[category] == ""
    ensures ShareVerb(category, verbs) == ShareVerb("Autres", verbs)
  {
  }

  /** `` `${line1}\n\n${line2}\n\n${line3}\n${url}` `` with
      `` line2 = `${company} ${verb} ${title}` ``: the lines `line1`, an empty
      line, `line2`, an empty line, `line3` and the URL, joined by line
      breaks. */
  function ShareText(line1: string, company: string, verb: string, title: string,
                     line3: string, url: string): (r: string)
    ensures r == Join([line1, "", company + " " + verb + " " + title, "", line3, url], '\n')
  {
    var text := line1 + "\n\n" + (company + " " + verb + " " + title) + "\n\n" + line3 + "\n" + url;
    JoinSixLines(line1, company + " " + verb + " " + title, line3, url);
    text
  }

  lemma JoinSixLines(a: string, b: string, c: string, d: string)
    ensures Join([a, "", b, "", c, d], '\n') == a + "\n\n" + b + "\n\n" + c + "\n" + d
  {
    JoinCons(c, [d]);
    JoinCons("", [c, d]);
    JoinCons(b, ["", c, d]);
    JoinCons("", [b, "", c, d]);
    JoinCons(a, ["", b, "", c, d]);
  }

  /** Joining a head onto a non-empty rest puts one line break between. */
  lemma JoinCons(head: string, rest: seq<string>)
    requires rest != []
    ensures Join([head] + rest, '\n') == head + "\n" + Join(rest, '\n')
  {
    assert ([head] + rest)[1..] == rest;
  }

  /** The share text ends with the URL; when no part holds a line break, the
      text splits back into exactly its six lines, so its last line is the
      URL and its second line is `company verb title`. */
  lemma ShareTextLines(line1: string, company: string, verb: string, title: string,
                       line3: string, url: string)
    ensures var r := ShareText(line1, company, verb, title, line3, url);
      |r| >= |url| && r[|r| - |url|..] == url
    ensures '\n' !in line1 && '\n' !in company && '\n' !in verb && '\n' !in title &&
            '\n' !in line3 && '\n' !in url ==>
      Split(ShareText(line1, company, verb, title, line3, url), '\n') ==
        [line1, "", company + " " + verb + " " + title, "", line3, url]
  {
    var line2 := company + " " + verb + " " + title;
    var parts := [line1, "", line2, "", line3, url];
    var r := ShareText(line1, company, verb, title, line3, url);
    assert r == (line1 + "\n\n" + line2 + "\n\n" + line3 + "\n") + url;
    if '\n' !in line1 && '\n' !in company && '\n' !in verb && '\n' !in title &&
       '\n' !in line3 && '\n' !in url {
      assert '\n' !in line2 by {
        assert line2 == company + (" " + verb + " " + title);
      }
      forall i | 0 <= i < |parts| ensures '\n' !in parts[i] {
      }
      SplitJoin(parts, '\n');
    }
  }

  const ShareTitlePrefix: string := "ORIVIO Hub: "

  /** The data handed to `navigator.share`. */
  datatype ShareData = ShareData(title: string, text: string, url: string)

  /** `handleShare`'s `shareData` for `o` at the page URL `url`. `discover`
      stands for `tShare('discover', { category })` with the translated
      label, `details` for `tShare('details')`, `verbs` for
      `tShare.raw('verbs')`. The title is `ORIVIO Hub: ` and the title, and
      the shared URL is the one the text ends with. */
  function Share(o: Opportunity, url: string, tCat: string -> string, discover: string -> string,
                 details: string, verbs: map<string, string>): (s: ShareData)
    ensures |s.title| == |ShareTitlePrefix| + |o.title|
    ensures s.title[..|ShareTitlePrefix|] == ShareTitlePrefix && s.title[|ShareTitlePrefix|..] == o.title
    ensures s.url == url
    ensures |s.text| >= |url| && s.text[|s.text| - |url|..] == s.url
    ensures s.text == ShareText(discover(OpportunityCard.TranslatedCategory(o.category, tCat)),
                                o.company, ShareVerb(o.category, verbs), o.title, details, url)
  {
    var text := ShareText(discover(TranslatedCategory(o.category, tCat)), o.company,
                          ShareVerb(o.category, verbs), o.title, details, url);
    TranslatedCategoryAgrees(o.category, tCat);
    ShareTextLines(discover(TranslatedCategory(o.category, tCat)), o.company,
                   ShareVerb(o.category, verbs), o.title, details, url);
    ShareData(ShareTitlePrefix + o.title, text, url)
  }

  /** What the details view displays. */
  datatype DetailsContent = DetailsContent(
    image: string, badgeClass: string, badgeLabel: string, title: string, company: string,
    location: string, description: string, requirements: seq<ListItem>, closes: string,
    applyLink: string)

  /** The details of `o`: its badge, label and closing date are the ones
      its card shows, its company and location are copied, and its
      requirements are listed as stored, keyed by index. */
  function Details(o: Opportunity, locale: Navigation.Locale, tCat: string -> string,
                   parse: string -> Date, format: (Date, string, OpportunityCard.DateLocale) -> string)
    : (d: DetailsContent)
    ensures var card := OpportunityCard.Card(o, locale, tCat, parse, format);
      d.badgeClass == card.badgeClass && d.badgeLabel == card.badgeLabel &&
      d.closes == card.closes && d.title == card.title
    ensures ItemTexts(d.requirements) == (if o.requirements.RequirementList? then o.requirements.items else [])
    ensures d.image == o.imageUrl && d.applyLink == o.applyLink && d.description == o.description
    ensures d.company == o.company && d.location == o.location
    ensures d.requirements == ListedRequirements(o.requirements)
  {
    CategoryColorAgrees(o.category);
    TranslatedCategoryAgrees(o.category, tCat);
    ClosingDateTextAgrees(o.closingDate, locale, parse, format);
    ListedRequirementTexts(o.requirements);
    DetailsContent(
      o.imageUrl, CategoryColor(o.category), TranslatedCategory(o.category, tCat), o.title,
      o.company, o.location, o.description, ListedRequirements(o.requirements),
      ClosingDateText(o.closingDate, locale, parse, format), o.applyLink)
  }
}
