/** The record types of `src/lib/types.ts` that the modelled components
    use: the opportunity category, the moderation status and the date a
    submitter picks. */
module Types {
  import opened Base

  /** `OpportunityCategory`: the six category names, in declaration order. */
  datatype Category = Employment | Internship | Scholarships | Entrepreneurship | Formations | Autres

  const AllCategories: seq<Category> :=
    [Employment, Internship, Scholarships, Entrepreneurship, Formations, Autres]

  /** The string stored for a category. */
  function CategoryName(c: Category): string {
    match c
    case Employment => "Employment"
    case Internship => "Internship"
    case Scholarships => "Scholarships"
    case Entrepreneurship => "Entrepreneurship"
    case Formations => "Formations"
    case Autres => "Autres"
  }

  /** The category a stored string names, if it names one. */
  function ParseCategory(s: string): (r: Option<Category>)
    ensures r.Some? ==> CategoryName(r.value) == s
  {
    match s
    case "Employment" => Some(Employment)
    case "Internship" => Some(Internship)
    case "Scholarships" => Some(Scholarships)
    case "Entrepreneurship" => Some(Entrepreneurship)
    case "Formations" => Some(Formations)
    case "Autres" => Some(Autres)
    case _ => None
  }

  /** Every category's name parses back to it, so the names are distinct. */
  lemma ParseCategoryName(c: Category)
    ensures ParseCategory(CategoryName(c)) == Some(c)
  {
  }

  /** The listing holds every category exactly once. */
  lemma AllCategoriesComplete(c: Category)
    ensures c in AllCategories
    ensures forall i, j :: 0 <= i < j < |AllCategories| ==> AllCategories[i] != AllCategories[j]
  {
  }

  /** Moderation status of an opportunity (`src/lib/types.ts`, line 15). */
  datatype Status = Pending | Approved | Rejected

  function StatusName(s: Status): string {
    match s
    case Pending => "pending"
    case Approved => "approved"
    case Rejected => "rejected"
  }

  /** A JavaScript `Date` value, kept as its millisecond time value. The
      model only copies dates; it never computes with them. */
  datatype Date = Date(epochMillis: int)

  /** How a stored `closingDate` (typed `any`) can look when it is read
      back: a string, an object such as a Firestore Timestamp whose
      `seconds` is a number or not, or any other value (absent, `null`, a
      number, ...). */
  datatype ClosingDateValue = DateText(text: string) | DateRecord(seconds: Option<int>) | OtherValue

  /** A stored `requirements` field: typed `string[]`, but the details view
      checks at run time whether it is an array. */
  datatype RequirementsValue = RequirementList(items: seq<string>) | NotAList

  /** `Opportunity`: a stored opportunity with its document id. The category
      is the stored string, which display code does not assume to be one of
      the six names. */
  datatype Opportunity = Opportunity(
    id: string, title: string, company: string, category: string, location: string,
    description: string, imageUrl: string, applyLink: string,
    closingDate: ClosingDateValue, requirements: RequirementsValue, status: Status)
}
