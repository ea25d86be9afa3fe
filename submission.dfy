/** The opportunity submission form (`src/components/opportunity-submission-form.tsx`):
    its schema, the image choice, the split of the requirements text into
    lines, the stored document, and the submit handler's state flow. */
module OpportunitySubmission {
  import opened Base
  import opened JsString
  import opened Types
  import opened FormFlow

  /** `categoryImages`: a picture per category name. */
  const CategoryImages: map<string, string> := map[
    "Employment" := "https://i.imgur.com/Lp6gNGx.png",
    "Internship" := "https://i.imgur.com/jcOqgrS.png",
    "Scholarships" := "https://i.imgur.com/QPIqp7j.png",
    "Entrepreneurship" := "https://i.imgur.com/QPWUdyt.png",
    "Formations" := "https://i.imgur.com/8mRKNYv.png",
    "Autres" := "https://i.imgur.com/4Oy22hf.png"
  ]

  /** `categories`: the values the category select offers. */
  const Categories: seq<string> :=
    ["Employment", "Internship", "Scholarships", "Entrepreneurship", "Formations", "Autres"]

  // ---------------------------------------------------------------- schema

  /** The form's fields, in schema order. */
  datatype SubmissionField =
    | Title | Company | CategoryField | Location | ClosingDate | ApplyLink
    | CustomImageUrl | Description | RequirementsField | SubmitterEmail

  /** The form contents. Text inputs always hold a string; the category
      select and the date picker hold nothing until the user picks. */
  datatype SubmissionValues = SubmissionValues(
    title: string, company: string, category: Option<string>, location: string,
    closingDate: Option<Date>, applyLink: string, customImageUrl: Option<string>,
    description: string, requirements: string, submitterEmail: string)

  /** The data the schema hands to `onSubmit`. */
  datatype Submission = Submission(
    title: string, company: string, category: string, location: string,
    closingDate: Date, applyLink: string, customImageUrl: Option<string>,
    description: string, requirements: string, submitterEmail: string)

  /** `defaultValues`; category and closing date start out unset. */
  const Defaults: SubmissionValues :=
    SubmissionValues("", "", None, "", None, "", Some(""), "", "", "")

  /** Whether field `f` of `v` passes its rule. `isUrl` and `isEmail` stand
      for zod's `.url()` and `.email()` checks. */
  predicate FieldOk(v: SubmissionValues, f: SubmissionField,
                    isUrl: string -> bool, isEmail: string -> bool)
  {
    match f
    case Title => JsLength(v.title) >= 5
    case Company => JsLength(v.company) >= 2
    case CategoryField => v.category.Some? && JsLength(v.category.value) >= 1
    case Location => JsLength(v.location) >= 2
    case ClosingDate => v.closingDate.Some?
    case ApplyLink => isUrl(v.applyLink)
    case CustomImageUrl => v.customImageUrl.None? || v.customImageUrl.value == "" || isUrl(v.customImageUrl.value)
    case Description => JsLength(v.description) >= 20
    case RequirementsField => JsLength(v.requirements) >= 10
    case SubmitterEmail => isEmail(v.submitterEmail)
  }

  const AllFields: seq<SubmissionField> := [
    Title, Company, CategoryField, Location, ClosingDate, ApplyLink,
    CustomImageUrl, Description, RequirementsField, SubmitterEmail
  ]

  /** The fields of the form that fail their rule (react-hook-form's
      `errors` object, keyed by field). */
  function FailingFields(v: SubmissionValues, isUrl: string -> bool, isEmail: string -> bool)
    : set<SubmissionField>
  {
    set f | f in AllFields && !FieldOk(v, f, isUrl, isEmail)
  }

  /** Every field passes its rule. */
  predicate AllFieldsOk(v: SubmissionValues, isUrl: string -> bool, isEmail: string -> bool) {
    FieldOk(v, Title, isUrl, isEmail) && FieldOk(v, Company, isUrl, isEmail) &&
    FieldOk(v, CategoryField, isUrl, isEmail) && FieldOk(v, Location, isUrl, isEmail) &&
    FieldOk(v, ClosingDate, isUrl, isEmail) && FieldOk(v, ApplyLink, isUrl, isEmail) &&
    FieldOk(v, CustomImageUrl, isUrl, isEmail) && FieldOk(v, Description, isUrl, isEmail) &&
    FieldOk(v, RequirementsField, isUrl, isEmail) && FieldOk(v, SubmitterEmail, isUrl, isEmail)
  }

  /** `submissionSchema` as the resolver applies it: the contents are
      accepted, unchanged, when every field passes its rule; otherwise the
      failing fields are reported, and there is at least one. */
  function Validate(v: SubmissionValues, isUrl: string -> bool, isEmail: string -> bool)
    : (r: Result<Submission, set<SubmissionField>>)
    ensures r.Ok? <==> AllFieldsOk(v, isUrl, isEmail)
    ensures r.Ok? ==> v.category.Some? && v.closingDate.Some? && r.value == Submission(
      v.title, v.company, v.category.value, v.location, v.closingDate.value, v.applyLink,
      v.customImageUrl, v.description, v.requirements, v.submitterEmail)
    ensures r.Err? ==> r.error == FailingFields(v, isUrl, isEmail) && r.error != {}
  {
    if AllFieldsOk(v, isUrl, isEmail) then
      Ok(Submission(v.title, v.company, v.category.value, v.location, v.closingDate.value,
                    v.applyLink, v.customImageUrl, v.description, v.requirements, v.submitterEmail))
    else
      var f := FirstFailing(v, isUrl, isEmail);
      assert f in AllFields;
      assert f in FailingFields(v, isUrl, isEmail);
      Err(FailingFields(v, isUrl, isEmail))
  }

  /** The first field in schema order that fails its rule. */
  function FirstFailing(v: SubmissionValues, isUrl: string -> bool, isEmail: string -> bool)
    : (f: SubmissionField)
    requires !AllFieldsOk(v, isUrl, isEmail)
    ensures !FieldOk(v, f, isUrl, isEmail)
  {
    if !FieldOk(v, Title, isUrl, isEmail) then Title
    else if !FieldOk(v, Company, isUrl, isEmail) then Company
    else if !FieldOk(v, CategoryField, isUrl, isEmail) then CategoryField
    else if !FieldOk(v, Location, isUrl, isEmail) then Location
    else if !FieldOk(v, ClosingDate, isUrl, isEmail) then ClosingDate
    else if !FieldOk(v, ApplyLink, isUrl, isEmail) then ApplyLink
    else if !FieldOk(v, CustomImageUrl, isUrl, isEmail) then CustomImageUrl
    else if !FieldOk(v, Description, isUrl, isEmail) then Description
    else if !FieldOk(v, RequirementsField, isUrl, isEmail) then RequirementsField
    else SubmitterEmail
  }

  /** The schema accepts the contents exactly when the title has at least 5
      characters, the company and location at least 2, a non-empty category
      and a closing date are set, the apply link and email pass their
      checks, the custom image URL is unset, empty or a URL, the description
      has at least 20 characters and the requirements text at least 10. */
  lemma ValidateAcceptsExactlyTheSchema(v: SubmissionValues, isUrl: string -> bool, isEmail: string -> bool)
    ensures Validate(v, isUrl, isEmail).Ok? <==>
      JsLength(v.title) >= 5 && JsLength(v.company) >= 2 &&
      v.category.Some? && v.category.value != "" && JsLength(v.location) >= 2 &&
      v.closingDate.Some? && isUrl(v.applyLink) &&
      (v.customImageUrl.None? || v.customImageUrl.value == "" || isUrl(v.customImageUrl.value)) &&
      JsLength(v.description) >= 20 && JsLength(v.requirements) >= 10 &&
      isEmail(v.submitterEmail)
  {
  }

  lemma AllFieldsListed()
    ensures forall f: SubmissionField :: f in AllFields
  {
    forall f: SubmissionField ensures f in AllFields {
      match f
      case Title => case Company => case CategoryField => case Location =>
      case ClosingDate => case ApplyLink => case CustomImageUrl => case Description =>
      case RequirementsField => case SubmitterEmail =>
    }
  }

  /** A rejection reports exactly the fields that fail their rule, and any
      failing field causes one. */
  lemma RejectionNamesFailingFields(v: SubmissionValues, f: SubmissionField,
                                    isUrl: string -> bool, isEmail: string -> bool)
    ensures Validate(v, isUrl, isEmail).Err? ==>
      (f in Validate(v, isUrl, isEmail).error <==> !FieldOk(v, f, isUrl, isEmail))
    ensures !FieldOk(v, f, isUrl, isEmail) ==> Validate(v, isUrl, isEmail).Err?
  {
    AllFieldsListed();
    assert f in AllFields;
  }

  /** The empty form is rejected: with the text inputs empty and nothing
      picked (as in `Defaults`), title, company, category, location, closing
      date, description and requirements all fail, whatever the email and
      URL checks say. */
  lemma EmptyFormRejected(v: SubmissionValues, isUrl: string -> bool, isEmail: string -> bool)
    requires v.title == v.company == v.location == v.description == v.requirements == ""
    requires v.category.None? && v.closingDate.None?
    ensures Validate(v, isUrl, isEmail).Err?
    ensures var e := Validate(v, isUrl, isEmail).error;
      Title in e && Company in e && CategoryField in e && Location in e &&
      ClosingDate in e && Description in e && RequirementsField in e
  {
    assert !FieldOk(v, Title, isUrl, isEmail);
    RejectionNamesFailingFields(v, Title, isUrl, isEmail);
    RejectionNamesFailingFields(v, Company, isUrl, isEmail);
    RejectionNamesFailingFields(v, CategoryField, isUrl, isEmail);
    RejectionNamesFailingFields(v, Location, isUrl, isEmail);
    RejectionNamesFailingFields(v, ClosingDate, isUrl, isEmail);
    RejectionNamesFailingFields(v, Description, isUrl, isEmail);
    RejectionNamesFailingFields(v, RequirementsField, isUrl, isEmail);
  }

  // ---------------------------------------------------------- image choice

  const SeedPrefix: string := "https://picsum.photos/seed/"
  const SeedSuffix: string := "/800/600"

  /** The placeholder picture seeded with the current time in milliseconds
      (`Date.now()`, a parameter here): the seed is spelled in decimal and
      reads back as `now`. */
  function SeededImageUrl(now: nat): (r: string)
    ensures |r| > |SeedPrefix| + |SeedSuffix|
    ensures r[..|SeedPrefix|] == SeedPrefix && r[|r| - |SeedSuffix|..] == SeedSuffix
    ensures var seed := r[|SeedPrefix|..|r| - |SeedSuffix|];
      (forall i :: 0 <= i < |seed| ==> '0' <= seed[i] <= '9') && DecimalValue(seed) == now
    ensures var seed := r[|SeedPrefix|..|r| - |SeedSuffix|];
      (now == 0 ==> seed == "0") && (now > 0 ==> seed[0] != '0')
  {
    DecimalRoundTrip(now);
    var r := SeedPrefix + NatToDecimal(now) + SeedSuffix;
    assert r[|SeedPrefix|..|r| - |SeedSuffix|] == NatToDecimal(now);
    r
  }

  /** `data.customImageUrl || categoryImages[data.category] || seeded`: a
      non-empty custom URL wins, then the category's picture, then the
      seeded placeholder. The result is never empty. */
  function ChooseImageUrl(custom: Option<string>, category: string, now: nat): (r: string)
    ensures r != ""
    ensures custom.Some? && custom.value != "" ==> r == custom.value
    ensures (custom.None? || custom.value == "") && category in CategoryImages ==>
      r == CategoryImages[category]
    ensures (custom.None? || custom.value == "") && category !in CategoryImages ==>
      r == SeededImageUrl(now)
  {
    var customUrl := if custom.Some? then custom.value else "";
    var categoryUrl := if category in CategoryImages then CategoryImages[category] else "";
    Or(customUrl, Or(categoryUrl, SeededImageUrl(now)))
  }

  /** Every selectable category has a picture (and the pictures are keyed by
      exactly those names, which are the category names), so a listed
      category without a custom URL never falls back to the seeded
      placeholder. */
  lemma ListedCategoriesHaveImages(c: string, now: nat)
    requires c in Categories
    ensures c in CategoryImages
    ensures ChooseImageUrl(None, c, now) == ChooseImageUrl(Some(""), c, now) == CategoryImages[c]
    ensures CategoryImages[c] != SeededImageUrl(now)
  {
    var s := SeededImageUrl(now);
    assert s[8] == SeedPrefix[8] == 'p';
    assert CategoryImages[c][8] == 'i';
  }

  /** The category select offers exactly the pictured names, and they are
      the category names in declaration order. */
  lemma CategoryListsAgree()
    ensures forall k :: k in CategoryImages <==> k in Categories
    ensures |Categories| == |AllCategories|
    ensures forall k :: 0 <= k < |AllCategories| ==> CategoryName(AllCategories[k]) == Categories[k]
  {
  }

  // ----------------------------------------------------------- requirements

  /** `a` is `b` with some elements left out, order kept. */
  predicate IsSubsequence(a: seq<string>, b: seq<string>) {
    if a == [] then true
    else if b == [] then false
    else if a[0] == b[0] then IsSubsequence(a[1..], b[1..])
    else IsSubsequence(a, b[1..])
  }

  /** Whether a line survives `filter(req => req.trim() !== '')`. */
  predicate Kept(line: string) {
    Trim(line) != ""
  }

  /** The lines whose trim is non-empty, in order, each unchanged. */
  function KeptLines(lines: seq<string>): (r: seq<string>)
    ensures |r| <= |lines|
  {
    if lines == [] then []
    else if Kept(lines[0]) then [lines[0]] + KeptLines(lines[1..])
    else KeptLines(lines[1..])
  }

  /** Only kept lines are kept. */
  lemma {:induction false} KeptLinesAreKept(lines: seq<string>)
    ensures forall i :: 0 <= i < |KeptLines(lines)| ==> Kept(KeptLines(lines)[i])
  {
    if lines != [] {
      KeptLinesAreKept(lines[1..]);
      var rest := KeptLines(lines[1..]);
      if Kept(lines[0]) {
        var r := [lines[0]] + rest;
        assert KeptLines(lines) == r;
        assert forall i :: 0 < i < |r| ==> r[i] == rest[i - 1];
      }
    }
  }

  /** The kept lines are a subsequence of the lines: order is kept. */
  lemma {:induction false} KeptLinesSubsequence(lines: seq<string>)
    ensures IsSubsequence(KeptLines(lines), lines)
  {
    if lines != [] {
      KeptLinesSubsequence(lines[1..]);
      var rest := KeptLines(lines[1..]);
      if Kept(lines[0]) {
        assert ([lines[0]] + rest)[1..] == rest;
      } else {
        SubsequenceSkip(rest, lines);
      }
    }
  }

  /** Every occurrence of a kept line survives, and no other line does. */
  lemma {:induction false} KeptLinesCount(lines: seq<string>, x: string)
    ensures multiset(KeptLines(lines))[x] == if Kept(x) then multiset(lines)[x] else 0
  {
    if lines != [] {
      KeptLinesCount(lines[1..], x);
      var head := if lines[0] == x then 1 else 0;
      assert multiset(lines)[x] == multiset(lines[1..])[x] + head by {
        assert lines == [lines[0]] + lines[1..];
      }
      assert multiset(KeptLines(lines))[x] ==
             multiset(KeptLines(lines[1..]))[x] + (if Kept(lines[0]) then head else 0) by {
        if Kept(lines[0]) {
          assert KeptLines(lines) == [lines[0]] + KeptLines(lines[1..]);
        }
      }
    }
  }

  /** Dropping the head of `b` keeps a subsequence of its tail a
      subsequence of `b`. */
  lemma SubsequenceSkip(a: seq<string>, b: seq<string>)
    requires b != [] && IsSubsequence(a, b[1..])
    ensures IsSubsequence(a, b)
    decreases |b|, 0
  {
    if a != [] && a[0] == b[0] {
      SubsequenceTail(a, b[1..]);
    }
  }

  /** A subsequence stays one when its head is dropped. */
  lemma SubsequenceTail(a: seq<string>, b: seq<string>)
    requires a != [] && IsSubsequence(a, b)
    ensures IsSubsequence(a[1..], b)
    decreases |b|, 1
  {
    if b != [] {
      if a[0] == b[0] {
        if a[1..] != [] { SubsequenceSkip(a[1..], b); }
      } else {
        SubsequenceTail(a, b[1..]);
        if a[1..] != [] { SubsequenceSkip(a[1..], b); }
      }
    }
  }

  /** `data.requirements.split('\n').filter(req => req.trim() !== '')`: the
      non-blank lines of the text, no more of them than there are line
      breaks plus one, none holding a line break. */
  function Requirements(text: string): (r: seq<string>)
    ensures |r| <= Count(text, '\n') + 1
    ensures forall i :: 0 <= i < |r| ==> '\n' !in r[i] && Kept(r[i])
    ensures IsSubsequence(r, Split(text, '\n'))
  {
    var lines := Split(text, '\n');
    var r := KeptLines(lines);
    KeptLinesAreKept(lines);
    KeptLinesSubsequence(lines);
    forall i | 0 <= i < |r| ensures '\n' !in r[i] {
      SubsequenceMember(r, lines, i);
    }
    r
  }

  /** The requirements are exactly the kept lines of the text: a kept line
      occurs as often as in the text's lines, any other line not at all. */
  lemma RequirementsCount(text: string, x: string)
    ensures multiset(Requirements(text))[x] == if Kept(x) then multiset(Split(text, '\n'))[x] else 0
  {
    KeptLinesCount(Split(text, '\n'), x);
  }

  /** Each element of a subsequence is an element of the sequence. */
  lemma SubsequenceMember(a: seq<string>, b: seq<string>, i: nat)
    requires IsSubsequence(a, b) && i < |a|
    ensures a[i] in b
    decreases |b|
  {
    if a[0] == b[0] {
      if i > 0 { SubsequenceMember(a[1..], b[1..], i - 1); }
    } else {
      SubsequenceMember(a, b[1..], i);
    }
  }

  /** A blank text only splits into blank lines. */
  lemma {:induction false} BlankSplit(s: string)
    requires IsBlank(s)
    ensures forall i :: 0 <= i < |Split(s, '\n')| ==> IsBlank(Split(s, '\n')[i])
  {
    if s != [] {
      BlankSplit(s[1..]);
    }
  }

  /** The 10-character minimum on the raw text does not guarantee a
      requirement: ten line breaks pass the schema rule and give an empty
      list, and so does any blank text. */
  lemma RequirementsMayBeEmpty(text: string)
    requires IsBlank(text)
    ensures Requirements(text) == []
  {
    BlankSplit(text);
    NoKeptLines(Split(text, '\n'));
  }

  /** A list of blank lines keeps none of them. */
  lemma {:induction false} NoKeptLines(lines: seq<string>)
    requires forall i :: 0 <= i < |lines| ==> IsBlank(lines[i])
    ensures KeptLines(lines) == []
  {
    if lines != [] {
      TrimEmptyIffBlank(lines[0]);
      NoKeptLines(lines[1..]);
    }
  }

  /** Ten line breaks: a blank text that meets the 10-character rule. */
  lemma TenLineBreaksPassTheLengthRule()
    ensures var tenBreaks := "\n\n\n\n\n\n\n\n\n\n";
      IsBlank(tenBreaks) && JsLength(tenBreaks) >= 10 && Requirements(tenBreaks) == []
  {
    var tenBreaks := "\n\n\n\n\n\n\n\n\n\n";
    assert forall i :: 0 <= i < |tenBreaks| ==> tenBreaks[i] == '\n';
    JsLengthOfBmp(tenBreaks);
    RequirementsMayBeEmpty(tenBreaks);
  }

  // --------------------------------------------------------------- document

  /** `docData`: the document written to the `opportunities` collection. */
  datatype OpportunityDocument = OpportunityDocument(
    title: string, company: string, category: string, location: string,
    closingDate: Date, applyLink: string, description: string,
    requirements: seq<string>, submitterEmail: string, imageUrl: string,
    createdAt: ServerTimestamp, status: Status)

  /** The document copies the submitted fields unchanged, stores the split
      requirements and the chosen picture, and is always `pending`. */
  function BuildDocument(d: Submission, now: nat): (doc: OpportunityDocument)
    ensures doc.title == d.title && doc.company == d.company && doc.category == d.category
    ensures doc.location == d.location && doc.closingDate == d.closingDate
    ensures doc.applyLink == d.applyLink && doc.description == d.description
    ensures doc.submitterEmail == d.submitterEmail
    ensures doc.requirements == Requirements(d.requirements)
    ensures doc.imageUrl == ChooseImageUrl(d.customImageUrl, d.category, now) && doc.imageUrl != ""
    ensures doc.status == Pending && StatusName(doc.status) == "pending"
  {
    OpportunityDocument(
      d.title, d.company, d.category, d.location, d.closingDate, d.applyLink, d.description,
      Requirements(d.requirements), d.submitterEmail,
      ChooseImageUrl(d.customImageUrl, d.category, now), ServerTimestamp, Pending)
  }

  // ---------------------------------------------------------------- handler

  const Collection: string := "opportunities"
  const ErrorTitle: Text := Translated("SubmitOpportunityPage.form.errorTitle")
  const SuccessToast: Toast := Toast(
    Translated("SubmitOpportunityPage.form.successTitle"),
    Literal("Your opportunity has been submitted for review. Thank you!"), false)

  /** `error.message || 'Could not save opportunity.'`. */
  const FailureStyle: ErrorStyle := MessageOr("Could not save opportunity.")

  /** The form component's state: the values and errors of `useForm`, with
      `defaultValues` as the defaults, and `isSubmitting`. */
  type SubmissionFormState = Form<SubmissionValues, SubmissionField, OpportunityDocument>

  /** `onSubmit`, given the validated data, whether a database handle
      exists, how the write ends, and the clock reading: one run of the
      common handler flow writing `docData` to `opportunities`. */
  method OnSubmit(form: SubmissionFormState, data: Submission, db: bool, outcome: WriteOutcome, now: nat)
    modifies form
    ensures form.log == old(form.log) + HandlerTrace(db, Collection, BuildDocument(data, now), outcome,
                                                     ErrorTitle, SuccessToast, FailureStyle)
    ensures form.isSubmitting == (if db then false else old(form.isSubmitting))
    ensures form.values == (if db && outcome.Succeeded? then form.defaults else old(form.values))
    ensures form.errors == (if db && outcome.Succeeded? then {} else old(form.errors))
  {
    form.Run(db, Collection, BuildDocument(data, now), outcome, ErrorTitle, SuccessToast, FailureStyle);
  }

  /** `handleSubmit(onSubmit)`: the schema runs first; rejected contents
      only record the failing fields, accepted ones clear them and run
      `onSubmit`. */
  method HandleSubmit(form: SubmissionFormState, isUrl: string -> bool, isEmail: string -> bool,
                      db: bool, outcome: WriteOutcome, now: nat)
    modifies form
    ensures Validate(old(form.values), isUrl, isEmail).Err? ==>
      form.errors == Validate(old(form.values), isUrl, isEmail).error &&
      form.log == old(form.log) && form.values == old(form.values) &&
      form.isSubmitting == old(form.isSubmitting)
    ensures Validate(old(form.values), isUrl, isEmail).Ok? ==>
      form.errors == {} &&
      form.log == old(form.log) + HandlerTrace(db, Collection,
                    BuildDocument(Validate(old(form.values), isUrl, isEmail).value, now),
                    outcome, ErrorTitle, SuccessToast, FailureStyle) &&
      form.isSubmitting == (if db then false else old(form.isSubmitting)) &&
      form.values == (if db && outcome.Succeeded? then form.defaults else old(form.values))
  {
    var checked := Validate(form.values, isUrl, isEmail);
    match checked {
      case Err(failing) =>
        form.errors := failing;
      case Ok(data) =>
        form.errors := {};
        OnSubmit(form, data, db, outcome, now);
    }
  }
}
