# ORIVIO Hub: forms, localized navigation and opportunity display rules

This project models the logic behind the ORIVIO Hub web site in Dafny and proves
properties about that model. The model covers four parts of the site:

- **The opportunity submission form.** It has a ten-field schema. The picture is
  the custom image URL, else the category's stock picture, else a seeded placeholder.
  The requirements text is split into lines and blank lines are dropped. The stored
  document always carries the `pending` status. The handler then toasts, resets the
  form and updates the submitting flag.
- **The contact and subscription forms.** The model covers their schemas, their
  default values, the documents they write (`contact_messages`, `user_subscriptions`)
  and their handlers.
- **The localized pathname table.** It has two locales, a locale prefix that is
  always present and ten canonical routes, each with an English and a French path.
- **The opportunity card and details view.** The model covers the badge colour per
  category, the translated category label with its fallback, and the closing date,
  which depends on whether it is stored as a string, as a `{seconds}` timestamp or
  as anything else. It also covers the details link, the share verb with its
  `Autres` fallback, the share text and title, and the requirements list, which is
  shown only when the stored field is an array.

Modules:

- `Base`: `Option` and `Result`.
- `JsString`: the JavaScript string operations the code relies on. These are
  `length` in UTF-16 code units, `trim`, `split`/`join` on one character, `||` on
  strings and decimal rendering of a timestamp.
- `Types`: the opportunity record and its category and status unions.
- `Navigation`: the pathname table, the locales and the header and footer links.
- `FormFlow`: the submit flow shared by the three forms. It is a generic `Form`
  class whose fields are the form values, the error set, the `isSubmitting` flag
  and a log of events (flag changes, database writes, toasts, resets). Its method
  `Run` appends exactly the trace given by the function `HandlerTrace`.
- `OpportunitySubmission`, `ContactForm`, `SubscriptionForm`: one module per form.
- `OpportunityCard`, `OpportunityDetails`: the two views of an opportunity.

Some parts of the system cannot be seen from this code. These become parameters:

- zod's `.email()` and `.url()` checks (`isEmail`, `isUrl`);
- the outcome of the database write (`WriteOutcome`) and whether a database is
  present (`db`);
- `Date.now()` (`now`);
- date-fns `format` and `new Date(string)` (`format`, `parse`);
- the next-intl message lookups (`tCat`, `discover`, `details`, and the `verbs`
  map);
- the page URL.

## Model

| member | source | states |
|---|---|---|
| Types.ParseCategory | src/lib/types.ts:1 | a string parses to a category only when it is that category's exact name |
| Types.ParseCategoryName | src/lib/types.ts:1 | every category's name parses back to that category |
| Types.AllCategoriesComplete | src/lib/types.ts:1 | the list of categories contains every category exactly once |
| JsString.JsLength | src/components/opportunity-submission-form.tsx:43-51 | the UTF-16 length used by zod's `min` lies between the character count and twice it |
| JsString.JsLengthOfBmp | src/components/opportunity-submission-form.tsx:43-51 | for text made only of Basic Multilingual Plane characters, the UTF-16 length is the character count |
| JsString.AstralCharLength | src/components/opportunity-submission-form.tsx:43-51 | a character beyond the Basic Multilingual Plane counts as two UTF-16 units |
| JsString.JsLengthConcat | src/components/opportunity-submission-form.tsx:43-51 | UTF-16 lengths add up over concatenation |
| JsString.TrimStart | src/components/opportunity-submission-form.tsx:82 | the result is a suffix of the input; what was removed is all whitespace; the result does not start with whitespace |
| JsString.TrimEnd | src/components/opportunity-submission-form.tsx:82 | the result is a prefix of the input; what was removed is all whitespace; the result does not end with whitespace |
| JsString.Trim | src/components/opportunity-submission-form.tsx:82 | `trim()` keeps one contiguous piece of the line, with only whitespace before and after it, and that piece neither starts nor ends with whitespace |
| JsString.TrimmedBothEnds | src/components/opportunity-submission-form.tsx:82 | cutting a blank prefix and then a blank suffix leaves whitespace only around what remains, which neither starts nor ends with whitespace |
| JsString.TrimEmptyIffBlank | src/components/opportunity-submission-form.tsx:82 | `trim()` gives the empty string exactly when the line is all whitespace |
| JsString.Split | src/components/opportunity-submission-form.tsx:82 | `split('\n')` yields one piece more than there are separators, and no piece holds a separator |
| JsString.JoinSplit | src/components/opportunity-submission-form.tsx:82 | joining the pieces of a split with the same separator gives back the original text |
| JsString.SplitJoin | src/components/opportunity-details.tsx:78 | splitting a join of separator-free pieces gives back those pieces |
| JsString.SplitPiece | src/components/opportunity-submission-form.tsx:82 | text without the separator splits into itself alone |
| JsString.SplitPieceThen | src/components/opportunity-submission-form.tsx:82 | a separator-free head followed by the separator splits into that head, then the split of the rest |
| JsString.Or | src/components/opportunity-submission-form.tsx:81 | JavaScript `a \|\| b` on strings: the first operand unless it is empty, else the second |
| JsString.DigitChar | src/components/opportunity-submission-form.tsx:81 | a digit value becomes the character that stands for it |
| JsString.NatToDecimal | src/components/opportunity-submission-form.tsx:81 | the rendered timestamp is non-empty and all decimal digits; zero is `0` and any other number has no leading zero |
| JsString.DecimalRoundTrip | src/components/opportunity-submission-form.tsx:81 | reading the rendered timestamp back gives the original number |
| Navigation.ParseLocale | src/navigation.ts:3 | only `en` and `fr` are locales, and each parses to the locale whose tag it is |
| Navigation.LocalesAreEnAndFr | src/navigation.ts:3 | there are exactly two distinct locales, tagged `en` and `fr`, and each tag parses back to its locale |
| Navigation.LocalizedPath | src/navigation.ts:6-44 | a route has a localized path in every locale exactly when it is a key of the table |
| Navigation.TableKeys | src/navigation.ts:6-44 | the table has exactly the ten canonical keys, all distinct |
| Navigation.RootAndAbsolute | src/navigation.ts:7 | `/` maps to `/` in every locale, and every localized path starts with `/` |
| Navigation.ReseauAndSubmitEntries | src/navigation.ts:16-31 | `/reseau` is `/network` in English and `/reseau` in French; the submit route is `/opportunities/submit` in English and `/opportunites/soumettre` in French |
| Navigation.LocalizedPathInjective | src/navigation.ts:6-44 | within one locale, no two routes share a localized path |
| Navigation.LocalizedPathRoundTrip | src/navigation.ts:6-44 | the reverse lookup of a route's localized path in its locale gives back that route |
| Navigation.PlaceholderPlacement | src/navigation.ts:20-23 | the two dynamic routes end with `[id]` in both locales, each a single placeholder at the end; every other localized path has no brackets |
| Navigation.StaticPathsHaveNoBrackets | src/navigation.ts:7-39 | none of the static localized paths holds a bracket |
| Navigation.IdPathsEndWithPlaceholder | src/navigation.ts:20-23 | the four dynamic localized paths contain `[id]` only, as their last segment |
| Navigation.FillId | src/navigation.ts:40-43 | filling the `[id]` placeholder keeps the path before it and ends with the id |
| Navigation.NavHrefsAreKeys | src/components/header.tsx:20-27 | every header link, and every footer link (src/components/footer.tsx, lines 21-28), is a key of the pathname table, so it can be localized in every locale |
| FormFlow.Describe | src/components/opportunity-submission-form.tsx:106 | the failure toast text is the error message, or for `message \|\| fallback` the fallback when the message is empty |
| FormFlow.HandlerTrace | src/components/opportunity-submission-form.tsx:73-110 | without a database, a single destructive toast. With one, the run starts by setting the flag and ends by clearing it: five events after a successful write, four after a failed one |
| FormFlow.HandlerTraceProperties | src/components/opportunity-submission-form.tsx:73-110 | without a database there is one destructive toast and no write. With one: the flag goes on, then the write; success brings the success toast and a reset; failure brings one destructive toast; the flag goes off last. Nothing else happens: five events after success, four after failure |
| FormFlow.HandlerClearsSubmitting | src/components/opportunity-submission-form.tsx:107-109 | when a database is present, the submitting flag is off after the handler whatever the write outcome; without one it is unchanged |
| FormFlow.SubmittingAfterConcat | src/components/opportunity-submission-form.tsx:78-109 | the flag after two event runs is the flag after the second run, started from the flag after the first |
| FormFlow.Form.constructor | src/components/opportunity-submission-form.tsx:34-69 | a new form holds its defaults, no errors, no submission in progress and an empty log |
| FormFlow.Form.Run | src/components/opportunity-submission-form.tsx:73-110 | the log grows by exactly the handler trace. The flag ends off when a database is present. Values go back to the defaults, and the errors are cleared, only after a successful write. Otherwise both are left alone |
| OpportunitySubmission.Validate | src/components/opportunity-submission-form.tsx:42-53 | a submission is accepted exactly when all ten field rules hold, and then its values are passed on unchanged; otherwise the error set is exactly the failing fields and is non-empty |
| OpportunitySubmission.FirstFailing | src/components/opportunity-submission-form.tsx:42-53 | a rejected submission has a field whose rule fails |
| OpportunitySubmission.ValidateAcceptsExactlyTheSchema | src/components/opportunity-submission-form.tsx:42-53 | acceptance iff: title ≥ 5, company ≥ 2, location ≥ 2, description ≥ 20 and requirements ≥ 10 UTF-16 units; a category chosen and non-empty; a closing date chosen; the apply link a URL; the custom image empty, absent or a URL; the email valid |
| OpportunitySubmission.AllFieldsListed | src/components/opportunity-submission-form.tsx:42-53 | the field list names all ten fields |
| OpportunitySubmission.RejectionNamesFailingFields | src/components/opportunity-submission-form.tsx:42-53 | a field is in the error set exactly when its own rule fails, and any failing field causes a rejection |
| OpportunitySubmission.EmptyFormRejected | src/components/opportunity-submission-form.tsx:59-69 | the default (empty) form is rejected, and the rejection names title, company, category, location, closing date, description and requirements |
| OpportunitySubmission.SeededImageUrl | src/components/opportunity-submission-form.tsx:81 | the placeholder is `https://picsum.photos/seed/` + the decimal timestamp + `/800/600`. The seed reads back as the timestamp and has no leading zero, or is `0` |
| OpportunitySubmission.ChooseImageUrl | src/components/opportunity-submission-form.tsx:81 | the picture is never empty: a non-empty custom URL wins, else the category's stock picture, else the seeded placeholder |
| OpportunitySubmission.ListedCategoriesHaveImages | src/components/opportunity-submission-form.tsx:24-40 | every selectable category has a stock picture. Without a custom URL (absent or empty) that picture is used, never the placeholder |
| OpportunitySubmission.CategoryListsAgree | src/components/opportunity-submission-form.tsx:24-40 | the picture table and the selectable list name the same categories, those of the category union, in the same order |
| OpportunitySubmission.KeptLines | src/components/opportunity-submission-form.tsx:82 | filtering never yields more lines than it is given |
| OpportunitySubmission.KeptLinesAreKept | src/components/opportunity-submission-form.tsx:82 | every kept line trims to something non-empty |
| OpportunitySubmission.KeptLinesSubsequence | src/components/opportunity-submission-form.tsx:82 | the kept lines are a subsequence of the input lines, in their original order |
| OpportunitySubmission.KeptLinesCount | src/components/opportunity-submission-form.tsx:82 | each non-blank line is kept as many times as it occurs; blank lines are never kept |
| OpportunitySubmission.SubsequenceSkip | src/components/opportunity-submission-form.tsx:82 | a subsequence of a tail is a subsequence of the whole |
| OpportunitySubmission.SubsequenceTail | src/components/opportunity-submission-form.tsx:82 | dropping the first element of a subsequence leaves a subsequence |
| OpportunitySubmission.SubsequenceMember | src/components/opportunity-submission-form.tsx:82 | every element of a subsequence occurs in the sequence |
| OpportunitySubmission.Requirements | src/components/opportunity-submission-form.tsx:82 | every stored requirement is a non-blank line of the text, and they keep the text's order. There are at most one more than the line breaks, and none holds a line break. That no non-blank line is dropped is OpportunitySubmission.RequirementsCount |
| OpportunitySubmission.RequirementsCount | src/components/opportunity-submission-form.tsx:82 | each non-blank line occurs in the stored list as often as in the text; blank lines never do |
| OpportunitySubmission.BlankSplit | src/components/opportunity-submission-form.tsx:82 | every line of an all-whitespace text is blank |
| OpportunitySubmission.NoKeptLines | src/components/opportunity-submission-form.tsx:82 | nothing is kept from lines that are all blank |
| OpportunitySubmission.RequirementsMayBeEmpty | src/components/opportunity-submission-form.tsx:82 | an all-whitespace requirements text is stored as an empty list |
| OpportunitySubmission.TenLineBreaksPassTheLengthRule | src/components/opportunity-submission-form.tsx:51 | ten line breaks meet the 10-unit rule, yet the stored requirements list is empty |
| OpportunitySubmission.BuildDocument | src/components/opportunity-submission-form.tsx:81-97 | the document copies the form fields and holds the filtered requirements and the chosen, never-empty picture. Its status is always `pending`, stored as the string `pending` |
| OpportunitySubmission.OnSubmit | src/components/opportunity-submission-form.tsx:73-110 | the handler logs the trace for the `opportunities` write of the built document, with the form's toasts and fallback message. The flag ends off when a database is present. Values and errors are reset only on success |
| OpportunitySubmission.HandleSubmit | src/components/opportunity-submission-form.tsx:113 | invalid values record exactly the failing fields and run nothing; valid values clear the errors and run the handler on the validated submission |
| ContactForm.AllFieldsListed | src/components/contact-form.tsx:26-31 | the field list names all four fields |
| ContactForm.Validate | src/components/contact-form.tsx:26-31 | a message is accepted exactly when name ≥ 2, email valid, subject ≥ 5 and message ≥ 10 UTF-16 units, and then it is passed on unchanged; a rejection names at least one field |
| ContactForm.RejectionNamesFailingFields | src/components/contact-form.tsx:26-31 | a field is in the error set exactly when its rule fails, and any failing field causes a rejection |
| ContactForm.DefaultsRejected | src/components/contact-form.tsx:36-43 | the empty default form is rejected, naming name, subject and message |
| ContactForm.MessageDocument | src/components/contact-form.tsx:55-59 | the stored message carries the form data unchanged plus a server timestamp |
| ContactForm.MessageDocumentInjective | src/components/contact-form.tsx:55-59 | different form data never produce the same stored message |
| ContactForm.OnSubmit | src/components/contact-form.tsx:47-67 | the handler logs the trace for the `contact_messages` write, and the failure toast shows the error message as is. The flag ends off when a database is present. Values and errors are reset only on success |
| ContactForm.HandleSubmit | src/components/contact-form.tsx:71 | invalid values record exactly the failing fields and run nothing; valid values clear the errors and run the handler |
| SubscriptionForm.Validate | src/components/subscription-form.tsx:25-27 | an address is accepted exactly when it is a valid email, and then it is passed on unchanged; otherwise the error names the email field |
| SubscriptionForm.SubscriptionDocument | src/components/subscription-form.tsx:48-52 | the stored subscription carries the email unchanged plus a server timestamp |
| SubscriptionForm.SubscriptionDocumentInjective | src/components/subscription-form.tsx:48-52 | different addresses never produce the same stored subscription |
| SubscriptionForm.FailureDescriptionNonEmpty | src/components/subscription-form.tsx:60-64 | the failure toast never has an empty description: an empty error message falls back to "An unexpected error occurred." |
| SubscriptionForm.OnSubmit | src/components/subscription-form.tsx:36-68 | the handler logs the trace for the `user_subscriptions` write. The flag ends off when a database is present. Values and errors are reset only on success |
| SubscriptionForm.HandleSubmit | src/components/subscription-form.tsx:72 | an invalid address records only the email error and runs nothing; a valid one clears the errors and runs the handler |
| OpportunityCard.CategoryColor | src/components/opportunity-card.tsx:27-44 | the badge is gray exactly when the category is not one of the six names |
| OpportunityCard.CategoryColorsDistinct | src/components/opportunity-card.tsx:27-44 | two categories get the same badge colour exactly when they are the same category |
| OpportunityCard.CategoryTranslations | src/components/opportunity-card.tsx:46-53 | the translation table is keyed only by category names |
| OpportunityCard.TranslatedCategory | src/components/opportunity-card.tsx:54 | the label is empty exactly when the stored category is empty |
| OpportunityCard.TranslatedListedCategory | src/components/opportunity-card.tsx:46-54 | a known category shows its translation, or its raw name when the translation is empty |
| OpportunityCard.TranslatedOtherString | src/components/opportunity-card.tsx:54 | an unknown category string is shown as it is |
| OpportunityCard.DateLocaleFor | src/components/opportunity-card.tsx:58 | dates use the French date locale exactly when the page locale is `fr` |
| OpportunityCard.FromUnixTime | src/components/opportunity-card.tsx:61 | a seconds timestamp becomes the instant at exactly that many whole seconds |
| OpportunityCard.ClosingDateText | src/components/opportunity-card.tsx:56-64 | a string date is parsed then formatted as `d MMMM yyyy`; a record with numeric seconds is converted then formatted; anything else shows `N/A` |
| OpportunityCard.ClosingDateTextByMoment | src/components/opportunity-card.tsx:56-64 | two stored dates naming the same instant display identically, whichever form they are stored in |
| OpportunityCard.DetailsHref | src/components/opportunity-card.tsx:101 | the details link starts with `/opportunities/` and continues with exactly the id |
| OpportunityCard.DetailsHrefFillsTableKey | src/components/opportunity-card.tsx:101 | the details link is the `/opportunities/[id]` route filled with the id. The id `submit` collides with the submit route's key |
| OpportunityCard.Card | src/components/opportunity-card.tsx:68-107 | the picture is shown exactly when the image URL is non-empty. Title, company and location are copied. The badge, label, closing text and details link follow the rules above |
| OpportunityDetails.CategoryColor | src/components/opportunity-details.tsx:37-54 | the details view's badge is gray exactly when the category is not one of the six names |
| OpportunityDetails.TranslatedCategory | src/components/opportunity-details.tsx:27-35 | the details view's label is empty exactly when the stored category is empty |
| OpportunityDetails.ClosingDateText | src/components/opportunity-details.tsx:56-64 | a string date is parsed then formatted as `d MMMM yyyy` in the page's date locale; a record with numeric seconds is converted then formatted; anything else shows `N/A` |
| OpportunityDetails.CategoryColorAgrees | src/components/opportunity-details.tsx:37-54 | the details view's colour switch gives the same badge as the card's |
| OpportunityDetails.TranslatedCategoryAgrees | src/components/opportunity-details.tsx:27-35 | the details view's category label is the card's |
| OpportunityDetails.ClosingDateTextAgrees | src/components/opportunity-details.tsx:56-64 | the details view's closing date text is the card's |
| OpportunityDetails.ListedRequirements | src/components/opportunity-details.tsx:149-151 | a non-array field lists nothing; an array lists one item per requirement, keyed by its index, in order |
| OpportunityDetails.ListedRequirementTexts | src/components/opportunity-details.tsx:149-151 | the listed texts are the stored requirements, or none when the field is not an array |
| OpportunityDetails.ItemTextsOf | src/components/opportunity-details.tsx:149-151 | items whose texts match a list position by position list exactly that list |
| OpportunityDetails.ShareVerb | src/components/opportunity-details.tsx:72-73 | the category's own non-empty verb, else the `Autres` verb, else the text `undefined` |
| OpportunityDetails.MissingVerbIsAutresVerb | src/components/opportunity-details.tsx:73 | a category without a verb shares like `Autres` |
| OpportunityDetails.ShareText | src/components/opportunity-details.tsx:75-78 | the text is these lines joined by line breaks: the discover line, a blank line, `company verb title`, a blank line, the details line and the URL |
| OpportunityDetails.JoinSixLines | src/components/opportunity-details.tsx:78 | the template's `\n\n…\n\n…\n` spelling equals joining the six lines with line breaks |
| OpportunityDetails.JoinCons | src/components/opportunity-details.tsx:78 | joining a head before a non-empty rest puts one line break between them |
| OpportunityDetails.ShareTextLines | src/components/opportunity-details.tsx:75-78 | the text ends with the URL. When no part holds a line break, splitting it on line breaks gives back exactly the six lines |
| OpportunityDetails.Share | src/components/opportunity-details.tsx:66-84 | the title is `ORIVIO Hub: ` + the opportunity title. The URL is the page URL. The text ends with that URL and is built from the translated category, the company, the verb and the title |
| OpportunityDetails.Details | src/components/opportunity-details.tsx:109-175 | badge, label, closing date text and title agree with the card. Requirements are listed only from an array, one item per stored requirement keyed by its index. Picture, company, location, apply link and description are copied |

## Left out

- The database is not modelled. Whether one is present and what the write returns are parameters (`db`, `WriteOutcome`). `Failed` stands for any error the awaited write call throws into the handler's `catch`. The write helper's own code is not part of this model, so whether a failed write reaches that `catch` or is reported elsewhere cannot be decided from it.
- `serverTimestamp()` is a marker value, and `Date.now()` is the `now` parameter. The `createdAt` field of a stored opportunity is therefore not modelled.
- The email and URL checks of the schema library are the parameters `isEmail` and `isUrl`. The schema library's validation messages are not modelled. Only which fields fail is.
- The closing-date picker's ban on past dates belongs to the calendar widget, not the schema, so it is not modelled.
- OpportunityCard.ClosingDateText: does not model an Invalid Date. In the source, a string that does not parse gives an Invalid Date, and so does a non-finite `seconds`; date-fns `format` then throws a `RangeError`. In the model, a date is a whole number of milliseconds and `parse` and `format` are total, so that error path is missing. `seconds` is a whole number, so fractional seconds are dropped. The same holds for OpportunityDetails.ClosingDateText.
- date-fns is not modelled: parsing a date string and formatting an instant are the parameters `parse` and `format`. The model keeps the pattern `d MMMM yyyy` and the French/default locale choice.
- The translation runtime is not modelled. Message lookups are functions or maps passed in, and the `verbs` object is a map. Record lookups see own keys only, not inherited prototype keys.
- Locale-aware link resolution is not modelled beyond the table itself. The `always` prefix mode is recorded as a constant.
- A caught error without a `message` is modelled as the empty message.
- FormFlow.Form.Run: each intermediate state of `isSubmitting` (on during the write) appears only as an event in the log. The method sets the final field values, and React's re-rendering is not modelled.
- Console logging is left out because it has no effect on the model.
- Sharing through the browser's share sheet or clipboard, and the toasts that follow, are not modelled. The model keeps the data handed to them.
- Rendering is left out: JSX layout, icons, animations, toast display, the language switcher, and the header and footer markup beyond their link lists.
- The site's build configuration is not part of this model.
- JsString.JsLength counts UTF-16 code units per character. Strings are sequences of Unicode scalar values, so lone surrogates cannot occur.
