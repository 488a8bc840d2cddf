# CORCON 2025 microsite — a Dafny model

The CORCON 2025 microsite is a product showcase for Asian Paints PPG. It has:

- a static catalogue of six coating products;
- two lead-capture forms: a consultation or quote request from a visitor, and a one-to-five-star feedback form;
- browser-side persistence of both kinds of submission in IndexedDB, through Dexie;
- two serverless handlers, with an Express server that mirrors them, which turn a submission into a notification e-mail;
- a password-gated admin page that lists, searches, deletes, clears and exports the stored submissions as CSV.

This project models that logic in Dafny and proves properties of the model. The browser, the IndexedDB engine, the e-mail service and the clock are replaced by parameters.

Module layout (one module per source file, plus shared helpers):

| module | models |
|---|---|
| `Wrappers` | the `Option` type |
| `Strings` | the JavaScript string operations used: `\s`, `trim`, ASCII `toLowerCase`, `includes`, `join`, `split`, `String(n)`, string `<` |
| `Csv` | `exportToCSV` of `src/lib/db.ts`: header from the first row's keys, RFC 4180-style quoting of commas and quotes |
| `SubmissionStore` | the Dexie database of `src/lib/db.ts`: two auto-increment tables, newest-first listing |
| `FormSchemas` | the zod schemas of `src/schemas/forms.ts` |
| `StarRating` | the "star `k` is lit when `k <= level`" rule shared by the feedback form and the admin cards |
| `FeedbackFormModel` | `src/components/FeedbackForm.tsx` |
| `VisitorFormModel` | `src/components/VisitorForm.tsx` |
| `AdminPageModel` | `src/pages/AdminPage.tsx` |
| `Api` | the request and response shapes, guards and HTML templates shared by the handlers |
| `SubmitFeedback` | `api/submit-feedback.ts` |
| `SubmitVisitor` | `api/submit-visitor.ts` |
| `ExpressServer` | the API routes of `server.js` |
| `Products` | the catalogue of `src/data/products.ts` |
| `ProductText` | the numbered feature text and whitespace-to-separator file names shared by the product views |
| `ProductDetailPage` | `src/pages/ProductDetailPage.tsx` |
| `ProductDetailModal` | `src/components/ProductDetailModal.tsx` |

How the model represents the source:

- **Components.** Each stateful component (feedback form, visitor form, admin page) is a Dafny `class`. Its React state becomes the class's fields and each event handler becomes a method.
- **Database.** The Dexie database is a `class Database` with two `Table` objects. A table's rows are a `map` from id to entry. Its auto-increment counter starts at 1 and is never reset by a delete or a clear, the same as an IndexedDB key generator.
- **Listing order.** `getAll...` lists entries by `created_at` descending. Entries with equal timestamps come in descending id order, which is the reverse of the IndexedDB index order.
- **Failures.** Whether a Dexie call succeeds is the boolean parameter `ok`. The current time is the string parameter `now`.
- **Handlers.** A handler is a function from the HTTP verb, the request body, the clock text and the outcome of the e-mail call (a parameter) to the response and the e-mail that would be sent.
- **JavaScript semantics.** Truthiness (`!x`) and the text `undefined` that a missing value prints as inside a template literal are both written out.

## Model

| member | source | states |
|---|---|---|
| `Strings.Trim` | src/components/VisitorForm.tsx:44-49 | `trim()` is empty exactly when the text is all whitespace, and otherwise starts and ends with a non-whitespace character |
| `Strings.TrimStart` | src/components/VisitorForm.tsx:44 | the result is a suffix of the text, only whitespace was removed, and it does not start with whitespace |
| `Strings.TrimEnd` | src/components/VisitorForm.tsx:44 | the result is a prefix of the text, only whitespace was removed, and it does not end with whitespace |
| `Strings.TrimEmpty` | src/components/VisitorForm.tsx:44 | trimming both ends leaves nothing exactly when every character of the text is whitespace |
| `Strings.TrimNotEmpty` | src/components/VisitorForm.tsx:44 | a non-empty trimmed text starts and ends with a non-whitespace character |
| `Strings.Lower` | src/pages/AdminPage.tsx:117-119 | lower-casing keeps the length and maps every character through ASCII lower-casing |
| `Strings.BeforeFirst` | src/pages/AdminPage.tsx:109 | `split('T')[0]` is the prefix of the text before the first `T`, or the whole text when it has none |
| `Strings.SplitJoin` | src/pages/ProductDetailPage.tsx:31 | `split` undoes `join` when no piece contains the separator |
| `Strings.NatToString` | api/submit-feedback.ts:38 | `String(n)` is a non-empty string of digits with no leading zero |
| `Strings.NatToStringRoundTrip` | api/submit-feedback.ts:38 | reading back the digits of `String(n)` gives `n` |
| `Strings.StrLessIrreflexive` | src/lib/db.ts:56-59 | the string order used to sort by `created_at` is irreflexive |
| `Strings.StrLessTransitive` | src/lib/db.ts:56-59 | the string order is transitive |
| `Strings.StrLessTotal` | src/lib/db.ts:56-59 | any two different strings are ordered one way or the other |
| `Csv.EscapeField` | src/lib/db.ts:146-151 | a definition: a string holding a comma or a quote is quoted with its quotes doubled, anything else is its own text; `Csv.UnquoteEscapeField`, `Csv.PlainFieldIsText` and `Csv.ParseEscapedField` state what it guarantees |
| `Csv.EncodeRow` | src/lib/db.ts:144-152 | a definition: the escaped cells under each header, joined by commas; `Csv.EncodeRowRoundTrip` states that a CSV reader recovers every cell |
| `Csv.Document` | src/lib/db.ts:141-154 | a definition: the header line and one line per row, joined by line breaks; `Csv.DocumentLines` states its line structure |
| `Csv.CellsOwnKeys` | src/lib/db.ts:144-146 | looking a row's own keys up in it gives back its values in order, when no key repeats |
| `Csv.OwnKeysRoundTrip` | src/lib/db.ts:141-152 | a row written under its own keys reads back as the text of each of its values |
| `Csv.Lookup` | src/lib/db.ts:145 | a missing key gives `undefined`; otherwise the value under the first occurrence of the key |
| `Csv.DoubleQuotes` | src/lib/db.ts:148 | doubling quotes introduces no character other than `"` |
| `Csv.Fields` | src/lib/db.ts:143-152 | every row has one cell per header |
| `Csv.RowLines` | src/lib/db.ts:142-153 | one CSV line per stored row |
| `Csv.ExportToCsv` | src/lib/db.ts:135-154 | an empty list produces no download; otherwise the download has the given file name and the header line followed by one line per row |
| `Csv.UndoubleDoubleQuotes` | src/lib/db.ts:148 | undoubling the quotes recovers the original text |
| `Csv.PlainFieldIsText` | src/lib/db.ts:146-151 | a value without a comma or a quote is written unquoted, as its own text |
| `Csv.UnquoteEscapeField` | src/lib/db.ts:146-151 | stripping the surrounding quotes and undoubling recovers the value's text, for every value |
| `Csv.ParseQuotedDoubled` | src/lib/db.ts:148 | a CSV reader recovers a quoted field's text and stops at its closing quote |
| `Csv.ParseUnquotedPlain` | src/lib/db.ts:150 | a CSV reader reads an unquoted field up to the next comma |
| `Csv.ParseEscapedField` | src/lib/db.ts:146-151 | reading an escaped field back gives the value's text and leaves the rest of the line |
| `Csv.ParseQuotedField` | src/lib/db.ts:148-150 | a quoted field with doubled quotes reads back as the original text, leaving the rest of the line |
| `Csv.ParsePlainField` | src/lib/db.ts:152 | a field written without quotes reads back as the value's text, leaving the rest of the line |
| `Csv.ParseJoinedFields` | src/lib/db.ts:143-152 | reading a comma-joined list of escaped fields gives back every field's text |
| `Csv.ParseRecordCons` | src/lib/db.ts:143-152 | one escaped field, a comma and a record read as that field's text followed by the record's fields |
| `Csv.EscapedAll` | src/lib/db.ts:146-151 | one escaped field per value, in order |
| `Csv.TextAll` | src/lib/db.ts:146-151 | the text of each value, in order |
| `Csv.EncodeRowRoundTrip` | src/lib/db.ts:143-152 | a CSV reader recovers every cell of an exported row, including cells holding commas and quotes |
| `Csv.DoubleQuotesKeeps` | src/lib/db.ts:148 | quote doubling adds no other character, so it adds no line break |
| `Csv.NoBreakInField` | src/lib/db.ts:146-151 | escaping adds no line break |
| `Csv.DocumentLines` | src/lib/db.ts:141-153 | when no value holds a line break, the document splits into exactly one header line and one line per row |
| `Csv.NoBreakInRow` | src/lib/db.ts:143-152 | a row whose values hold no line break is written on a line without one |
| `Csv.LineBreakSplitsRecord` | src/lib/db.ts:146-151 | a value with a line break is not quoted, so it spreads one record over two lines |
| `SubmissionStore.ListedOnce` | src/lib/db.ts:54-65 | a newest-first listing of a table holds every row exactly once |
| `SubmissionStore.IdsMembers` | src/lib/db.ts:54-65 | the ids of a listing are exactly the ids of its entries |
| `SubmissionStore.IdsCardinality` | src/lib/db.ts:54-65 | a listing with distinct ids has as many ids as entries |
| `SubmissionStore.NewerTransitive` | src/lib/db.ts:56-58 | the "newer than" order (`created_at` descending, then id descending) is transitive |
| `SubmissionStore.NewerTotal` | src/lib/db.ts:56-58 | any two entries with different ids are ordered |
| `SubmissionStore.Insert` | src/lib/db.ts:56-59 | inserting into a newest-first list keeps it newest-first and adds exactly that entry |
| `SubmissionStore.Table.constructor` | src/lib/db.ts:30-33 | a new table is empty and its key generator starts at 1 |
| `SubmissionStore.Table.Add` | src/lib/db.ts:41-52 | on success, the row is stored under the next unused id, which is returned, and the counter advances; on failure nothing changes |
| `SubmissionStore.Table.GetAll` | src/lib/db.ts:54-65 | on success, every row exactly once, newest first; on failure the empty list |
| `SubmissionStore.CollectStep` | src/lib/db.ts:54-65 | inserting the record under the next key keeps the list newest first and extends it to exactly the records below the following key |
| `SubmissionStore.Table.Delete` | src/lib/db.ts:67-75 | on success the row with that id is gone and nothing else changes; the counter is kept |
| `SubmissionStore.Table.Clear` | src/lib/db.ts:77-85 | on success the table is empty; the counter is kept, so ids are never reused |
| `SubmissionStore.Database.constructor` | src/lib/db.ts:23-38 | the database starts with two fresh, empty tables |
| `SubmissionStore.Database.SaveVisitorSubmission` | src/lib/db.ts:41-52 | on success, adds the visitor row under the next id with the given timestamp, returns that id and advances the counter; on failure the table and its counter are unchanged; the feedback table is untouched |
| `SubmissionStore.Database.GetAllVisitorSubmissions` | src/lib/db.ts:54-65 | every visitor row exactly once, newest first, or `[]` on failure |
| `SubmissionStore.Database.DeleteVisitorSubmission` | src/lib/db.ts:67-75 | removes that visitor row on success and nothing on failure; the counter is kept and the feedback table is untouched |
| `SubmissionStore.Database.ClearAllVisitorSubmissions` | src/lib/db.ts:77-85 | empties the visitor table on success and nothing on failure; the counter is kept, so ids are not reused; the feedback table is untouched |
| `SubmissionStore.Database.SaveFeedbackSubmission` | src/lib/db.ts:88-99 | on success, adds the feedback row under the next id, returns that id and advances the counter; on failure the table and its counter are unchanged; the visitor table is untouched |
| `SubmissionStore.Database.GetAllFeedbackSubmissions` | src/lib/db.ts:101-112 | every feedback row exactly once, newest first, or `[]` on failure |
| `SubmissionStore.Database.DeleteFeedbackSubmission` | src/lib/db.ts:114-122 | removes that feedback row on success and nothing on failure; the counter is kept and the visitor table is untouched |
| `SubmissionStore.Database.ClearAllFeedbackSubmissions` | src/lib/db.ts:124-132 | empties the feedback table on success and nothing on failure; the counter is kept; the visitor table is untouched |
| `SubmissionStore.VisitorRow` | src/lib/db.ts:43-46 | a definition: the stored visitor object, its fields in the order the saved object spreads them, then `created_at` and the generated `id`; `SubmissionStore.VisitorRowKeys` and `SubmissionStore.VisitorRowRead` state what the export makes of it |
| `SubmissionStore.FeedbackRow` | src/lib/db.ts:90-93 | a definition: the stored feedback object, `comments` kept as a key even when its value is `undefined`; `SubmissionStore.FeedbackRowKeys` and `SubmissionStore.FeedbackRowRead` state what the export makes of it |
| `SubmissionStore.VisitorRowKeys` | src/lib/db.ts:141 | the keys of every stored visitor, so the export's header, are `name,email,company,phone,designation,context,created_at,id`, none repeated |
| `SubmissionStore.FeedbackRowKeys` | src/lib/db.ts:141 | the keys of every stored feedback record are `rating,comments,created_at,id`, none repeated |
| `SubmissionStore.VisitorRowRead` | src/lib/db.ts:141-152 | the line written for a visitor reads back as its fields, the context word, the timestamp and the decimal id |
| `SubmissionStore.FeedbackRowRead` | src/lib/db.ts:141-152 | the line written for a feedback record reads back as its rating, its comments (an empty field when there were none), its timestamp and its id |
| `FormSchemas.StringIssues` | src/schemas/forms.ts:4-11 | a string field reports no issue exactly when every check passes, and at most one issue per check |
| `FormSchemas.NameRule` | src/schemas/forms.ts:5 | a name is accepted iff it has 2 to 100 characters; a shorter or longer one gets exactly its own message |
| `FormSchemas.EmailRule` | src/schemas/forms.ts:6 | an e-mail is accepted exactly when the e-mail check accepts it |
| `FormSchemas.CompanyRule` | src/schemas/forms.ts:7 | a company is accepted iff it has 2 to 200 characters |
| `FormSchemas.PhoneRule` | src/schemas/forms.ts:8 | a phone is accepted iff it has 10 to 20 characters, each a digit, `+`, `-`, whitespace or a parenthesis |
| `FormSchemas.DesignationRule` | src/schemas/forms.ts:9 | a designation is accepted iff it is absent or has at most 100 characters |
| `FormSchemas.ContextRule` | src/schemas/forms.ts:10 | the context is accepted iff it is `consultation` or `quote` |
| `FormSchemas.VisitorSchemaRule` | src/schemas/forms.ts:4-11 | the visitor schema accepts an object exactly when every field rule above holds |
| `FormSchemas.FeedbackSchemaRule` | src/schemas/forms.ts:16-19 | the feedback schema accepts exactly a rating in {1,2,3,4,5} and comments that are absent or at most 1000 characters |
| `FormSchemas.UnselectedRatingRefused` | src/schemas/forms.ts:17 | a rating of 0 is refused with "Please select a rating" alone |
| `StarRating.LitCountClamped` | src/pages/AdminPage.tsx:343-347 | the number of lit stars out of `n` is the level clamped to `0..n` |
| `StarRating.LitCountExact` | src/components/FeedbackForm.tsx:81-84 | for a level in `0..n`, exactly `level` stars are lit |
| `StarRating.LitPrefix` | src/components/FeedbackForm.tsx:81-84 | the lit stars form a prefix: if a star is lit, every lower star is lit |
| `FeedbackFormModel.ShownLevel` | src/components/FeedbackForm.tsx:82-83 | a definition: `hoveredRating \|\| rating`; `FeedbackFormModel.FilledStarCount` states how many stars it fills |
| `FeedbackFormModel.StarFilled` | src/components/FeedbackForm.tsx:82-83 | a definition: `star <= (hoveredRating \|\| rating)`; `FeedbackFormModel.StarFillRule` states which stars it fills |
| `FeedbackFormModel.StarFillRule` | src/components/FeedbackForm.tsx:81-84 | while a star is hovered, stars up to the hovered one are filled; otherwise stars up to the rating |
| `FeedbackFormModel.FilledStarCount` | src/components/FeedbackForm.tsx:71-84 | exactly `hoveredRating` stars are filled while hovering, else exactly `rating` |
| `FeedbackFormModel.RatingLabel` | src/components/FeedbackForm.tsx:88-95 | no caption for a rating of 0 or less; a non-empty caption exactly for 1 to 5 |
| `FeedbackFormModel.RatingLabelsDistinct` | src/components/FeedbackForm.tsx:90-94 | the five captions are pairwise different |
| `FeedbackFormModel.SavedComments` | src/components/FeedbackForm.tsx:26 | `comments \|\| undefined` is absent exactly for an empty text and otherwise the text itself |
| `FeedbackFormModel.FeedbackForm.constructor` | src/components/FeedbackForm.tsx:15-18 | the form starts with no rating, no hover, no comments and not submitted |
| `FeedbackFormModel.FeedbackForm.ClickStar` | src/components/FeedbackForm.tsx:75 | clicking star `k` sets the rating to `k` and nothing else |
| `FeedbackFormModel.FeedbackForm.EnterStar` | src/components/FeedbackForm.tsx:76 | hovering star `k` sets the hover to `k` and nothing else |
| `FeedbackFormModel.FeedbackForm.LeaveStar` | src/components/FeedbackForm.tsx:77 | leaving a star clears the hover and nothing else |
| `FeedbackFormModel.FeedbackForm.EditComments` | src/components/FeedbackForm.tsx:104 | typing replaces the comments and nothing else |
| `FeedbackFormModel.FeedbackForm.SubmitDisabled` | src/components/FeedbackForm.tsx:112 | a definition: `rating === 0`; `FeedbackFormModel.FeedbackForm.SubmitEnabledRule` states what it allows |
| `FeedbackFormModel.FeedbackForm.SubmitEnabledRule` | src/components/FeedbackForm.tsx:112 | in a consistent form the submit button is enabled exactly when a rating of 1 to 5 is chosen |
| `FeedbackFormModel.FeedbackForm.HandleSubmit` | src/components/FeedbackForm.tsx:20-42 | stores the rating and the comments (absent when empty) under the next feedback id, which then advances by one; a successful save is what marks the form submitted; a failed save changes nothing, the id counter included; the visitor table is untouched |
| `FeedbackFormModel.FeedbackForm.HandleClose` | src/components/FeedbackForm.tsx:44-49 | closing resets the rating, the comments and the submitted flag |
| `VisitorFormModel.FormData.With` | src/components/VisitorForm.tsx:36 | setting one field changes that field and no other |
| `VisitorFormModel.EmailPatternShape` | src/components/VisitorForm.tsx:46 | `/\S+@\S+\.\S+/` matches a text exactly when it contains an `@` and, after it, a `.`, with a non-whitespace character before the `@`, between the `@` and the `.`, and after the `.` |
| `VisitorFormModel.EmailPatternUnanchored` | src/components/VisitorForm.tsx:46 | the unanchored pattern accepts text that merely contains an address ("write to a@b.c today") |
| `VisitorFormModel.EmailPatternNeedsDot` | src/components/VisitorForm.tsx:46 | `a@b` is not accepted |
| `VisitorFormModel.Validate` | src/components/VisitorForm.tsx:42-50 | a field gets an error exactly when its rule fails, and the error is that rule's message |
| `VisitorFormModel.ErrorsOf` | src/components/VisitorForm.tsx:42-50 | the errors object has a key exactly for each field whose check reports a message, holding that message |
| `VisitorFormModel.DesignationNeverChecked` | src/components/VisitorForm.tsx:42-50 | designation never gets an error |
| `VisitorFormModel.EmailErrorRule` | src/components/VisitorForm.tsx:45-46 | "Email is required" exactly for a blank e-mail; "Invalid email" exactly for a non-blank one the pattern refuses |
| `VisitorFormModel.ValidateAccepts` | src/components/VisitorForm.tsx:42-50 | no errors exactly when name, company and phone are non-blank and the e-mail matches the pattern |
| `VisitorFormModel.VisitorForm.constructor` | src/components/VisitorForm.tsx:23-32 | the form starts empty, without errors, not submitted, with its context |
| `VisitorFormModel.VisitorForm.HandleChange` | src/components/VisitorForm.tsx:34-40 | the edited field takes the value; its error is blanked only when it was set and non-empty |
| `VisitorFormModel.VisitorForm.HandleSubmit` | src/components/VisitorForm.tsx:52-78 | with errors: show them and save nothing; otherwise store the form with its context under the next visitor id, which then advances by one, marking the form submitted only when the save succeeds; a failed save or a refused form keeps the id counter |
| `VisitorFormModel.VisitorForm.HandleClose` | src/components/VisitorForm.tsx:80-85 | closing empties the form and the errors and clears the submitted flag |
| `VisitorFormModel.SubmittedFieldsExported` | src/components/VisitorForm.tsx:61-64 | what the visitor typed is what the admin export shows: the line written for a saved submission reads back as the form's five fields, the context, the timestamp and the id |
| `VisitorFormModel.FieldError` | src/components/VisitorForm.tsx:44-48 | a definition: the message a field's check reports, if any; `VisitorFormModel.EmailErrorRule`, `VisitorFormModel.DesignationNeverChecked` and `VisitorFormModel.ValidateAccepts` state its rules |
| `AdminPageModel.LocalStorage.constructor` | src/pages/AdminPage.tsx:46 | the storage holds the given items |
| `AdminPageModel.MatchesSearch` | src/pages/AdminPage.tsx:117-119 | a definition: the lower-cased name, e-mail or company contains the lower-cased term; `AdminPageModel.EmptySearchKeepsAll` and `AdminPageModel.SearchIgnoresCase` state its properties |
| `AdminPageModel.FilterVisitors` | src/pages/AdminPage.tsx:116-120 | the filtered list keeps the original order and holds exactly the submissions whose name, e-mail or company contains the search term, ignoring case, each as many times as in the list |
| `AdminPageModel.EmptySearchKeepsAll` | src/pages/AdminPage.tsx:116-120 | an empty search keeps every submission |
| `AdminPageModel.SearchIgnoresCase` | src/pages/AdminPage.tsx:116-120 | searching for a term and for its lower-case form gives the same answer |
| `AdminPageModel.LowerIdempotent` | src/pages/AdminPage.tsx:117-119 | lower-casing twice is lower-casing once |
| `AdminPageModel.SubsequenceDropHead` | src/pages/AdminPage.tsx:116 | a subsequence of the tail is a subsequence of the list |
| `AdminPageModel.SubsequenceTail` | src/pages/AdminPage.tsx:116 | dropping the first element of a subsequence keeps it a subsequence |
| `AdminPageModel.ExportFilename` | src/pages/AdminPage.tsx:108-114 | the export name is the prefix, the part of the ISO timestamp before `T`, and `.csv` |
| `AdminPageModel.ExportFilenameDate` | src/pages/AdminPage.tsx:109 | for a timestamp `date T time` with no `T` in the date, the name is `prefix date .csv` |
| `AdminPageModel.VisitorExportLine` | src/pages/AdminPage.tsx:109 | the visitor export's header is `name,email,company,phone,designation,context,created_at,id`, and line `i` of its rows reads back as the fields of visitor `i` |
| `AdminPageModel.FeedbackExportLine` | src/pages/AdminPage.tsx:113 | the feedback export's header is `rating,comments,created_at,id`, and line `i` of its rows reads back as feedback `i`'s rating, comments (empty when none), timestamp and id |
| `AdminPageModel.CardStarsLit` | src/pages/AdminPage.tsx:343-347 | a feedback card shows as many lit stars as its rating, clamped to 0..5 |
| `AdminPageModel.AdminPage.Mount` | src/pages/AdminPage.tsx:44-51 | the page is authenticated exactly when the stored flag is `"true"`, and then loads both lists |
| `AdminPageModel.AdminPage.LoadData` | src/pages/AdminPage.tsx:53-60 | both lists are reloaded from the database (empty on a failed read); nothing else changes |
| `AdminPageModel.AdminPage.EditPassword` | src/pages/AdminPage.tsx:35 | typing replaces the password text and nothing else |
| `AdminPageModel.AdminPage.EditSearch` | src/pages/AdminPage.tsx:41 | typing replaces the search term and nothing else |
| `AdminPageModel.AdminPage.HandleLogin` | src/pages/AdminPage.tsx:62-72 | the correct password sets the stored flag, authenticates and loads both lists; any other password only clears the password field |
| `AdminPageModel.AdminPage.HandleLogout` | src/pages/AdminPage.tsx:74-78 | the stored flag is removed and the page is no longer authenticated |
| `AdminPageModel.AdminPage.HandleDeleteVisitor` | src/pages/AdminPage.tsx:80-85 | once confirmed, deletes that visitor row and reloads; unconfirmed, neither the visitor table nor the lists change; the id counter is kept and the feedback table is untouched |
| `AdminPageModel.AdminPage.HandleDeleteFeedback` | src/pages/AdminPage.tsx:87-92 | once confirmed, deletes that feedback row and reloads; unconfirmed, neither the feedback table nor the lists change; the id counter is kept and the visitor table is untouched |
| `AdminPageModel.AdminPage.HandleClearAllVisitors` | src/pages/AdminPage.tsx:94-99 | once confirmed, empties the visitor table and reloads; unconfirmed, neither the visitor table nor the lists change; the id counter is kept and the feedback table is untouched |
| `AdminPageModel.AdminPage.HandleClearAllFeedback` | src/pages/AdminPage.tsx:101-106 | once confirmed, empties the feedback table and reloads; unconfirmed, neither the feedback table nor the lists change; the id counter is kept and the visitor table is untouched |
| `AdminPageModel.AdminPage.FilteredVisitors` | src/pages/AdminPage.tsx:116-120 | the shown visitors are the loaded ones matching the search, in their order and with their multiplicity |
| `AdminPageModel.AdminPage.ExportVisitors` | src/pages/AdminPage.tsx:108-110 | exports ALL loaded visitors, not only the filtered ones, under `visitor-submissions-<date>.csv`; nothing when none are loaded |
| `AdminPageModel.AdminPage.ExportFeedback` | src/pages/AdminPage.tsx:112-114 | exports all loaded feedback under `feedback-submissions-<date>.csv`; nothing when none are loaded |
| `Api.InterpSame` | api/submit-visitor.ts:38-43 | interpolation (`Api.Interp`) keeps every value apart except one pair: a missing value prints exactly like the text `undefined` |
| `Api.RatingRejected` | api/submit-feedback.ts:27 | a definition: `!rating \|\| rating < 1 \|\| rating > 5`; `Api.RatingGuardRule` states which ratings pass |
| `Api.RatingGuardRule` | api/submit-feedback.ts:27-29 | the rating guard lets a request through exactly when the rating is present and within 1..5 |
| `Api.MissingRequired` | api/submit-visitor.ts:27 | a definition: one of name, e-mail, company and phone is falsy; `Api.RequiredFieldsOnly` and `SubmitVisitor.SendsOnlyCompleteRequests` state its effect |
| `Api.RequiredFieldsOnly` | api/submit-visitor.ts:27-29 | the required-field guard does not look at designation or context |
| `Api.OccurrencesRepeat` | api/submit-feedback.ts:38 | `'⭐'.repeat(n)` (`Api.Repeat`) holds exactly `n` stars |
| `Api.HtmlTemplate` | api/submit-feedback.ts:36-41 | a definition: the template lines, each on its own indented line; `Api.Indented` and `Api.TemplateOccurrences` state its properties |
| `Api.FeedbackEmail` | api/submit-feedback.ts:32-42 | a definition: the feedback e-mail; `Api.FeedbackEmailStars`, `Api.FeedbackCommentsShown` and `SubmitFeedback.FeedbackEmailContent` state its content |
| `Api.VisitorEmail` | api/submit-visitor.ts:32-46 | a definition: the visitor e-mail; `Api.VisitorKindRule`, `Api.DesignationLineRule` and `SubmitVisitor.VisitorEmailContent` state its content |
| `Api.Indented` | api/submit-feedback.ts:36-41 | every template line is indented the same way |
| `Api.OccurrencesConcat` | api/submit-feedback.ts:36-41 | counting a character is additive over concatenation |
| `Api.OccurrencesJoin` | api/submit-feedback.ts:36-41 | the count over a joined list is the sum over its items when the separator lacks the character |
| `Api.TemplateOccurrences` | api/submit-feedback.ts:36-41 | the HTML template adds no star of its own |
| `Api.RatingLineStars` | api/submit-feedback.ts:38 | the rating line holds exactly `rating` stars |
| `Api.FeedbackEmailStars` | api/submit-feedback.ts:36-41 | the whole feedback e-mail holds exactly `rating` stars when neither the comments nor the clock text holds a star |
| `Api.FeedbackCommentsShown` | api/submit-feedback.ts:39 | truthy comments are shown in a paragraph; otherwise "No comments provided" |
| `Api.VisitorKindRule` | api/submit-visitor.ts:35-37 | subject and heading say "New Quote" exactly when the context is `quote`, else "New Consultation" |
| `Api.SubjectKind` | api/submit-visitor.ts:35 | the subject (through `Api.RequestKind`) starts "New Quote" exactly when the context is `quote`, and "New Consultation" otherwise |
| `Api.HeadingKind` | api/submit-visitor.ts:37 | the heading starts "<h2>New Quote" exactly when the context is `quote` |
| `Api.DesignationLineRule` | api/submit-visitor.ts:42 | the designation line is present exactly when the designation is truthy |
| `SubmitFeedback.Handler` | api/submit-feedback.ts:10-56 | every response carries the three CORS headers |
| `SubmitFeedback.Preflight` | api/submit-feedback.ts:15-17 | `OPTIONS` gets an empty 200 and sends nothing |
| `SubmitFeedback.MethodNotAllowed` | api/submit-feedback.ts:19-21 | any verb other than `POST` and `OPTIONS` is answered 405 "Method not allowed" without sending |
| `SubmitFeedback.SendsOnlyValidRatings` | api/submit-feedback.ts:24-29 | an e-mail is sent exactly for a `POST` whose rating is in 1..5; a `POST` with any other rating gets 400 "Invalid rating" |
| `SubmitFeedback.SendAnswer` | api/submit-feedback.ts:44-55 | a valid `POST` answers (through `Api.SendResponse`) 200 exactly when the send succeeds and 500 exactly when it throws |
| `SubmitFeedback.FeedbackEmailContent` | api/submit-feedback.ts:32-42 | the e-mail goes to customer care with the feedback subject and holds exactly `rating` stars |
| `SubmitVisitor.Handler` | api/submit-visitor.ts:10-60 | every response carries the three CORS headers |
| `SubmitVisitor.MethodGate` | api/submit-visitor.ts:15-21 | `OPTIONS` gets an empty 200; other verbs except `POST` get 405, and nothing is sent |
| `SubmitVisitor.SendsOnlyCompleteRequests` | api/submit-visitor.ts:24-29 | an e-mail is sent exactly for a `POST` with truthy name, e-mail, company and phone; otherwise a `POST` gets 400 "Missing required fields" |
| `SubmitVisitor.SendAnswer` | api/submit-visitor.ts:48-59 | a complete `POST` answers 200 exactly when the send succeeds and 500 exactly when it throws |
| `SubmitVisitor.VisitorEmailContent` | api/submit-visitor.ts:32-46 | the e-mail goes to customer care; its subject names a quote exactly when the context is `quote`, and it has a designation line exactly when the designation is truthy |
| `ExpressServer.FeedbackRoute` | server.js:27-61 | the Express route sets no headers of its own |
| `ExpressServer.VisitorRoute` | server.js:64-102 | the Express route sets no headers of its own |
| `ExpressServer.HealthAnswers` | server.js:105-107 | the health route (`ExpressServer.HealthRoute`) answers 200 `ok` without headers at every moment, and two answers differ exactly when their timestamps do |
| `ExpressServer.FeedbackRoutesAgree` | server.js:27-61 | the Express feedback route answers as the serverless `POST` handler does, apart from headers and sender address; 400 exactly for a rejected rating |
| `ExpressServer.VisitorRoutesAgree` | server.js:64-102 | the Express visitor route answers as the serverless `POST` handler does, apart from headers and sender address; 400 exactly for a missing field |
| `ExpressServer.RoutesAnswer` | server.js:49-60 | past the guard, 200 exactly when the send succeeds and 500 exactly when it throws |
| `Products.FindById` | src/pages/ProductDetailPage.tsx:16 | a found product is the first catalogue product with that id; nothing is found exactly when no product has that id |
| `Products.FindIn` | src/pages/ProductDetailPage.tsx:16 | `find` on a list: a found item has the id and no earlier item has it; none exactly when no item has it |
| `Products.CatalogIds` | src/data/products.ts:19-139 | the catalogue has six products with ids 1 to 6 in order |
| `Products.IdsDistinct` | src/data/products.ts:19-139 | no two products share an id |
| `Products.FindByIdRule` | src/data/products.ts:19-139 | ids 1 to 6 find the product at that position; any other id finds nothing |
| `Products.FeatureCounts` | src/data/products.ts:19-139 | the products have 10, 12, 12, 12, 12 and 13 features |
| `Products.AtLeastTenFeatures` | src/data/products.ts:19-139 | every product has at least ten features, so the first three always exist |
| `Products.NamesDistinct` | src/data/products.ts:19-139 | no two products share a name |
| `ProductText.NumberedLineRead` | src/pages/ProductDetailPage.tsx:31 | line `i` of the numbered list (`ProductText.NumberedLines`) reads back as the number `i + 1` up to its first dot, then `. ` and feature `i` |
| `ProductText.DownloadText` | src/pages/ProductDetailPage.tsx:31 | a definition: name, blank line, numbered features, blank line, footer; `ProductText.DownloadTextLines` and `ProductText.SameBodyDifferentFooter` state its shape |
| `ProductText.NumberedLineNoBreak` | src/pages/ProductDetailPage.tsx:31 | a numbered line of a feature without a line break has no line break |
| `ProductText.DownloadTextLines` | src/pages/ProductDetailPage.tsx:31 | the download text splits into the name, a blank line, the numbered features, a blank line and the footer lines |
| `ProductText.SameBodyDifferentFooter` | src/components/ProductDetailModal.tsx:18 | the page's and the modal's download texts differ only after the feature list |
| `ProductText.Slug` | src/pages/ProductDetailPage.tsx:37 | a definition: `replace(/\s+/g, sep)`; the four lemmas below state its properties |
| `ProductText.SlugNoWhitespace` | src/pages/ProductDetailPage.tsx:37 | `replace(/\s+/g, sep)` leaves no whitespace when the separator is not whitespace |
| `ProductText.SlugIdentity` | src/pages/ProductDetailPage.tsx:37 | a name without whitespace is unchanged |
| `ProductText.SlugIdempotent` | src/pages/ProductDetailPage.tsx:37 | replacing twice is replacing once |
| `ProductText.SlugRun` | src/pages/ProductDetailPage.tsx:37 | a whole run of whitespace becomes one separator |
| `ProductText.WhitespaceRunTrimmed` | src/pages/ProductDetailPage.tsx:37 | skipping a whitespace run stops at the first non-whitespace character |
| `ProductDetailPage.ViewFor` | src/pages/ProductDetailPage.tsx:16-26 | the page shows the catalogue product with the route's id, and redirects to 404 exactly when there is none |
| `ProductDetailPage.ViewRule` | src/pages/ProductDetailPage.tsx:16-26 | ids 1 to 6 show the product at that position; every other id redirects |
| `ProductDetailPage.Filename` | src/pages/ProductDetailPage.tsx:37 | the download name is the name with whitespace runs replaced by `-`, plus `.txt`, and holds no whitespace |
| `ProductDetailPage.Take` | src/pages/ProductDetailPage.tsx:48 | `slice(0, n)` is a prefix of the list, of length `n` or the whole list when it is shorter |
| `ProductDetailPage.MetaDescription` | src/pages/ProductDetailPage.tsx:48 | a definition: the first three features joined by `. `; `ProductDetailPage.Descriptions` states its value |
| `ProductDetailPage.OgDescription` | src/pages/ProductDetailPage.tsx:50 | defined exactly when the product has a feature |
| `ProductDetailPage.Descriptions` | src/pages/ProductDetailPage.tsx:48-50 | for a product with three or more features, the meta description is its first three features joined by `. `, and the Open Graph description its first feature |
| `ProductDetailPage.DownloadLines` | src/pages/ProductDetailPage.tsx:31 | the downloaded text lays out a product with at least one feature as name, blank, numbered features, blank, footer |
| `ProductDetailModal.BadgesNumbered` | src/components/ProductDetailModal.tsx:13-72 | the dialog (`ProductDetailModal.Render`, which renders nothing without a product) shows as many badges as its feature count, numbered 1, 2, ... and carrying the features in order |
| `ProductDetailModal.Filename` | src/components/ProductDetailModal.tsx:23 | the download name is the name with whitespace runs replaced by `_`, plus `.txt` |
| `ProductDetailModal.DownloadLines` | src/components/ProductDetailModal.tsx:18 | the modal's download text splits into name, blank, numbered features, blank and the modal footer's two lines |

## Left out

- Dexie and IndexedDB internals, `async`/`await` and transactions are not modelled. Each database call is atomic, and its failure is the boolean `ok`.
- `console.log`/`console.error`, `alert`, `confirm` and `navigate` are not modelled. The answer of `confirm` is the parameter `confirmed`. Navigation after logout and the 404 redirect are represented only by the resulting state or view.
- The two-second `setTimeout` that resets a submitted form and calls `onClose` is not modelled, because it is a timer. The immediate effects of a successful submit are.
- The Blob, object URL and anchor-click download mechanics are not modelled. The model stops at the file name and the text content.
- The Resend e-mail client is the parameter `send`: either the e-mail id it returns or the message of the error it throws.
- `new Date().toISOString()` and `toLocaleString()` are given as text parameters. The locale format is not modelled.
- `SubmitFeedback.Handler`, `SubmitVisitor.Handler`: the request body is taken to be an object with string fields and an integer-or-missing rating. A body that is not JSON, and the 500 that a failed destructuring would give, are not modelled.
- The `cors()` and body-parsing middleware, static file serving, the catch-all route and `listen` of `server.js` are not modelled. The Express routes are modelled with no headers of their own.
- `FormSchemas.StringIssues`: zod's e-mail regular expression is the parameter `isEmail`. The schemas are not used by the forms, which validate on their own.
- `FormSchemas.RatingIssues`: the ratings are Dafny reals. NaN and the infinities are not modelled.
- `Strings.Lower`: `toLowerCase` is modelled for ASCII letters only.
- String lengths count Unicode scalar values, whereas JavaScript's `length` counts UTF-16 code units. They differ only for characters outside the Basic Multilingual Plane.
- `Strings.StrLess` compares characters by their scalar values, whereas JavaScript and IndexedDB compare UTF-16 code units. The two orders differ only between a character above U+FFFF and one in U+E000 to U+FFFF, which never occur in an ISO timestamp.
- `Csv.ExportToCsv`: line breaks inside a value are not quoted, as in the source. `Csv.LineBreakSplitsRecord` exhibits this, and `Csv.DocumentLines` assumes no value holds a line break.
- `ProductDetailPage.ViewFor`: the route parameter is taken as an integer already produced by `Number(productId)`. The string conversion is not modelled: `''` becoming 0, `' 3 '`, `'0x3'` and `'3e0'` becoming 3, and `'abc'` or `'1.5'` finding no product.
- Product icons and images, and all JSX layout and styling, are not modelled. Neither are the admin page's `showPassword`, `activeTab` and `loading` flags, which only affect the display.
- `src/lib/supabase.ts` and the route table are context files and are not part of this model.
