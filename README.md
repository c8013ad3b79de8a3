# Student signup form and admin status list, modelled in Dafny

This project models the two pieces of logic in the bookstore front end's student pages.

**The student signup form** (`src/Components/Auth/StudentSignup.jsx`) has these parts:
- the static degree / year / stream catalog and the lookups that fall back to the empty list (module `Catalog`);
- the validation schema: nine string fields, a `required` rule on each, the phone pattern `/^[6-9]\d{9}$/`, a minimum password length of 6 and the library's e-mail test (module `Schema`);
- the form state kept by the form library: values, error map and touched set. The change handlers update it. The degree handler sets the degree and then clears year and stream unconditionally. The blur handler marks a field touched. The submit handler validates the whole form and posts only when there is no error. It counts the signup as successful only on status 201. Another 2xx status shows nothing. A rejected request, which includes every non-2xx response, reports the server's `error` text or "Something went wrong!" (module `Signup`, class `SignupForm`).

**The admin status page** (`src/Components/Admin/StudentStatus.jsx`) has these parts:
- the mapping of fetched users to table rows: id i+1, derived demo degree, year and birth date, status `Pending`;
- the by-id status rewrite;
- the `loading`/`submitting` flags (module `StudentStatus`, class `StudentStatusPage`).

Pure parts are functions with lemmas. The state that the components replace step by step is held by classes whose methods are specified against those functions.

Behaviour the model follows from the form library's defaults:
- every value change and every blur revalidates the whole form;
- the error map starts empty;
- submit marks all nine fields touched, validates, and calls the submit handler only when the error map is empty.

In three places the code does less than a reader might expect, and the model follows the code:
- the schema checks degree, stream and year for being non-empty only, never against the catalog;
- the stream menu offers no empty entry (only the year menu does);
- validation always covers the whole form, not just the edited field.

Catalog membership of year and stream is therefore proved as an invariant of the change handlers for values the menus can supply (`Signup.Offered`, `Signup.Consistent`). It is not part of validation.

## Model

| member | source | states |
|---|---|---|
| Catalog.DegreeValues | src/Components/Auth/StudentSignup.jsx:32-46 | one value per menu option; the empty choice comes first and is the only empty one; the values, used as menu keys at line 266, are pairwise distinct |
| Catalog.AvailableYears | src/Components/Auth/StudentSignup.jsx:130 | a non-empty degree of the menu yields its own non-empty year list; the empty degree and any code outside the menu yield the empty list |
| Catalog.AvailableStreams | src/Components/Auth/StudentSignup.jsx:131 | a non-empty degree of the menu yields its own non-empty stream list; the empty degree and any code outside the menu yield the empty list |
| Catalog.StreamListsNonEmpty | src/Components/Auth/StudentSignup.jsx:63-76 | every degree in the stream table has at least one stream |
| Catalog.CatalogComplete | src/Components/Auth/StudentSignup.jsx:32-76 | both tables are keyed by exactly the non-empty degree menu values |
| Catalog.StreamsDistinct | src/Components/Auth/StudentSignup.jsx:63-76 | every degree's stream list, used as menu keys, has pairwise distinct entries |
| Catalog.YearsDistinct | src/Components/Auth/StudentSignup.jsx:48-61 | every degree's year list has pairwise distinct entries |
| Catalog.UnknownDegreeHasNoOptions | src/Components/Auth/StudentSignup.jsx:130-131 | the empty degree and any code outside the menu yield no years and no streams |
| Catalog.EmptyIsNoOption | src/Components/Auth/StudentSignup.jsx:287-292 | the empty string is never a year or stream, so the year menu's empty entry is not a duplicate |
| Schema.AllFieldsComplete | src/Components/Auth/StudentSignup.jsx:104-114 | the field set holds all nine form fields |
| Schema.With | src/Components/Auth/StudentSignup.jsx:104-114 | setting a field gives it the new value and keeps every other field |
| Schema.InitialValuesEmpty | src/Components/Auth/StudentSignup.jsx:104-114 | every field starts as the empty string |
| Schema.MatchesExactly | src/Components/Auth/StudentSignup.jsx:81 | an anchored class pattern matches exactly the strings of its length whose every character is in the class at its position |
| Schema.PhonePatternMeaning | src/Components/Auth/StudentSignup.jsx:81 | the phone pattern matches iff the string is ten ASCII digits with the first in 6-9 |
| Schema.PhoneExamples | src/Components/Auth/StudentSignup.jsx:81 | "9876543210" matches; "1234567890" and "98765432" do not |
| Schema.Satisfies | src/Components/Auth/StudentSignup.jsx:79-87 | the rule table: each rule includes non-emptiness; the password rule is exactly length at least 6 |
| Schema.RulesReadOwnFieldOnly | src/Components/Auth/StudentSignup.jsx:79-87 | each rule depends on its own field only, so stream and year are never checked against the degree |
| Schema.StreamAndYearNotCheckedAgainstCatalog | src/Components/Auth/StudentSignup.jsx:84-85 | an off-catalog stream and year under BTech still pass their rules |
| Schema.FieldError | src/Components/Auth/StudentSignup.jsx:79-87 | a field has an error iff it breaks its rule, and the error is one of that field's declared messages |
| Schema.Validate | src/Components/Auth/StudentSignup.jsx:78-88 | the error map has a key for exactly the fields that break their rule, each with a declared message |
| Schema.ValidIffAllRulesHold | src/Components/Auth/StudentSignup.jsx:78-88 | the form has no errors iff every one of the nine rules holds |
| Schema.InitialFormHasEveryError | src/Components/Auth/StudentSignup.jsx:79-114 | the all-empty initial values break every one of the nine rules |
| Schema.PhoneRuleIsPattern | src/Components/Auth/StudentSignup.jsx:81 | the phone rule (required and pattern) is exactly the ten-digit, leading 6-9 condition |
| Schema.PasswordRuleIsLength | src/Components/Auth/StudentSignup.jsx:87 | the password rule holds iff the length is at least 6, with no trimming or character check |
| Signup.Offered | src/Components/Auth/StudentSignup.jsx:265-310 | the year and stream menus supply values only while a degree is chosen; the stream menu never supplies the empty string; the degree and stream menus supply only catalog values (the phone input is capped at 10 characters, line 213) |
| Signup.Consistent | src/Components/Auth/StudentSignup.jsx:273-311 | under the menu invariant, an empty degree means empty year and stream |
| Signup.Changed | src/Components/Auth/StudentSignup.jsx:256-260 | a degree change sets the degree and clears year and stream, keeping the rest; any other change sets only its own field |
| Signup.InitialValuesConsistent | src/Components/Auth/StudentSignup.jsx:104-114 | the initial values satisfy the menu invariant |
| Signup.ChangePreservesConsistency | src/Components/Auth/StudentSignup.jsx:273-311 | a change with a value its widget offers keeps year and stream empty or in the current degree's lists |
| Signup.ReplayConsistent | src/Components/Auth/StudentSignup.jsx:256-311 | any sequence of widget-supplied edits keeps the menu invariant |
| Signup.DegreeChangeResetsEvenWhenStillValid | src/Components/Auth/StudentSignup.jsx:256-260 | year and stream are cleared even when still valid for the new degree |
| Signup.HistoryNeverUnderBTech | src/Components/Auth/StudentSignup.jsx:306-310 | under BTech the stream menu does not offer History, and a consistent form never holds it |
| Signup.Settle | src/Components/Auth/StudentSignup.jsx:117-126 | success only on status 201; other 2xx statuses show nothing; a rejection (any non-2xx response or a network failure) reports the server's non-empty error text, else "Something went wrong!" |
| Signup.SubmitOutcome | src/Components/Auth/StudentSignup.jsx:115-127 | the request is sent, with exactly the current values, iff validation finds no error; success iff valid and status 201 |
| Signup.MissingFieldBlocksSubmit | src/Components/Auth/StudentSignup.jsx:115-116 | a form with any empty field sends nothing |
| Signup.ExampleFormIsSent | src/Components/Auth/StudentSignup.jsx:78-119 | a fully filled example form satisfies the menu invariant and is sent unchanged |
| Signup.SignupForm.constructor | src/Components/Auth/StudentSignup.jsx:103-115 | the form starts with empty values, an empty error map and nothing touched, so no error is shown |
| Signup.SignupForm.SetFieldValue | src/Components/Auth/StudentSignup.jsx:257-259 | one field is set, the whole form is revalidated, touched is unchanged |
| Signup.SignupForm.ChangeField | src/Components/Auth/StudentSignup.jsx:256-260 | the new values are those of `Changed`, errors are revalidated, touched is kept, and a widget-offered value keeps the menu invariant |
| Signup.SignupForm.BlurField | src/Components/Auth/StudentSignup.jsx:174 | blurring adds the field to touched and revalidates; values never change |
| Signup.SignupForm.VisibleError | src/Components/Auth/StudentSignup.jsx:273-312 | an error is shown iff the field's input is on the page (year and stream only while a degree is chosen), the field is touched and it has an error entry; with the error map current, a shown error is a real violation |
| Signup.SignupForm.Submit | src/Components/Auth/StudentSignup.jsx:115-127 | all fields become touched, errors are revalidated, values are kept, the outcome is `SubmitOutcome`, and exactly the failing fields whose inputs are on the page show their error |
| StudentStatus.DigitChar | src/Components/Admin/StudentStatus.jsx:38 | a number below ten becomes its ASCII digit |
| StudentStatus.FormatRow | src/Components/Admin/StudentStatus.jsx:30-40 | row i has id i+1, status Pending, the user's own fields, degree `['B.Sc','B.Com','B.A'][i % 3]`, year `2025 - i % 4` in 2022..2025, birth date `199<i % 10>-01-01` |
| StudentStatus.FormatRows | src/Components/Admin/StudentStatus.jsx:28-42 | formatting succeeds iff every user has a company; it then keeps the count, and row i is `FormatRow` of user i: id i+1, status Pending, the derived degree, year and birth date |
| StudentStatus.FormattedIdsDistinct | src/Components/Admin/StudentStatus.jsx:30-31 | formatted ids are distinct and lie in 1..n |
| StudentStatus.UpdateStatus | src/Components/Admin/StudentStatus.jsx:53-58 | length, order and ids are kept; matching rows get the new status with all else kept; other rows are unchanged |
| StudentStatus.UpdateStatusIdempotent | src/Components/Admin/StudentStatus.jsx:54-56 | applying the same change twice equals applying it once |
| StudentStatus.UpdateStatusLastWins | src/Components/Admin/StudentStatus.jsx:54-56 | the later of two changes to one id wins |
| StudentStatus.UpdateStatusCommutes | src/Components/Admin/StudentStatus.jsx:54-56 | changes to two different ids commute |
| StudentStatus.UpdateFormattedRow | src/Components/Admin/StudentStatus.jsx:30-56 | on formatted rows, id k rewrites exactly row k-1 |
| StudentStatus.StudentStatusPage.constructor | src/Components/Admin/StudentStatus.jsx:21-23 | the page starts with no rows, loading, not submitting |
| StudentStatus.StudentStatusPage.FetchSettled | src/Components/Admin/StudentStatus.jsx:25-47 | loading ends whatever the outcome; rows are replaced only on a successful fetch whose users all format, else kept |
| StudentStatus.StudentStatusPage.HandleStatusChange | src/Components/Admin/StudentStatus.jsx:53-58 | the rows become `UpdateStatus` of the old rows; flags unchanged |
| StudentStatus.StudentStatusPage.HandleSubmit | src/Components/Admin/StudentStatus.jsx:60-63 | submitting starts; the completion reports the rows as they are at this moment |
| StudentStatus.StudentStatusPage.PressSubmit | src/Components/Admin/StudentStatus.jsx:124-131 | the button fires the handler iff the table is shown and not submitting |
| StudentStatus.StudentStatusPage.SubmitCompleted | src/Components/Admin/StudentStatus.jsx:62-66 | submitting ends and, once loaded, the button is enabled again |

## Left out

- Rendering: layout, styling, responsive breakpoints, icons and labels. It carries no logic.
- The account-creation and user-list requests. Their results are parameters: `Signup.GatewayResult` and `StudentStatus.FetchResult`.
- The request client's status check: by default it resolves only 200-299. `Signup.GatewayResult` therefore allows `Responded` only with a 2xx status, and any other response is a `Threw` carrying the body's `error` text.
- The success and error toasts, the redirect to the login page, console output, the alert and the 1.5 s timer. The success toast and the redirect are the `SignupSuccessful` notice; the timer is the separate `SubmitCompleted` step. Nothing after the redirect (the page unmounting) is modelled.
- The e-mail grammar: it lives inside the validation library. It is the parameter `isEmail` of the schema and the form.
- Schema.FieldError: when an empty field fails both `required` and its pattern or length test, the model reports the required message. The library's choice between the two is not modelled. `Validate` promises only some declared message.
- The form library's asynchronous validation ordering, `isSubmitting` and `submitCount`. Each handler is modelled as one atomic step. The code does not read these values.
- Asynchrony of the fetch and the submit. Both are atomic before/after transitions.
- String length: Dafny counts Unicode scalar values, while the browser counts UTF-16 code units. They differ only for characters outside the Basic Multilingual Plane. This affects the password minimum and the phone input limit.
- The select widget's habit of not firing a change when the current option is chosen again. `ChangeField` models the handler itself, which always resets.
- Degree codes that collide with inherited object properties (such as `constructor`). The model uses exact table membership. The degree is only ever a menu value.
- Fetched data that is not a list, user records missing fields other than the company, and non-string server error values. Users carry string fields, and the server error is an optional string.
- src/Components/Student/Dashboard.jsx is not part of this model: it holds only layout and navigation calls.
