# MatBook onboarding form and CMS editor helpers, modelled in Dafny

This project models two small web applications.

The first is the **MatBook** employee-onboarding form.
- Its backend holds a constant form schema of eight fields.
- A validator walks the schema and builds a map from field id to error message.
- A middleware gate runs the validator on every `POST` and `PUT` and rejects a body that has errors.
- A SQLite `submissions` table (id, JSON data, creation time) is written by the create, update and delete handlers and read, searched and paged by the list handler.
- An `AppError` class carries an HTTP code and the status text derived from it.
- A global error handler answers in development or production form.
- Its React front end has a form page with its own "Required" check, a field widget, and a submissions dashboard with paging and sorting.

The second is the **CMS admin** front end: the post editor, the static page editor and the admin shell.

The model is split into one module per source file, plus two support modules:
- `Strings` covers the JavaScript string and number builtins the code relies on: `trim`, UTF-16 `length`, `String(n)`, `parseInt`, `startsWith`, `join`, `toLowerCase`, and code-unit string order.
- `Json` covers submitted values, JavaScript truthiness and `JSON.stringify`.

The validator is a function `Validator.Errors` over any list of fields. `Validator.ValidateSubmission` is the source's `forEach` loop over the onboarding schema, written as a loop method and proved equal to that function. The pattern engine behind `new RegExp(p).test(s)` is a parameter `matches`.

The submissions table is a class `FormController.SubmissionStore` whose `rows` field the handlers reassign. Its invariant is the primary key, which means distinct ids. The list handler's `WHERE … LIKE`, `ORDER BY`, `LIMIT` and `OFFSET` are functions on the row sequence.

The stateful front-end components are modelled as classes whose methods are the event handlers: `SubmissionsView`, `PostEditor`, `PageEditor` and `Shell`. The rest is pure functions.

## Model

| member | source | states |
|---|---|---|
| Strings.TrimStart | Downloads/matbook/frontend/src/pages/FormPage.tsx:76 | the result is a suffix of the input, does not start with JS whitespace, and only whitespace was removed |
| Strings.TrimEnd | Downloads/matbook/frontend/src/pages/FormPage.tsx:76 | the result is a prefix of the input, does not end with JS whitespace, and only whitespace was removed |
| Strings.TrimEmptyIffBlank | Downloads/matbook/frontend/src/pages/FormPage.tsx:76 | `s.trim() === ''` exactly when every character of `s` is JS whitespace |
| Strings.Utf16Length | Downloads/matbook/backend/src/utils/validator.ts:29-32 | a string's `length` counts UTF-16 code units: between one and two per character |
| Strings.Utf16LengthBmp | Downloads/matbook/backend/src/utils/validator.ts:29-32 | on text without characters above U+FFFF, `length` is the number of characters |
| Strings.DigitsValueOfNat | Downloads/matbook/backend/src/utils/validator.ts:44 | reading back the decimal text of a natural number gives the number |
| Strings.SignedDigitsOfIntToString | Downloads/matbook/backend/src/utils/validator.ts:42 | the signed decimal text of any integer reads back as that integer |
| Strings.TrimIntToString | Downloads/matbook/backend/src/utils/validator.ts:42 | the decimal text of an integer has no surrounding whitespace to trim |
| Strings.DigitPrefix | Downloads/matbook/backend/dist/controllers/formController.js:25-26 | the longest prefix of digits: all digits, and the next character (if any) is not one |
| Strings.ParseIntHex | Downloads/matbook/backend/dist/controllers/formController.js:25-26 | `parseInt` with no radix reads a `0x`/`0X` numeral in base 16 after its sign (`0x10` is 16, `-0X1f` is -31), and `0x` alone is NaN |
| Strings.ParseIntOfHex | Downloads/matbook/backend/dist/controllers/formController.js:25-26 | `0x` followed only by hexadecimal digits reads as their base-16 value |
| Strings.ParseIntOfMinusHex | Downloads/matbook/backend/dist/controllers/formController.js:25-26 | the same after a minus sign, negated |
| Strings.ParseIntOfIntToString | Downloads/matbook/frontend/src/lib/api.ts:64-69 | `parseInt(String(n)) === n` for every integer `n` of the model (in JavaScript, for safe integers), so a page number sent in a query comes back unchanged |
| Strings.JoinEmpty | Downloads/matbook/frontend/src/components/DynamicField.tsx:138 | `xs.join(sep)` is empty exactly for no items or a single empty item |
| Strings.LowerAscii | Downloads/cms/admin/src/pages/posts/PostForm.jsx:113 | `toLowerCase` on one character: capitals A-Z move by 32, all else is unchanged |
| Strings.LexLeTotal | Downloads/matbook/backend/dist/controllers/formController.js:42 | any two timestamps are ordered one way or the other |
| Strings.LexLeTransitive | Downloads/matbook/backend/dist/controllers/formController.js:42 | text order is transitive |
| Strings.LexLeAntisymmetric | Downloads/matbook/backend/dist/controllers/formController.js:42 | text order is antisymmetric |
| Json.Get | Downloads/matbook/backend/src/utils/validator.ts:11 | `data[key]` is undefined exactly when no entry has the key, and otherwise it is the value of the last entry with the key |
| Json.GetAppendOther | Downloads/matbook/backend/src/utils/validator.ts:11 | adding an entry under another key does not change what a key reads |
| Json.EscapeChar | Downloads/matbook/backend/dist/controllers/formController.js:14 | `JSON.stringify` writes a character as itself exactly when it is not a quote, backslash or control character |
| Json.EscapePlain | Downloads/matbook/backend/dist/controllers/formController.js:14 | a string of such characters is written unchanged between its quotes |
| Json.EntryInEntries | Downloads/matbook/backend/dist/controllers/formController.js:14 | each entry's serialised text stands inside the serialised entries |
| Json.PlainValueInEntry | Downloads/matbook/backend/dist/controllers/formController.js:14 | a plain string value appears, as typed, in its serialised entry |
| Json.GetCons | Downloads/matbook/backend/src/utils/validator.ts:11 | with one more entry in front, a key reads as the rest reads it when the rest has the key, and otherwise as that entry gives it |
| Json.GetDrop | Downloads/matbook/backend/dist/controllers/formController.js:14 | removing a key's entries makes that key undefined and leaves every other key's value alone |
| Json.ParsedGet | Downloads/matbook/backend/dist/controllers/formController.js:14 | the object `JSON.parse` builds (one entry per key, holding its last value) reads every key exactly as the submitted record does |
| Json.StringifyContainsPlainValue | Downloads/matbook/backend/dist/controllers/formController.js:32-34 | a plain string that a key of the record reads occurs in `JSON.stringify` of the parsed object, the text the search runs on; a value overwritten by a later duplicate key is not claimed |
| FormSchema.OnboardingUniqueIds | Downloads/matbook/backend/src/data/formSchema.ts:4-86 | the eight field ids are pairwise distinct |
| FormSchema.OnboardingIds | Downloads/matbook/backend/src/data/formSchema.ts:4-86 | the schema has exactly the eight ids fullName, email, age, department, skills, startDate, bio and remote |
| FormSchema.OnboardingWellFormed | Downloads/matbook/backend/src/data/formSchema.ts:4-86 | the schema is well formed: distinct ids; options exactly on select and multi-select; each rule on a type that uses it; lower bounds at most upper bounds; the skills minimum reachable with its options |
| FormSchema.OnboardingFieldsWellFormed | Downloads/matbook/backend/src/data/formSchema.ts:5-85 | each of the eight field declarations is well formed on its own |
| FormSchema.OnboardingRequired | Downloads/matbook/backend/src/data/formSchema.ts:4-86 | exactly fullName, email, age, department and startDate are required |
| FormSchema.OnboardingBounds | Downloads/matbook/backend/src/data/formSchema.ts:5-62 | name length 2..50, age 18..65, and 1..3 skills out of 4 options |
| Validator.Errors | Downloads/matbook/backend/src/utils/validator.ts:7-71 | the error map of a pass over the fields only has keys that are schema ids |
| Validator.ValidateSubmission | Downloads/matbook/backend/src/utils/validator.ts:7-71 | the loop returns the pass's error map; a field's id is a key exactly when that field has a message, and the key holds that message |
| Validator.ErrorsStep | Downloads/matbook/backend/src/utils/validator.ts:10-16 | visiting one more field adds its message under its id, or leaves the map unchanged |
| Validator.ErrorsPerField | Downloads/matbook/backend/src/utils/validator.ts:7-71 | with distinct ids, every field's key is present exactly when it has a message, holding that message |
| Validator.ErrorsAt | Downloads/matbook/backend/src/utils/validator.ts:7-71 | the same for one field, whatever fields come before or after it |
| Validator.ErrorsReadOnlySchemaKeys | Downloads/matbook/backend/src/utils/validator.ts:11 | two bodies that agree on the schema's keys get the same error map |
| Validator.ErrorsIgnoreUnknownKey | Downloads/matbook/backend/src/utils/validator.ts:10-11 | an extra key that no field uses changes nothing |
| Validator.ErrorsEmptyIff | Downloads/matbook/backend/src/utils/validator.ts:7-71 | with distinct ids, the map is empty exactly when no field has a message |
| Validator.RequiredAbsent | Downloads/matbook/backend/src/utils/validator.ts:14-17 | a required field that is undefined, null or `''` gets `<label> is required` and nothing else |
| Validator.OptionalAbsent | Downloads/matbook/backend/src/utils/validator.ts:20-22 | an optional field that is undefined, null or `''` gets no message |
| Validator.EmptyArrayIsPresent | Downloads/matbook/backend/src/utils/validator.ts:14-25 | an empty array is not absent: it skips the required check and goes through the rules |
| Validator.PatternWins | Downloads/matbook/backend/src/utils/validator.ts:28-37 | a failing pattern gives `Invalid format`, overriding any failed length rule |
| Validator.LengthMessages | Downloads/matbook/backend/src/utils/validator.ts:28-34 | when the pattern passes: too-long text reports maxLength, too-short text reports minLength, and text in range gets no message |
| Validator.NumberBounds | Downloads/matbook/backend/src/utils/validator.ts:41-49 | number bounds are inclusive; below min reports min and above max reports max, which wins |
| Validator.NumberTextAsNumber | Downloads/matbook/backend/src/utils/validator.ts:41-49 | a number field holding the decimal text of n is judged as the number n |
| Validator.ZeroDisablesLengthRules | Downloads/matbook/backend/src/utils/validator.ts:29-32 | minLength and maxLength of 0 act as if absent, because they are tested by truthiness |
| Validator.ZeroDisablesSelectionRules | Downloads/matbook/backend/src/utils/validator.ts:53-56 | minSelected and maxSelected of 0 act as if absent |
| Validator.ZeroBoundIsHonoured | Downloads/matbook/backend/src/utils/validator.ts:43-48 | min and max 0 are honoured, because they are tested with `!== undefined`: a negative number reports `Min value is 0` against a min of 0, and a positive number reports `Max value is 0` against a max of 0 |
| Validator.SelectionBounds | Downloads/matbook/backend/src/utils/validator.ts:52-59 | selecting between minSelected and maxSelected items passes; fewer or more reports the bound crossed |
| Validator.SelectionNeedsArray | Downloads/matbook/backend/src/utils/validator.ts:52 | selection rules are skipped for a value that is not an array |
| Validator.DateBound | Downloads/matbook/backend/src/utils/validator.ts:62-68 | a date before minDate reports `Date must be after <minDate>`; an unparsable date passes |
| Validator.PresentDate | Downloads/matbook/backend/src/utils/validator.ts:62-68 | the same for a field's whole error when the field has only a minDate rule |
| Validator.ErrorsOfEmptySubmission | Downloads/matbook/backend/src/utils/validator.ts:14-17 | an empty body's error keys are exactly the required ids, each holding its required message |
| Validator.RequiredFieldOfEmptySubmission | Downloads/matbook/backend/src/utils/validator.ts:14-17 | one required field of an empty body gets its required message |
| Validator.OnboardingEmptySubmission | Downloads/matbook/backend/src/utils/validator.ts:7-71 | on the onboarding schema, an empty body reports exactly fullName, email, age, department and startDate |
| Validator.OnboardingEmptyAge | Downloads/matbook/backend/src/utils/validator.ts:14-17 | and age's message is `Age is required` |
| Validator.OnboardingAge | Downloads/matbook/backend/src/data/formSchema.ts:27-36 | ages 18 to 65 pass; younger reports `Min value is 18`, older `Max value is 65` |
| Validator.OnboardingSkills | Downloads/matbook/backend/src/data/formSchema.ts:48-62 | one to three skills pass; none reports the minimum, four or more the maximum |
| Validator.OnboardingStartDateTooEarly | Downloads/matbook/backend/src/data/formSchema.ts:63-71 | 2023-12-31 reports `Date must be after 2024-01-01` |
| Validator.OnboardingStartDateOnTime | Downloads/matbook/backend/src/data/formSchema.ts:63-71 | 2024-01-01 itself passes |
| Validator.ParseDateLastDayOf2023 | Downloads/matbook/backend/src/utils/validator.ts:63-64 | `2023-12-31` parses to the day 20231231 |
| Validator.ParseDateFirstDayOf2024 | Downloads/matbook/backend/src/utils/validator.ts:63-64 | `2024-01-01` parses to the day 20240101 |
| ApiError.StatusFor | Downloads/matbook/backend/src/utils/ApiError.ts:11 | the status is `fail` exactly when the code's decimal text starts with 4, and `error` otherwise |
| ApiError.NewAppError | Downloads/matbook/backend/src/utils/ApiError.ts:7-16 | the message and code are kept, the status is derived, a missing errors map becomes `{}`, and the error is operational |
| ApiError.StatusByLeadingDigit | Downloads/matbook/backend/src/utils/ApiError.ts:11 | a non-negative code fails exactly when its leading digit is 4; a negative code is an error |
| ApiError.StatusOfHttpCode | Downloads/matbook/backend/src/utils/ApiError.ts:11 | for three-digit codes, `fail` exactly for 400 to 499 |
| ApiError.StatusOfRaisedCodes | Downloads/matbook/backend/src/utils/ApiError.ts:11 | 400 and 404 fail; 500 is an error |
| ErrorHandler.FromAppError | Downloads/matbook/backend/src/utils/ApiError.ts:7-16 | an AppError reaches the handler with its message, code, status, errors and operational flag |
| ErrorHandler.Normalize | Downloads/matbook/backend/src/middleware/errorHandler.ts:43-44 | a missing or zero code becomes 500 and a missing or empty status becomes `error`; truthy ones are kept; nothing else changes |
| ErrorHandler.HandleCastError | Downloads/matbook/backend/src/middleware/errorHandler.ts:3-6 | a cast failure becomes an operational 400 `fail` with the message `Invalid <path>: <value>.` and no field errors |
| ErrorHandler.CastErrorInProduction | Downloads/matbook/backend/src/middleware/errorHandler.ts:3-6 | outside development, a raised cast failure reaches the client as a 400 with exactly that message and an empty error map |
| ErrorHandler.HandleSQLiteError | Downloads/matbook/backend/src/middleware/errorHandler.ts:8-13 | `SQLITE_CONSTRAINT` becomes a 400 duplicate-value error and any other code a 500 database error, both operational |
| ErrorHandler.SendErrorDev | Downloads/matbook/backend/src/middleware/errorHandler.ts:15-24 | the development body carries status, message, errors and the error itself, under the error's code |
| ErrorHandler.SendErrorProd | Downloads/matbook/backend/src/middleware/errorHandler.ts:26-40 | an operational error sends its code, message and errors; anything else sends a generic 500 |
| ErrorHandler.ProdError | Downloads/matbook/backend/src/middleware/errorHandler.ts:48-53 | the production rewrapping always yields an operational error with a code |
| ErrorHandler.DevelopmentResponse | Downloads/matbook/backend/src/middleware/errorHandler.ts:42-47 | in development the response has the normalised non-zero code and status, and the error's message and errors |
| ErrorHandler.ConstraintFailureIs400 | Downloads/matbook/backend/src/middleware/errorHandler.ts:49-50 | outside development a `SQLITE_CONSTRAINT` error is a 400 with the duplicate-value message, whatever its code was |
| ErrorHandler.UnexpectedErrorIsRewrapped | Downloads/matbook/backend/src/middleware/errorHandler.ts:49-55 | outside development, a non-operational error is sent with its own message (or `Internal Server Error`), its normalised code and `{}` errors |
| ErrorHandler.NeverGeneric | Downloads/matbook/backend/src/middleware/errorHandler.ts:26-40 | hence the generic `Something went wrong` body is never sent unless the error itself says so, in either mode |
| ErrorHandler.OperationalErrorKept | Downloads/matbook/backend/src/middleware/errorHandler.ts:49-55 | outside development an operational error keeps its normalised code, message and errors |
| ErrorHandler.AppErrorInProduction | Downloads/matbook/backend/src/middleware/errorHandler.ts:42-56 | an AppError with a non-zero code is answered with exactly its code, message and errors map |
| ErrorHandler.StatusCodeNeverZero | Downloads/matbook/backend/src/middleware/errorHandler.ts:43 | the status code sent is never 0, and a missing or zero code is sent as 500 |
| ValidateMiddleware.Gate | Downloads/matbook/backend/dist/middleware/validate.js:3-12 | methods other than POST and PUT always pass; POST or PUT passes exactly when the validator's map is empty; a rejection is a 400 `Validation failed` carrying that map |
| ValidateMiddleware.ContinueMeansValid | Downloads/matbook/backend/dist/middleware/validate.js:4-11 | a body the gate passes on POST or PUT has no field with a message |
| ValidateMiddleware.RejectionResponse | Downloads/matbook/backend/dist/middleware/validate.js:8 | in production, a rejection reaches the client as a 400 with `Validation failed` and exactly the validator's map |
| ValidateMiddleware.EmptyPostRejected | Downloads/matbook/backend/dist/middleware/validate.js:4-8 | an empty POST body is rejected, and its errors include `Age is required` |
| FormController.IntOr | Downloads/matbook/backend/dist/controllers/formController.js:25-26 | `parseInt(x)` or else the fallback is never 0: it is the parsed number when that is a non-zero number, and the fallback otherwise |
| FormController.ParseListQuery | Downloads/matbook/backend/dist/controllers/formController.js:25-28 | page and limit are non-zero; the order is ascending exactly for `asc`; an empty search is no search |
| FormController.HexPage | Downloads/matbook/backend/dist/controllers/formController.js:25 | `?page=0x10` selects page 16 |
| FormController.DefaultQuery | Downloads/matbook/backend/dist/controllers/formController.js:25-28 | missing or non-numeric parameters give page 1 of 10, newest first, unfiltered |
| FormController.Filtered | Downloads/matbook/backend/dist/controllers/formController.js:32-35 | the kept rows are exactly the rows that match, as a sub-multiset; no search keeps every row |
| FormController.BeforeTotal | Downloads/matbook/backend/dist/controllers/formController.js:42 | either of two rows may come first in one of them |
| FormController.BeforeTransitive | Downloads/matbook/backend/dist/controllers/formController.js:42 | the ORDER BY relation is transitive |
| FormController.Insert | Downloads/matbook/backend/dist/controllers/formController.js:42 | inserting into a sorted run keeps it sorted and adds exactly the one row |
| FormController.Ordered | Downloads/matbook/backend/dist/controllers/formController.js:42 | the ordered rows are sorted by createdAt in the requested direction, and are a permutation of the input |
| FormController.WindowIsSlice | Downloads/matbook/backend/dist/controllers/formController.js:43-45 | a LIMIT/OFFSET window holds only input rows, at most `limit` of them for a non-negative limit, and stays sorted |
| FormController.TotalPages | Downloads/matbook/backend/dist/controllers/formController.js:53 | `Math.ceil(total / limit)`: for a positive limit, the least n with total <= n·limit; for a negative one, the corresponding bound |
| FormController.PagesUpToPrefix | Downloads/matbook/backend/dist/controllers/formController.js:29-45 | pages 1 to n, one after the other, are the first n·limit rows |
| FormController.PagesCoverRows | Downloads/matbook/backend/dist/controllers/formController.js:29-53 | pages 1 to totalPages hold every row once, in order, and any later page is empty |
| FormController.PageSizes | Downloads/matbook/backend/dist/controllers/formController.js:29-53 | every page before the last is full, and the last holds the non-empty remainder |
| FormController.FifteenRowsTwoPages | Downloads/matbook/backend/dist/controllers/formController.js:29-53 | 15 rows at 10 per page make 2 pages, and page 2 has 5 rows |
| FormController.NegativeLimit | Downloads/matbook/backend/dist/controllers/formController.js:26-45 | a negative limit makes page 1 and every later page return all the rows |
| FormController.SearchFindsValue | Downloads/matbook/backend/dist/controllers/formController.js:32-35 | a row whose data reads the search text, as a plain string, under some key is among the rows the search keeps |
| FormController.UpdateRows | Downloads/matbook/backend/dist/controllers/formController.js:69-70 | the row with the id gets the new data, and every other row and every id and timestamp are unchanged |
| FormController.DeleteRows | Downloads/matbook/backend/dist/controllers/formController.js:59-60 | exactly the rows with other ids remain; an absent id changes nothing |
| FormController.DeleteRowsAt | Downloads/matbook/backend/dist/controllers/formController.js:59-60 | with distinct ids, deleting a row's id removes exactly that row and keeps the others in order |
| FormController.DistinctIdsSubsequence | Downloads/matbook/backend/src/db/index.ts:16 | removing a row keeps the ids distinct |
| FormController.SubmissionStore.constructor | Downloads/matbook/backend/src/db/index.ts:14-20 | the table starts empty and satisfies the primary key |
| FormController.SubmissionStore.Create | Downloads/matbook/backend/dist/controllers/formController.js:9-23 | a new id appends its row and answers 201 with the id and time; a repeated id leaves the table alone and raises the driver's constraint error; the primary key holds |
| FormController.SubmissionStore.List | Downloads/matbook/backend/dist/controllers/formController.js:24-56 | the reply is a 200 with the requested page of the sorted matching rows, the match count, page, limit and page count; every row shown is stored and matches; the page is sorted |
| FormController.SubmissionStore.Update | Downloads/matbook/backend/dist/controllers/formController.js:66-75 | the rows become the updated rows; 200 `Updated successfully` when the id exists, and otherwise a 404 with nothing changed |
| FormController.SubmissionStore.Delete | Downloads/matbook/backend/dist/controllers/formController.js:57-65 | the rows become the rows without the id, which is exactly one row removed in place; 200 `Deleted successfully`, or a 404 with nothing changed |
| FormRoutes.PostSubmission | Downloads/matbook/backend/dist/routes/formRoutes.js:7 | a rejected body leaves the table alone and raises the gate's error; a valid body with a new id is appended with 201; a valid body whose id is already stored leaves the table alone and raises the primary-key error; every stored record stays clean |
| FormRoutes.PutSubmission | Downloads/matbook/backend/dist/routes/formRoutes.js:8 | a rejected body leaves the table alone and raises the gate's error; a valid one updates the row, answering 200 when the id is stored and 404 with the table unchanged when it is not; every stored record stays clean |
| FormRoutes.DeleteSubmission | Downloads/matbook/backend/dist/routes/formRoutes.js:9 | deleting without a gate keeps every stored record clean |
| FormRoutes.ListIsNotGated | Downloads/matbook/backend/dist/routes/formRoutes.js:6-9 | the gate lets GET and DELETE through whatever the body |
| FormPage.ClientRequired | Downloads/matbook/frontend/src/pages/FormPage.tsx:73-79 | the client's only message is `Required` |
| FormPage.ClientRequiredIff | Downloads/matbook/frontend/src/pages/FormPage.tsx:73-79 | a required field is flagged exactly when it is undefined, null, blank text or an empty selection; an optional field never is |
| FormPage.FalseAndZeroAreFilled | Downloads/matbook/frontend/src/pages/FormPage.tsx:75-77 | `false` and `0` satisfy a required field |
| FormPage.ClientStricterThanServer | Downloads/matbook/frontend/src/pages/FormPage.tsx:73-79 | whenever the server reports a required value missing, the client does too |
| FormPage.ClientAndServerDiffer | Downloads/matbook/frontend/src/pages/FormPage.tsx:76-77 | whitespace-only text and an empty selection are flagged by the client, but pass the server's required check |
| DynamicField.Truthful | Downloads/matbook/frontend/src/components/DynamicField.tsx:19 | the kept errors are exactly the non-empty messages, and none of them is empty |
| DynamicField.TruthfulAppend | Downloads/matbook/frontend/src/components/DynamicField.tsx:19 | filtering keeps order: it distributes over concatenation |
| DynamicField.HasErrorIff | Downloads/matbook/frontend/src/components/DynamicField.tsx:19-20 | the field is in error exactly when some entry is a non-empty message, and exactly then the text under it is not empty |
| DynamicField.WidgetFor | Downloads/matbook/frontend/src/components/DynamicField.tsx:39-100 | every field type renders exactly one of the five widgets |
| DynamicField.Without | Downloads/matbook/frontend/src/components/DynamicField.tsx:123 | filtering out x keeps exactly the other items, and changes nothing when x is not there |
| DynamicField.WithoutAppend | Downloads/matbook/frontend/src/components/DynamicField.tsx:123 | removal distributes over concatenation |
| DynamicField.ToggleOption | Downloads/matbook/frontend/src/components/DynamicField.tsx:103-125 | after a click, x is selected exactly when it was not before, and every other option keeps its state |
| DynamicField.ToggleAppends | Downloads/matbook/frontend/src/components/DynamicField.tsx:124 | selecting appends at the end |
| DynamicField.ToggleRemoves | Downloads/matbook/frontend/src/components/DynamicField.tsx:123 | deselecting removes every copy and keeps the order |
| DynamicField.ToggleTwice | Downloads/matbook/frontend/src/components/DynamicField.tsx:103-125 | two clicks on an unselected option restore the selection |
| DynamicField.ToggleFromNothing | Downloads/matbook/frontend/src/components/DynamicField.tsx:103 | the first click with no value selects only that option |
| DynamicField.SwitchNext | Downloads/matbook/frontend/src/components/DynamicField.tsx:87 | the switch emits the boolean negation of the value's truthiness |
| DynamicField.SwitchTwice | Downloads/matbook/frontend/src/components/DynamicField.tsx:87 | two clicks restore a boolean; an unset switch becomes true |
| SubmissionPage.SortText | Downloads/matbook/frontend/src/lib/api.ts:64-66 | the parameter is `asc` exactly for ascending |
| SubmissionPage.Flip | Downloads/matbook/frontend/src/pages/SubmissionPage.tsx:36 | a flip always changes the order |
| SubmissionPage.FlipTwice | Downloads/matbook/frontend/src/pages/SubmissionPage.tsx:36 | two flips restore it |
| SubmissionPage.SubmissionsView.constructor | Downloads/matbook/frontend/src/pages/SubmissionPage.tsx:17-18 | the dashboard starts on page index 0 of 10, newest first |
| SubmissionPage.SubmissionsView.Request | Downloads/matbook/frontend/src/pages/SubmissionPage.tsx:23 | the request asks for the 1-based page, the page size and the order in the state |
| SubmissionPage.SubmissionsView.ClickDateHeader | Downloads/matbook/frontend/src/pages/SubmissionPage.tsx:36 | a header click flips the order and keeps the page and size |
| SubmissionPage.ClickTwice | Downloads/matbook/frontend/src/pages/SubmissionPage.tsx:36 | two header clicks restore the request |
| SubmissionPage.ServerReadsRequest | Downloads/matbook/frontend/src/lib/api.ts:64-69 | the server reads back exactly the page, page size and order the dashboard sent |
| SubmissionPage.InitialRequestIsServerDefault | Downloads/matbook/frontend/src/pages/SubmissionPage.tsx:17-23 | the dashboard's first request selects what the server's defaults select |
| SubmissionPage.FormatValue | Downloads/matbook/frontend/src/pages/SubmissionPage.tsx:177-179 | an empty array shows `None selected`, `''` shows `Empty`, other arrays are joined with `, `, and other values show `String(value)` |
| SubmissionPage.HintOnlyWhenEmpty | Downloads/matbook/frontend/src/pages/SubmissionPage.tsx:177-179 | a hint is shown exactly for `[]` and `''`; `['']` shows empty text |
| SubmissionPage.ShortId | Downloads/matbook/frontend/src/pages/SubmissionPage.tsx:30 | the short id is the prefix of the first 8 characters (the whole id if shorter) |
| PostForm.SlugChar | Downloads/cms/admin/src/pages/posts/PostForm.jsx:113 | a slug character is never a space, and a space becomes `-` |
| PostForm.Slug | Downloads/cms/admin/src/pages/posts/PostForm.jsx:113 | the slug has the title's length and is the title mapped character by character |
| PostForm.SlugProperties | Downloads/cms/admin/src/pages/posts/PostForm.jsx:113 | a slug has no spaces, and the slug of a slug is itself |
| PostForm.SlugExample | Downloads/cms/admin/src/pages/posts/PostForm.jsx:113 | `My Post` becomes `my-post` |
| PostForm.OrEmpty | Downloads/cms/admin/src/pages/posts/PostForm.jsx:30-35 | x, or else `''` (as `x || ''`) is x when x is truthy and `''` otherwise, and it is truthy exactly when x is |
| PostForm.LoadPost | Downloads/cms/admin/src/pages/posts/PostForm.jsx:28-36 | the title is copied as it came, published is the truthiness of `is_published`, and slug, content, image, meta description and category are each the post's own field with `''` for a falsy one |
| PostForm.LoadedFieldsNormalised | Downloads/cms/admin/src/pages/posts/PostForm.jsx:30-35 | every text field of a loaded post is `''` or a truthy value |
| PostForm.LoadBarePost | Downloads/cms/admin/src/pages/posts/PostForm.jsx:28-36 | a post with only a title loads as the blank form with that title |
| PostForm.SaveRequestFor | Downloads/cms/admin/src/pages/posts/PostForm.jsx:72-77 | PUT to `/posts/<id>` exactly when an id is given, and POST to `/posts` otherwise, with the form as the body |
| PostForm.PreviewSrc | Downloads/cms/admin/src/pages/posts/PostForm.jsx:205 | an `http` address is used as is, and anything else is prefixed with the local server |
| PostForm.PreviewIsAbsolute | Downloads/cms/admin/src/pages/posts/PostForm.jsx:205 | every preview address starts with `http`, and an uploaded file is fetched from the local server's storage |
| PostForm.PostEditor.constructor | Downloads/cms/admin/src/pages/posts/PostForm.jsx:11-19 | the editor starts blank and unpublished |
| PostForm.PostEditor.EditTitle | Downloads/cms/admin/src/pages/posts/PostForm.jsx:113 | the title is set and the slug is derived from it; nothing else changes |
| PostForm.PostEditor.EditSlug | Downloads/cms/admin/src/pages/posts/PostForm.jsx:178 | only the slug changes |
| PostForm.PostEditor.EditContent | Downloads/cms/admin/src/pages/posts/PostForm.jsx:125 | only the content changes |
| PostForm.PostEditor.EditMetaDescription | Downloads/cms/admin/src/pages/posts/PostForm.jsx:138 | only the meta description changes |
| PostForm.PostEditor.EditCategory | Downloads/cms/admin/src/pages/posts/PostForm.jsx:160 | only the category changes |
| PostForm.PostEditor.SetPublished | Downloads/cms/admin/src/pages/posts/PostForm.jsx:190 | only the published flag changes |
| PostForm.PostEditor.Uploaded | Downloads/cms/admin/src/pages/posts/PostForm.jsx:60 | only the image changes, to the storage path of the upload |
| PostForm.PostEditor.RemoveImage | Downloads/cms/admin/src/pages/posts/PostForm.jsx:211 | only the image changes, to `''` |
| PostForm.PostEditor.Loaded | Downloads/cms/admin/src/pages/posts/PostForm.jsx:26-36 | the state becomes the loaded post's form |
| PageForm.LoadPage | Downloads/cms/admin/src/pages/pages/PageForm.jsx:18-25 | title as it came; slug and content default to `''`; published by truthiness; no meta description |
| PageForm.LoadedMetaIsEmpty | Downloads/cms/admin/src/pages/pages/PageForm.jsx:18-25 | a loaded page always shows an empty meta description |
| PageForm.LoadDropsMeta | Downloads/cms/admin/src/pages/pages/PageForm.jsx:69 | even when the page it loaded has one |
| PageForm.PageSaveFor | Downloads/cms/admin/src/pages/pages/PageForm.jsx:37-41 | PUT to `/pages/<id>` exactly when an id is given, and POST to `/pages` otherwise, with the form as the body |
| PageForm.PageEditor.constructor | Downloads/cms/admin/src/pages/pages/PageForm.jsx:8-13 | the editor starts blank and unpublished, with no meta description |
| PageForm.PageEditor.EditTitle | Downloads/cms/admin/src/pages/pages/PageForm.jsx:60 | the title is set and the slug is derived from it; nothing else changes |
| PageForm.PageEditor.EditMetaDescription | Downloads/cms/admin/src/pages/pages/PageForm.jsx:70 | only the meta description changes |
| PageForm.PageEditor.EditSlug | Downloads/cms/admin/src/pages/pages/PageForm.jsx:79 | only the slug changes |
| PageForm.PageEditor.EditContent | Downloads/cms/admin/src/pages/pages/PageForm.jsx:92 | only the content changes |
| PageForm.PageEditor.SetPublished | Downloads/cms/admin/src/pages/pages/PageForm.jsx:102 | only the published flag changes |
| PageForm.PageEditor.Loaded | Downloads/cms/admin/src/pages/pages/PageForm.jsx:18-25 | the state becomes the loaded page's form |
| Layout.RootActiveIff | Downloads/cms/admin/src/components/Layout.jsx:54 | the root entry is highlighted only on `/` |
| Layout.PrefixActive | Downloads/cms/admin/src/components/Layout.jsx:54 | any other entry is highlighted on every path starting with its own, with no segment boundary (`/postsX` highlights `/posts`) |
| Layout.AtMostOneActive | Downloads/cms/admin/src/components/Layout.jsx:12-54 | whatever the path, at most one of the four entries is highlighted |
| Layout.Split | Downloads/cms/admin/src/components/Layout.jsx:98 | `split('/')` always yields at least one part |
| Layout.SplitFirst | Downloads/cms/admin/src/components/Layout.jsx:98 | the first part runs up to the first `/` |
| Layout.BreadcrumbSegment | Downloads/cms/admin/src/components/Layout.jsx:98 | on `/segment…` other than `/`, the breadcrumb is the text between the first and the second `/` |
| Layout.BreadcrumbExamples | Downloads/cms/admin/src/components/Layout.jsx:98 | `/` shows `Overview`, and `/posts/new` shows `posts` |
| Layout.Shell.constructor | Downloads/cms/admin/src/components/Layout.jsx:10 | the sidebar starts closed |
| Layout.Shell.Handle | Downloads/cms/admin/src/components/Layout.jsx:19-59 | the menu button flips the sidebar, and the backdrop, the close button and a navigation link close it |

## Left out

- Regular expressions: the engine behind `new RegExp(p).test(s)` is the caller-supplied `matches` parameter. The two patterns in the schema (letters only; a basic e-mail shape) are not interpreted.
- Numbers are unbounded integers in the model. JavaScript numbers are doubles, exact only up to 2^53, and `String(n)` switches to exponent form from 1e21 (`parseInt(String(1e21))` is 1). So Strings.ParseIntOfIntToString, Validator.ToNumber, FormController.IntOr and FormController.TotalPages hold as stated only within the safe integer range.
- Repeated query parameters are not modelled. Express parses `?page=1&page=2` into an array; `parseInt` would read its text `"1,2"` as 1, and an array search would become the pattern `%a,b%`. FormController.Query holds at most one string per parameter.
- Validator.ToNumber: models `Number(value)` for integers only. It trims whitespace at both ends, handles the sign and decimal digits, reads `''` as 0, and reads an array of several items as NaN. Fractions, exponents, the `0x`/`0b`/`0o` prefixes and `Infinity` are not modelled: such text is read as NaN, which passes both bounds, where JS would compare its value.
- Validator.ParseDate: only `YYYY-MM-DD` strings with month 1-12 and day 1-31 are dates. The rest of `new Date`'s formats, calendar validity (such as 2023-02-31) and numeric timestamps are not modelled. Anything else is an Invalid Date, whose comparison is false and so never reports.
- Json.Value has no nested objects or floating-point numbers, and array items are strings only: an array of numbers such as `[1,2]`, which `JSON.stringify` writes without quotes, is not modelled. A submitted record is kept as its list of entries, and the text stored for it is `JSON.stringify` of the object parsed from it.
- Json.Stringify, FormController.Matches: the parsed object keeps each key at its first position, as `JSON.parse` does. JavaScript also lists integer-like keys (such as `"2"`) first, in ascending order; that reordering is not modelled. It changes only where an entry stands in the text, so a value's presence in it is unaffected.
- FormController.Matches: reads `LIKE '%search%'` as a plain, case-sensitive substring test on the stored JSON text. It leaves out SQLite's ASCII case folding and the `%` and `_` wildcards that a search string may itself contain.
- FormController.Ordered, FormController.PagesCoverRows, FormController.PageSizes: fix one order for rows with equal `createdAt`. SQLite leaves that order open, and each page is a separate query. So for `Ordered` only sortedness and the permutation are claimed. The paging lemmas' "every row once, in order" holds only when the database returns equal timestamps in the same order on every query.
- FormController.SubmissionStore.Create: the INSERT either adds the row or throws. The `info.changes === 0` branch, which would answer 500 `Failed to save submission`, cannot be reached in the model. The constraint error's code (`SQLITE_CONSTRAINT_PRIMARYKEY`) is what better-sqlite3 reports, and that driver is not part of this model.
- uuid generation and the clock (`uuidv4()`, `new Date().toISOString()`) are parameters of `Create`.
- getFormSchema only sends the constant schema. It is the constant `FormSchema.Onboarding` and has no operation of its own.
- The error stack trace, `console.error`, Express's `res.status().json()`, `catchAsync`'s forwarding of rejected promises, and the `NODE_ENV` lookup are left out. The mode is a parameter, and the JSON body is a datatype.
- `handleCastErrorDB` is defined in the source but never called there. It is modelled on its own.
- The front end's requests and effects (axios, React Query caching, `toast`, `alert`, `navigate`, the categories fetch) and the `loading` and `uploading` flags are not modelled. The `data.data || data` unwrap of a loaded post or page is left out because `Value` has no nested objects.
- The `sortBy: 'createdAt'` query parameter the dashboard sends is not modelled; the server ignores it.
- SubmissionPage.ServerReadsRequest requires a page of at least 1 and a positive page size. Those are what the dashboard's state can hold; 0 would fall back to the server's default.
- The table library's next, previous and page-size controls and the details drawer are library behaviour and are left out. Only the state they start from and the sort toggle are modelled.
- Strings.LowerAscii, PostForm.SlugChar, PostForm.Slug: lower ASCII capitals only. Unicode `toLowerCase` (other scripts, special casing such as `İ`) is not modelled.
- Layout: the CSS `capitalize` of the breadcrumb, the icons, logout and the authentication context are left out.
