# Employee directory UI — a verified model of its form and list logic

This project models the client-side logic of two React components of an
employee-directory web application, and proves what that logic promises.

- **The intake form** (`src/AddEmployee.js`) is modelled as the class
  `Intake.IntakeForm`. Its state is:
  - `formData`: eight text fields;
  - `errors`: a map from field key to message;
  - `successMessage`;
  - `loading`.

  Its methods are the change handler, with its special rule for the phone
  field, the reset, the validation, and the submit handler.
  - Validation is specified field by field (`ValidationErrors`: each
    field judged alone). The proofs show that the form's sequence of
    checks, each overwriting what came before, computes exactly that.
  - The submit handler is cut at its network request. `Submit` validates
    and either stops with the errors or hands back the body to send.
    `CompleteSubmit` applies the request's outcome: created (201), a
    server error with or without a payload, or no response.
  - The submit button's `disabled` rule is the predicate `SubmitDisabled`:
    the button is disabled while loading or while some error text is
    non-empty.
  - The error map stores `Message` values. `MessageText` renders each one
    as the exact string the form stores. `NoError` is the `''` that clears
    an error, and `ServerText` carries a string sent by the server.
- **The e-mail pattern** `^[a-zA-Z0-9._%+-]+@[a-zA-Z0-9.-]+\.[a-zAOH]{2,}$`
  is modelled as written (module `EmailPattern`). Its top-level-domain class
  holds the lower-case letters and only the capitals `A`, `O` and `H`.
  - `EmailMatches` splits the address at the first `@`, then at the last
    `.` of the domain.
  - `EmailMatchesIff` proves this equal to the pattern's own meaning: some
    split into local part, `@`, domain, `.` and top-level domain.
- **The directory view** (`src/ViewEmployees.js`) is modelled in module
  `Directory`.
  - The list operations are functions on sequences: the delete filter, the
    lookup by id, the update patch, the case-insensitive name search and
    the truncation of long first names.
  - The handlers are methods of the class `Directory.DirectoryView`.
  - `Text.Filter` models `Array.prototype.filter` once, for both the delete
    and the search.

Inputs from outside are parameters:
- The clock is `today`: the UTC calendar day, written as the number
  YYYYMMDD. A `YYYY-MM-DD` string denotes midnight UTC of its day, so it is
  later than the current instant exactly when its day comes after today.
- The outcome of every HTTP request is a parameter of the handler that
  awaits it.
- The answer to the delete confirmation dialog is also a parameter.

Validation is written as two methods. `RequireAll` makes the eight
"required" checks. `IntakeForm.ValidateForm` calls it and then applies the
three format checks. Keeping them apart keeps each proof small.

## Model

| member | source | states |
|---|---|---|
| `Text.ToLower` | src/ViewEmployees.js:93 | lower-casing keeps the length and moves each ASCII capital down to its small letter, leaving every other character |
| `Text.ContainsIff` | src/ViewEmployees.js:93 | `includes` holds exactly when the query occurs at some position of the name |
| `Text.Filter` | src/ViewEmployees.js:92-94 | the filter result holds each accepted element exactly as often as the input does and no rejected element |
| `Text.FilterIsSubsequence` | src/ViewEmployees.js:40 | the filter result keeps its elements in the order of the input |
| `Text.FilterKeepsAll` | src/ViewEmployees.js:92-94 | filtering with a test every element passes returns the input unchanged |
| `Text.FilterIdempotent` | src/ViewEmployees.js:40 | filtering twice with the same test equals filtering once |
| `EmailPattern.ScannerSound` | src/AddEmployee.js:23 | an address `EmailMatches` accepts splits, at its first '@' and the last '.' after it, into a local part, a domain and a top-level domain the pattern allows |
| `EmailPattern.ScannerComplete` | src/AddEmployee.js:23 | every string the pattern describes is accepted by `EmailMatches` |
| `EmailPattern.EmailMatchesIff` | src/AddEmployee.js:23 | the scanning test accepts exactly the strings the regular expression describes |
| `EmailPattern.AcceptedHasOneAt` | src/AddEmployee.js:23 | an accepted address contains exactly one '@' |
| `EmailPattern.AcceptedDomainHasDot` | src/AddEmployee.js:23 | an accepted address has a '.' after its '@', so a domain without a dot is refused |
| `EmailPattern.AcceptsPlainAddress` | src/AddEmployee.js:23 | `a.b@x.co` is accepted |
| `EmailPattern.RejectsMissingTopLevelDomain` | src/AddEmployee.js:23 | `a.b@x` is refused |
| `EmailPattern.RejectsCapitalisedTopLevelDomain` | src/AddEmployee.js:23 | `a@b.Com` is refused, because `C` is not in the class `[a-zAOH]` |
| `EmailPattern.AcceptsListedCapitals` | src/AddEmployee.js:23 | `a@b.OH` is accepted, because `O` and `H` are in the class |
| `Intake.RequiredText` | src/AddEmployee.js:117-124 | every "required" message is non-empty, so it disables the submit button |
| `Intake.MessageText` | src/AddEmployee.js:117-135 | only the cleared entry and an empty server string read as ''; every message the form sets itself is non-empty |
| `Intake.EmptyForm` | src/AddEmployee.js:8-17 | the initial form has exactly the eight fields, all '' |
| `Intake.PhoneInputEditing` | src/AddEmployee.js:30 | the phone input test accepts one more character exactly when it is a digit and fewer than ten are held, and always accepts deleting the last character |
| `Intake.PhoneInputExamples` | src/AddEmployee.js:30 | '' and ten digits are accepted; eleven digits and a '-' are refused |
| `Intake.StampOrder` | src/AddEmployee.js:134 | the number YYYYMMDD orders two days as the calendar does |
| `Intake.IsFutureIff` | src/AddEmployee.js:134 | a joining date is in the future exactly when it is a well-formed `YYYY-MM-DD` date whose day comes after today |
| `Intake.TodayIsNotFutureButTomorrowIs` | src/AddEmployee.js:134 | a joining date equal to today is not in the future, the next day is |
| `Intake.FieldError` | src/AddEmployee.js:117-136 | an empty field gets its "required" message, and a reported message is never the cleared entry or a server string |
| `Intake.ValidationErrors` | src/AddEmployee.js:114-139 | the result's keys are field keys only, and every empty field is reported with its own "required" message |
| `Intake.RequiredChecksAt` | src/AddEmployee.js:117-124 | after the eight "required" checks, exactly the empty fields are reported, each with its own message |
| `Intake.FormatChecksAt` | src/AddEmployee.js:126-136 | the phone, e-mail and date checks overwrite only their own field's entry, and only when that filled-in value is refused |
| `Intake.RulesInTurn` | src/AddEmployee.js:114-139 | applying the checks one after another yields each field's verdict judged alone |
| `Intake.ValidationPassesIff` | src/AddEmployee.js:114-138 | validation returns `{}` iff every field is filled, the phone has 10 characters, the e-mail matches and the date is not after today |
| `Intake.FieldPassesIff` | src/AddEmployee.js:117-136 | one field passes iff it is filled and, for phone, e-mail and date, well formed |
| `Intake.PhoneLengthReported` | src/AddEmployee.js:126-128 | a filled-in phone whose length is not 10 is reported with the "exactly 10 digits" message |
| `Intake.FieldsJudgedAlone` | src/AddEmployee.js:117-136 | a field's verdict depends on that field's value alone |
| `Intake.KeyOfFieldName` | src/AddEmployee.js:104 | a payload key that spells a field's name lands on that field's own error key, the one the change handler clears |
| `Intake.ServerMessages` | src/AddEmployee.js:104 | a server payload becomes the error map whose keys are the payload's key names and which holds, under each, the payload's text |
| `Intake.SubmittedPhoneHasTenDigits` | src/AddEmployee.js:126-128 | a form that passes validation, whose phone value the change handler let in, holds exactly ten ASCII digits there |
| `Intake.RequireAll` | src/AddEmployee.js:115-124 | the eight checks in field order report exactly the empty fields, each with its own "required" message |
| `Intake.IntakeForm.constructor` | src/AddEmployee.js:8-21 | the form starts with all fields empty, no errors, no success message and not loading |
| `Intake.IntakeForm.SubmitDisabled` | src/AddEmployee.js:263 | the button is disabled exactly while loading or while some stored message is neither the cleared entry nor an empty server string |
| `Intake.IntakeForm.HandleChange` | src/AddEmployee.js:25-61 | a phone value is stored only when it is 0 to 10 ASCII digits, and its error is cleared only at exactly 10 digits; a refused phone value leaves the form unchanged and sets the "Only numbers" message; any other field is written and its error cleared; nothing else changes |
| `Intake.IntakeForm.HandleReset` | src/AddEmployee.js:63-76 | every field is '', the errors are `{}` and the success message is ''; `loading` is kept, and with no request in flight the button is enabled again |
| `Intake.IntakeForm.ValidateForm` | src/AddEmployee.js:114-139 | the rules applied in the form's order produce exactly the field-by-field specification |
| `Intake.IntakeForm.Submit` | src/AddEmployee.js:78-88 | a failed validation sets the errors to its result, sends nothing, ends not loading with the button disabled; otherwise the form's data is the request body and loading is set; a body sent holds a ten-digit phone number |
| `Intake.IntakeForm.CompleteSubmit` | src/AddEmployee.js:89-111 | for a 2xx status, 201 shows the success message; a server error stores its payload under the keys its names denote, or the "An error occurred" message when there is none; no response stores the "unexpected error" message; loading always ends |
| `Directory.RemoveById` | src/ViewEmployees.js:40 | the list after a delete holds every record with another id exactly as often as before and none with the deleted id |
| `Directory.RemoveKeepsOrder` | src/ViewEmployees.js:40 | a delete keeps the remaining records in their order |
| `Directory.RemoveAbsentId` | src/ViewEmployees.js:40 | deleting an id no record has leaves the list unchanged |
| `Directory.RemoveIdempotent` | src/ViewEmployees.js:40 | deleting the same id twice equals deleting it once |
| `Directory.FindIndex` | src/ViewEmployees.js:50 | the index found holds the id, and no earlier record does |
| `Directory.FindById` | src/ViewEmployees.js:50 | the lookup finds nothing iff no record has the id, and otherwise returns the first record of the list with that id |
| `Directory.DraftOfCopiesEditableFields` | src/ViewEmployees.js:51-58 | two records give the same draft exactly when they differ at most in id, first name and last name |
| `Directory.ApplyDraft` | src/ViewEmployees.js:70 | the patched record carries exactly the draft's six fields and keeps its id, first name and last name; an unchanged draft changes nothing |
| `Directory.ApplyDraftTwice` | src/ViewEmployees.js:70 | a later draft replaces an earlier one completely |
| `Directory.SetDraftField` | src/ViewEmployees.js:80-86 | an edit sets exactly the edited draft field and leaves the other five |
| `Directory.PatchById` | src/ViewEmployees.js:69-71 | the update keeps the length, order, ids and names of the list; records with the selected id take the draft, and every other record is unchanged |
| `Directory.PatchIdempotent` | src/ViewEmployees.js:69-71 | applying the same draft twice equals applying it once |
| `Directory.PatchWithoutSelection` | src/ViewEmployees.js:69-71 | with no record selected the update changes nothing |
| `Directory.MatchesIff` | src/ViewEmployees.js:93 | a record matches exactly when the lower-cased query occurs at some position of its lower-cased name, a missing name read as '' |
| `Directory.SearchByName` | src/ViewEmployees.js:92-94 | the search holds exactly the records whose lower-cased name (missing reads as '') contains the lower-cased query, each as often as in the list |
| `Directory.SearchKeepsOrder` | src/ViewEmployees.js:92-94 | the search result is in list order |
| `Directory.EmptyQueryKeepsAll` | src/ViewEmployees.js:92-94 | the empty query keeps every record |
| `Directory.SearchIgnoresQueryCase` | src/ViewEmployees.js:93 | the query's letter case does not change the result |
| `Directory.NamelessMatchesOnlyEmpty` | src/ViewEmployees.js:93 | a record without a name matches only the empty query |
| `Directory.DisplayFirstName` | src/ViewEmployees.js:128 | a first name of at most 10 characters is shown unchanged, a longer one as its first 10 characters followed by "...", 13 in all |
| `Directory.DirectoryView.constructor` | src/ViewEmployees.js:7-19 | the view starts with no employees, no query, no selection, an empty draft, the overlay closed and no message |
| `Directory.DirectoryView.FilteredEmployees` | src/ViewEmployees.js:92-94 | the rows shown are the employees matching the current query, each as often as in the list and in list order |
| `Directory.DirectoryView.LoadEmployees` | src/ViewEmployees.js:22-30 | a fetched list replaces the employees and clears the message; a failed fetch keeps them and shows the failure message |
| `Directory.DirectoryView.HandleDelete` | src/ViewEmployees.js:35-47 | a confirmed, successful delete removes exactly the records with that id; a failed one keeps the list and shows the failure message; a cancelled one changes nothing |
| `Directory.DirectoryView.HandleUpdate` | src/ViewEmployees.js:49-62 | for an id in the list, the draft becomes the six editable fields of its first record, that id is selected, the overlay opens and the message clears; otherwise nothing changes |
| `Directory.DirectoryView.HandleUpdateSubmit` | src/ViewEmployees.js:64-78 | a saved update patches the selected records (from the open overlay: exactly those whose id is the selected one, the rest unchanged), closes the overlay and shows the success message; a failed one keeps list and overlay and shows the failure message |
| `Directory.DirectoryView.CancelUpdate` | src/ViewEmployees.js:219 | Cancel closes the overlay and changes nothing else |
| `Directory.DirectoryView.HandleChange` | src/ViewEmployees.js:80-86 | an input edit sets that draft field and changes nothing else |
| `Directory.DirectoryView.HandleSearch` | src/ViewEmployees.js:88-90 | the query is replaced and nothing else changes |

## Left out

- HTTP requests: the axios calls and the backend URLs are not modelled. Each request's outcome is an input: `CreateOutcome`, the `saved` and `succeeded` flags, and the optional fetched list. The create request's body is `Submit`'s result. The update request's body (`updatedEmployeeData`, src/ViewEmployees.js:67) and the id in the delete URL are not handed back by their handlers.
- Fetch on mount: the `useEffect` timing is not modelled. `LoadEmployees` is only the handler that runs when the fetch settles.
- Console logging: the `console.error` calls are not modelled.
- Auto-reset: the 3-second timer after a successful create is not modelled. The reset it triggers is a later `HandleReset` call.
- Delete confirmation: `window.confirm` is not modelled. Its answer is the `confirmed` parameter.
- Date parsing:
  - The field is a `type="date"` input, which holds '' or a date string. The model treats only `YYYY-MM-DD` strings with a four-digit year, month 1-12 and day 1-31 as dates, and any other string as not in the future. The model does not cover a year of more than four digits, which the input allows, or JavaScript's parsing of other strings, such as `"2030"` or a date-time.
  - Days past the end of their month are compared as written.
  - Time zones other than UTC calendar days are not modelled.
  - The date input's `max` attribute (src/AddEmployee.js:241) is not modelled.
- Text: `toLowerCase` is modelled on ASCII letters only. String lengths count characters, not UTF-16 code units.
- React's batched, asynchronous state updates are not modelled. Handlers apply their updates in order.
- Concurrency: in the source, the `disabled` rule (src/AddEmployee.js:263) rules out a second submit while a request is in flight. The model does not forbid one: `Submit` does not require `!loading`. React's stale closures over earlier state are not modelled.
- Server error payloads:
  - Only maps from keys to strings are modelled.
  - Arrays, nested objects and non-object payloads are not.
  - A payload's keys are plain names. `KeyOf` maps each name to an error key: a field's name to that field's key, and any other name to a key of its own.
- Status handling: axios by default rejects a response whose status is not 2xx. `CompleteSubmit` therefore requires a `Responded` outcome to carry a 2xx status, and any other status arrives as `Rejected`.
- `Intake.IntakeForm.CompleteSubmit`: a server string equal to a form message is kept as a distinct `ServerText` value, though it renders the same. Map equality in the contract is therefore finer than equality of the stored strings.
- `Directory.DirectoryView.HandleUpdate`: an id that is not in the list makes the source throw before any state changes. The model reports this as `found == false` with the state unchanged.
- Employee records hold nine fields. Eight are fields the view reads, and `last_name` is carried over from the intake form. Other backend fields, and ids compared across number and string types, are not modelled.
- Unused handlers: in src/ViewEmployees.js the search input (lines 100-105) and the Update button (line 134) are commented out. As written, nothing calls `handleSearch` or `handleUpdate`, `searchQuery` stays '' and the update overlay never opens. `HandleSearch` and `HandleUpdate` model those handlers as they would behave if they were called.
- The JSX rendering, the CSS and the routing shell in src/App.js are not modelled.
