# Phati medicine finder: the simulated back end and two forms, in Dafny

The application lets people in eastern Congo find a medicine in nearby pharmacies, ask a
canned symptom advisor, reserve a medicine, report a suspect medicine, and ask to be told on
WhatsApp when a medicine is back. All of its logic runs in the browser. A simulated data service
holds a fixed five-medicine catalog and a four-row advisor table. It answers searches, id lookups
and advisor questions, and it keeps two append-only ledgers in the browser's local storage:
reservations and quality reports. Every service call except the two list readers
(`getUserReservations`, `getUserReports`) first checks that the browser is online.
Two components add their own validation and state rules:

- the quality-report form: required fields, single-field updates, reset to the empty form;
- the WhatsApp notification dialog: blank check, digit stripping, a ten-digit minimum, and
  an append to a third stored list.

The model is pure. The online flag, the clock and the random id suffix are parameters. Local
storage is a value (`Storage.Store`) that each ledger operation takes and returns.

| module | file | what it holds |
|---|---|---|
| `Outcomes` | outcomes.dfy | `Option`, `Result`, and the connectivity error with its message |
| `Text` | text.dfy | ECMAScript `trim`, ASCII `toLowerCase`, substring occurrence and `includes`, digit filtering, decimal rendering of a clock reading, `substr` |
| `Seqs` | seqs.dfy | `filter`, `map`-then-`filter(Boolean)`, and first-match `find`, with lemmas characterising each by positions |
| `Records` | records.dfy | the entities, the catalog and the advisor table with their exact data, the clock readings |
| `Storage` | storage.dfy | the three local-storage keys, absent or holding a list |
| `DataService` | data_service.dfy | the connectivity guard, search, lookup, the advisor, both ledgers |
| `ReportForm` | report_form.dfy | issue types, `handleInputChange`, `handleSubmit`, Clear Form, the form driven by user actions |
| `NotificationDialog` | notification_dialog.dfy | the dialog's `handleSubmit` |
| `Scenarios` | scenarios.dfy | worked examples over the fixed data |

Behaviour of the code worth noting:

- `submitQualityReport` validates nothing.
- `getUserReservations` and `getUserReports` are not behind the connectivity guard.
- `reserveMedicine` checks neither id against the catalog and takes no stock.
- Ticking "anonymous" hides the contact input but does not clear `contactInfo`, which is still
  submitted.
- Only a non-blank query filters the catalog. A whitespace-only query returns the whole catalog,
  including entries that do not contain it (`DataService.BlankQueryReturnsCatalog`).

## Model

| member | source | states |
|---|---|---|
| DataService.CheckOnline | src/services/dataService.ts:114-118 | fails exactly when offline, with the fixed "You are currently offline…" message |
| DataService.SearchMedicines | src/services/dataService.ts:121-135 | guarded: fails with the connectivity error exactly when offline; online it answers the catalog search |
| DataService.BlankQueryReturnsCatalog | src/services/dataService.ts:125-127 | a query of whitespace only returns the whole catalog, unchanged and in order |
| DataService.SearchIsOrderedFilter | src/services/dataService.ts:129-134 | for any other query the result is the order-preserving subsequence of exactly those entries whose lowered name, generic name or description contains the lowered query: no match missed, no non-match kept |
| DataService.SearchResultsAreHits | src/services/dataService.ts:129-134 | every result of a non-blank search contains the lowered query in one of its three text fields |
| DataService.FindById | src/services/dataService.ts:141 | nothing exactly when no entry has the id; otherwise the first entry carrying it |
| DataService.GetMedicineById | src/services/dataService.ts:137-142 | guarded; online, an unknown id is a successful "nothing", not an error |
| DataService.FindByIdInverse | src/services/dataService.ts:141 | in a catalog with distinct ids, looking up an entry's id returns that entry |
| DataService.GetAIResponse | src/services/dataService.ts:144-167 | guarded; online it answers with the advisor over the fixed catalog and table |
| DataService.AdviseFirstMatch | src/services/dataService.ts:148-160 | the answering row is the first in table order whose keyword occurs in the lowered query, whatever later rows also match |
| DataService.AdviseFallback | src/services/dataService.ts:162-166 | with no keyword present, the answer is the fallback text, which contains the query as typed (not lowered), and nothing is recommended |
| DataService.ResolvePositions | src/services/dataService.ts:156-158 | the recommendations are the row's ids mapped to catalog entries in the row's order, with exactly the ids unknown to the catalog dropped |
| DataService.RandomSuffix | src/services/dataService.ts:174 | `substr(2, 9)` of the base-36 rendering: the characters from position 2 up to position 11, or to the end when the rendering is shorter, and empty when it has fewer than three characters |
| DataService.GeneratedIdInjective | src/services/dataService.ts:174 | a generated `PREFIX-<ms>-<suffix>` id determines the clock reading and the suffix it was made from |
| DataService.ReserveMedicine | src/services/dataService.ts:169-192 | guarded; offline the store is unchanged; online exactly one record is appended to the reservations, earlier ones unchanged, and the other two lists are untouched |
| DataService.ReservationRecord | src/services/dataService.ts:174-186 | the new reservation is confirmed, has the given ids and quantity (1 when omitted), the `RES-` id built from the id clock reading and the random suffix, the creation reading as `createdAt`, the expiry reading plus 86,400,000 ms as `expiresAt`, and so expires 86,400,000 ms after creation when the clock does not move during the call (at least that much when it only moves forward); it is the last stored reservation |
| DataService.FirstReservation | src/services/dataService.ts:177-189 | with nothing stored both list readers give the empty list, and after the first reservation the reservations list holds just that record while the reports list stays empty |
| DataService.SubmitQualityReport | src/services/dataService.ts:194-211 | guarded; offline the store is unchanged; online exactly one report is appended, earlier ones unchanged, the other lists untouched |
| DataService.ReportRecord | src/services/dataService.ts:200-205 | the report keeps the caller's fields, always has status `submitted` and the current time, and takes the caller's `id` when one is given, otherwise the `QR-` id built from the id clock reading and the random suffix |
| DataService.CallerStatusIgnored | src/services/dataService.ts:200-205 | the caller's `status` and `createdAt` never reach the stored report |
| DataService.ReportsGrowByOne | src/services/dataService.ts:199-219 | after a submit, the listed reports are the earlier list in order plus the new report last |
| DataService.OfflineFailsEverywhere | src/services/dataService.ts:114-195 | offline, search, lookup, advisor, reserve and report all fail with the connectivity error, and neither ledger changes |
| Records.CatalogWellFormed | src/services/dataService.ts:3-86 | the catalog has five entries with distinct ids, and each entry is in stock exactly when one of its pharmacies holds stock |
| Storage.Push | src/services/dataService.ts:188-189 | pushing to a key leaves it present and holding the earlier list plus the new record at the end, an absent key reading as the empty list |
| Text.TrimEmptyIffAllWhitespace | src/services/dataService.ts:125 | `trim` yields the empty string exactly when every character is ECMAScript whitespace or a line terminator |
| Text.Lower | src/services/dataService.ts:129 | lowering keeps the length and maps every character through the ASCII lower-case map |
| Text.LowerIdempotent | src/services/dataService.ts:129 | lowering twice is lowering once |
| Text.Includes | src/services/dataService.ts:130-134 | `includes` answers true exactly when the needle occurs at some position of the haystack |
| Text.Substr | src/services/dataService.ts:174 | `substr(start, length)` is the slice from `start` of exactly `length` characters when the string is long enough, otherwise the whole tail from `start`, and empty past the end |
| Text.ParseNatToString | src/services/dataService.ts:174 | the decimal rendering of a clock reading reads back to that reading |
| Text.NatToStringInjective | src/services/dataService.ts:174 | distinct readings render to distinct digit strings |
| Seqs.FilterPositions | src/services/dataService.ts:130-134 | `filter` keeps exactly the elements satisfying the test, in their original order |
| Seqs.FilterMapPositions | src/services/dataService.ts:156-158 | `map(f).filter(Boolean)` keeps exactly the found values, in order |
| Seqs.FindFirst | src/services/dataService.ts:149-151 | `find` returns the first position passing the test, or nothing exactly when none passes |
| Scenarios.SearchParacetamol | src/services/dataService.ts:121-135 | searching for "paracetamol" returns only the id '1' record |
| Scenarios.CatalogLookups | src/services/dataService.ts:137-142 | ids '1' to '5' look up Paracetamol, Amoxicillin, Ibuprofen, Aspirin and Metformin |
| Scenarios.AdvisorIdsAllResolve | src/services/dataService.ts:88-109 | every id the advisor table recommends names a catalog entry, so none is ever dropped |
| Scenarios.HeadacheAdvice | src/services/dataService.ts:144-160 | "I have a headache" gets the headache answer and recommends ids '1' and '3', in that order |
| Scenarios.PurpleElephantFallback | src/services/dataService.ts:162-166 | "purple elephant" gets the fallback answer and no recommendation |
| ReportForm.ParseIssue | src/components/MedicineReportForm.tsx:33-40 | an id names an issue kind exactly when it is one of the six ids, and then the kind's id is that id |
| ReportForm.IssueIdsRoundTrip | src/components/MedicineReportForm.tsx:33-40 | every kind's id is among the six and reads back to the kind |
| ReportForm.HandleInputChange | src/components/MedicineReportForm.tsx:42-44 | the named field takes the new value and every other field keeps its value |
| ReportForm.InputChangeLaws | src/components/MedicineReportForm.tsx:42-44 | writing a field's current value changes nothing; writing a field twice keeps only the second value |
| ReportForm.HandleSubmit | src/components/MedicineReportForm.tsx:46-77 | refused exactly when medicine name, issue type or description is the empty string, with the form unchanged; otherwise the submitted data is the form and the form returns to the initial state |
| ReportForm.OptionalFieldsIgnored | src/components/MedicineReportForm.tsx:50 | pharmacy, location, anonymous and contact never block a submit, and a medicine name of blanks passes |
| ReportForm.ClearFormResets | src/components/MedicineReportForm.tsx:244-252 | Clear Form empties every text field and unticks anonymous; clearing twice equals clearing once, and a successful submit lands in the same state |
| ReportForm.StepKeepsIssueType | src/components/MedicineReportForm.tsx:166-170 | no single user action puts anything but one of the six ids (or nothing) into the issue type |
| ReportForm.RunKeepsIssueType | src/components/MedicineReportForm.tsx:33-40 | starting from a valid form, any sequence of user actions keeps the issue type unset or one of the six ids |
| ReportForm.ClearAtEndResets | src/components/MedicineReportForm.tsx:244-252 | whatever the user did before, pressing Clear Form ends in the initial state |
| NotificationDialog.HandleSubmit | src/components/WhatsAppNotificationDialog.tsx:24-68 | accepted exactly when the input holds at least ten digits; a blank input gets the phone-required rejection and any other input with fewer than ten digits the invalid-number one, and a rejection changes neither the field nor the store; an acceptance appends one active request holding the cleaned number, the medicine name and the decimal rendering of the clock reading as its id, leaves the other lists alone, and clears the field |
| NotificationDialog.BlankHasNoDigits | src/components/WhatsAppNotificationDialog.tsx:24-35 | a blank input has no digits, so the blank check never rejects an input the ten-digit check would accept |
| NotificationDialog.CleanPhoneIsInputDigits | src/components/WhatsAppNotificationDialog.tsx:34 | the cleaned number is the input with every non-digit removed: all its digits, in order, and nothing else |
| NotificationDialog.CleaningIdempotent | src/components/WhatsAppNotificationDialog.tsx:34 | cleaning a cleaned number changes nothing, and an all-digit input is already clean |
| NotificationDialog.FormattedNumberAccepted | src/components/WhatsAppNotificationDialog.tsx:34-58 | "+243 123 456 789" is accepted and stored as "243123456789" |

## Left out

- Simulated latency (the `delay` and `setTimeout` waits) only affects timing, so it is not modelled.
- `Date.now()` and `new Date()` are passed in as a `Clock` of readings, one per read the call makes. `Math.random().toString(36)` is passed in as its rendered text.
- ISO-8601 formatting of `createdAt` and `expiresAt` is left out. Times are kept as milliseconds.
- JSON (de)serialisation of the stored lists is left out. Each local-storage key is an optional list of records.
- A storage failure and the dialog's `catch` branch are left out, because the model's store cannot fail.
- `navigator.onLine` is a boolean parameter.
- `onlineStatusListener` registers browser event handlers, which have no pure counterpart.
- Text.Lower: maps only ASCII capitals, whereas JavaScript's `toLowerCase` maps all of Unicode.
- Reservation quantities are integers. The source's `quantity` is a JavaScript number: a fraction is stored unchanged, while `NaN` or an infinity is returned as is but stored as `null` by `JSON.stringify`. The model represents none of these.
- Pharmacy ratings are kept as integer tenths. Prices, distances, dates and phone numbers are opaque strings.
- Toasts, console logging and rendering are left out.
- The dialog's `isSubmitting` flag and `onClose` callback are left out.
- `handleInputChange` is typed loosely in the source. The model only admits text for text fields and a flag for the anonymous box (`FitsField`).
- The report passed to `submitQualityReport` holds the form's fields plus optional `id`, `status` and `createdAt` keys. Other extra keys are not modelled.
- The assistant chat component, the mock search page and the remaining presentation components are not part of this model.
- Notification ids are the decimal rendering of the clock reading: two requests in the same millisecond would share it, and the model does not rule that out.
