# Shipment tracking: a Dafny model

This project models the core of a small Django shipment-tracking service. A shipment
record is keyed by its bill-of-lading (BL) number. Anonymous clients look a record
up by its BL number, its container number or its chassis number. Staff manage the
records in the admin interface, and a seeding script inserts five sample shipments.

The model has five modules, one per source file or concern:

- `Text` (`text.dfy`): Python's `str.strip()` with the `str.isspace` character set;
  the pattern `^[a-zA-Z0-9]+$` as `re.match` applies it, including the `$` that also
  matches before a final newline; the ASCII case folding behind `iexact`; and the
  decimal rendering of a count.
- `Models` (`models.dfy`): the `Shipment` record, the two choice tables and their
  display labels, the overdue rule and the charge totals. It also holds the record
  table as a class, whose `GetOrCreate` method is Django's `get_or_create`.
- `Views` (`views.dfy`): `track_shipment`, `api_shipment_status` and the
  recent-arrivals list on the home page. All three are pure functions of the request,
  the table and today's date.
- `Admin` (`admin.dfy`): the coloured list columns, the export columns, the two bulk
  actions and the upload rule for attachments. The bulk actions are methods that
  update the table in place.
- `ExampleData` (`example_data.dfy`): the five samples and the seeding loop.

Conventions:

- Dates are day numbers (`Day = int`) and money is integer cents.
- "Today" is a parameter wherever the source reads the clock. One reply reads it once:
  the several clock reads of the source are merged into one (see "## Left out").
- The query string, the JSON body and the HTTP method are inputs.
- The storage service's reply to an upload is an input too.

The model follows what the code enforces, which is looser than the field help texts
and the docstrings suggest:

- No validator bounds the four money fields below, so a record may hold a negative
  amount. `ValidRecord` bounds only their digits.
- On a database with a case-sensitive collation (the default for SQLite and
  PostgreSQL), `bl_number` is unique case-sensitively while lookups ignore case.
  "BL7" and "bl7" can then both be stored, and a lookup meets two rows
  (`Views.AmbiguousDespiteUniqueBl`). Under a case-insensitive collation the unique
  index would refuse the second row; the model takes the case-sensitive reading.
- A query that matches several rows is not handled uniformly:
  - `track_shipment` turns it into its sanitized 500 reply;
  - `api_shipment_status` does not catch it, so the framework answers with its own
    500 page (`ServerError`), not a JSON `error` body.

  Both are modelled as the code has them.
- The comment above the upload in `save_model` speaks of uploading when the file has
  changed, but the guard uploads only while no Drive id is recorded. A replaced file
  is therefore never uploaded again once an id exists. `Admin.AdminUpload.SaveModel`
  follows the guard, and `Admin.SaveTwice` states the consequence.
- The status columns hold raw strings, because choices are checked by forms and not
  by the database. The display labels fall back to the stored value, as
  `get_FOO_display` does, and the freight colour falls back to black.

## Model

| member | source | states |
|---|---|---|
| Text.Strip | shipments/views.py:47 | the stripped text is no longer than the input, and a non-empty result has no whitespace at either end |
| Text.StripIsInfix | shipments/views.py:47 | the stripped text is the infix of the input between two positions |
| Text.StripDropsLeadingSpace | shipments/views.py:47 | only whitespace lies before that infix |
| Text.StripDropsTrailingSpace | shipments/views.py:47 | only whitespace lies after it |
| Text.StripSkipsLeadingSpace | shipments/views.py:47 | a leading whitespace character does not change the stripped text |
| Text.StripAlnum | shipments/views.py:47 | a string of letters and digits strips to itself |
| Text.PatternOnStripped | shipments/views.py:56 | on stripped text the pattern holds exactly for non-empty ASCII letters and digits, so the trailing-newline case of `$` cannot occur |
| Text.PatternAcceptsTrailingNewline | shipments/views.py:56 | on unstripped text `$` also accepts a final newline: "BL1\n" passes although it is not all letters and digits |
| Text.AlnumPatternMatches | shipments/views.py:56 | `re.match(r'^[a-zA-Z0-9]+$', s)`: a non-empty run of ASCII letters and digits, optionally followed by one final newline |
| Text.AsciiLower | shipments/views.py:66-68 | a capital ASCII letter becomes the same letter in lower case (32 code points on); every other character is kept |
| Text.Fold | shipments/views.py:66-68 | folding keeps the length and lower-cases each position, leaving other characters alone |
| Text.IEqualsPointwise | shipments/views.py:66-68 | two strings are `iexact`-equal iff they have the same length and agree position by position after lower-casing |
| Text.IEquals | shipments/views.py:66-68 | `iexact`: equality after ASCII lower-casing |
| Text.NatToString | shipments/admin.py:271-274 | a count prints as decimal digits, without a leading zero |
| Text.NatToStringRoundTrip | shipments/admin.py:271-274 | reading back the printed digits gives the count |
| Models.FreightChoice | shipments/models.py:23-27 | a stored freight value names a choice only if it is that choice's code; any other value names none |
| Models.FreightChoiceRoundTrip | shipments/models.py:23-27 | every freight choice is recovered from its stored code |
| Models.SupervisorChoice | shipments/models.py:30-36 | the same for the five supervisor choices |
| Models.SupervisorChoiceRoundTrip | shipments/models.py:30-36 | every supervisor choice is recovered from its stored code |
| Models.FreightDisplay | shipments/models.py:23-27 | each freight code displays as its label; any other stored value displays as itself |
| Models.SupervisorDisplay | shipments/models.py:30-36 | each supervisor code displays as its label; any other stored value displays as itself |
| Models.DefaultsAreChoices | shipments/models.py:140-205 | both status defaults are valid choices, labelled "Pending" and "Pending Review" |
| Models.ValidRecord | shipments/models.py:39-205 | what the field declarations demand of a record: required texts non-blank, lengths within `max_length`, choices respected, non-negative day counts, a positive quantity, decimals within their digits |
| Models.UniqueBl | shipments/models.py:39-44 | no two rows share a BL number |
| Models.ValidTable | shipments/models.py:39-205 | unique BL numbers and every row a valid record |
| Models.DutyStatusDisplay | shipments/models.py:234-236 | "Paid" iff duty is paid, "Not Paid" otherwise |
| Models.TowingStatusDisplay | shipments/models.py:238-240 | "Paid" iff towing is paid, "Not Paid" otherwise |
| Models.IsOverdue | shipments/models.py:242-246 | overdue iff no gate-out date and today strictly after the ETA |
| Models.DaysOverdue | shipments/models.py:242-252 | never negative; zero exactly when the shipment is not overdue; otherwise at least one, and ETA plus the count is today; zero once it has a gate-out date |
| Models.DeliveredNeverOverdue | shipments/models.py:244-245 | a shipment with a gate-out date is not overdue, whatever its ETA |
| Models.TotalPortCharges | shipments/models.py:254-256 | the port charges are the penalty duty plus the extra charges; on a valid record they stay below 20 000 000 000 in currency units |
| Models.TotalCharges | shipments/models.py:258-260 | the total is the port charges plus towing and freight; on a valid record it stays below 40 000 000 000 in currency units, so the decimal sum is exact |
| Models.InsertIfAbsent | example_data.py:141-144 | `get_or_create` on the table: unchanged if the BL number is present, otherwise the defaults appended with that BL number |
| Models.InsertIfAbsentKeepsUnique | shipments/models.py:39-44 | `get_or_create` keeps BL numbers unique, and afterwards the BL number is present and is the only one added |
| Models.ShipmentTable.GetOrCreate | example_data.py:141-144 | creates exactly when the BL number was absent; the new table is the old one with the defaults appended if so; the returned row has that BL number, and an existing row is returned untouched |
| Views.MatchingRows | shipments/views.py:65-69 | the rows the three-way OR filter selects, and no others |
| Views.Matches | shipments/views.py:66-68 | the three-way `iexact` OR over BL, container and chassis number; a NULL chassis never matches |
| Views.Get | shipments/views.py:64-74 | "does not exist" iff no row matches; a found row is in the table and matches |
| Views.GetFoundExactlyOne | shipments/views.py:64-69 | `get` returns row i iff no other position matches |
| Views.NoMatchesIffEmpty | shipments/views.py:64-70 | the filter is empty iff no position matches |
| Views.StatusColor | shipments/views.py:95 | "success" iff delivered, "danger" iff overdue, "warning" iff neither; never anything else |
| Views.BuildPayload | shipments/views.py:77-96 | every reply field: the identifiers, the shipping line, consignee and shipper, the free and demurrage days, the "N/A", "Not yet delivered", "Not assigned" and "No description available" fallbacks, the labels, and an overdue count zero iff not overdue that reaches today from the ETA |
| Views.ValidateQuery | shipments/views.py:47-60 | an accepted query is the stripped input, non-empty, letters and digits; every refusal is a 400; empty input and bad characters give their own messages |
| Views.Track | shipments/views.py:34-119 | anything but POST gets 405; a body `json.loads` rejects with a decoding error gets 400 "Invalid request format"; bytes that cannot be decoded to text, a body that is not an object, or a non-string tracking number, gets the sanitized 500; a missing tracking number gets the empty-query 400; a string tracking number is answered as `TrackQuery` answers it; a success carries the payload of a row of the table |
| Views.TrackQuery | shipments/views.py:47-101 | the empty and bad-character refusals; a success carries the payload of a row that matches the stripped query |
| Views.RejectedWithoutLookup | shipments/views.py:49-60 | a refused query gets the same reply whatever the table and the date |
| Views.TrackOutcomes | shipments/views.py:64-113 | for a well-formed query: 404 iff no row matches, 500 iff two or more do, success iff exactly one does, and then its payload |
| Views.TrackFindsUniqueMatch | shipments/views.py:64-101 | a query selecting exactly one row, by any of its identifiers in any letter case, returns that row's payload |
| Views.LowerCaseContainerFindsRow | shipments/views.py:67 | "cont002" finds the row with container "CONT002" |
| Views.PunctuationRefused | shipments/views.py:56-60 | "BL!2024" is refused with the bad-character 400, which by `RejectedWithoutLookup` is the reply whatever the table holds |
| Text.PunctuationExampleStrips | shipments/views.py:47 | "BL!2024" strips to itself |
| Text.PunctuationExampleNotAlnum | shipments/views.py:56 | "BL!2024" is not all letters and digits |
| Views.TrackIgnoresSurroundingSpace | shipments/views.py:47 | padding the query with whitespace does not change the reply |
| Text.StripIdempotent | shipments/views.py:47 | stripping twice is stripping once |
| Views.ValidateIgnoresSurroundingSpace | shipments/views.py:47-60 | validating the stripped query gives the same outcome as validating the raw one |
| Views.TrackAmbiguous | shipments/views.py:64-74 | two rows matching a well-formed query give the sanitized 500 reply |
| Views.TwoMatches | shipments/views.py:64-69 | two matching positions make the filter select at least two rows |
| Views.AmbiguousDespiteUniqueBl | shipments/models.py:39-44 | two distinct BL numbers can be `iexact`-equal |
| Views.StatusOf | shipments/views.py:162-171 | "delivered" iff a gate-out date is set, "in_transit" otherwise; the raw freight value; the other fields copied |
| Views.ApiShipmentStatus | shipments/views.py:143-176 | 400 iff the parameter is missing or empty; otherwise 404 iff no row matches, a status body iff exactly one does and then that row's status, and the framework's 500 page iff two or more do |
| Views.ApiFindsUniqueMatch | shipments/views.py:156-170 | a non-empty query that exactly one row answers to returns that row's status |
| Views.TrackFindsPaddedQuery | shipments/views.py:47 | a query typed after a blank still finds its row on the tracking endpoint |
| Views.ApiDoesNotTrim | shipments/views.py:148-160 | the same padded query gets 404 from the machine endpoint, which does not trim |
| Views.PaddedNeverEquals | shipments/views.py:156-160 | a letters-and-digits identifier is never `iexact`-equal to a query starting with whitespace |
| Views.Delivered | shipments/views.py:27-28 | exactly the rows with a gate-out date, each as often as in the table |
| Views.InsertByGateOut | shipments/views.py:29 | inserting a row adds exactly that row |
| Views.InsertByGateOutOrdered | shipments/views.py:29 | inserting into a newest-first list keeps it newest first, and keeps any bound on gate-out days that the new row meets |
| Views.SortNewestFirst | shipments/views.py:29 | the result is newest first and a permutation of the input |
| Views.RecentArrivals | shipments/views.py:27-29 | at most five rows, all delivered rows of the table, newest first |
| Views.RecentArrivalsIsPrefix | shipments/views.py:27-29 | the list is the first five, or fewer, of the sorted delivered rows |
| Views.RecentArrivalsFromDelivered | shipments/views.py:27-29 | the list is a sub-multiset of the delivered rows |
| Views.RecentArrivalsLength | shipments/views.py:29 | it has five rows, or all the delivered rows when there are fewer |
| Views.RecentArrivalsAreTheNewest | shipments/views.py:27-29 | no delivered row left out left the port later than a row shown |
| Views.TakeNewest | shipments/views.py:29 | cutting a sorted permutation keeps the newest rows |
| Admin.ColoredDutyStatus | shipments/admin.py:226-235 | green "✓ Paid" iff duty is paid, red "✗ Not Paid" otherwise: the shared paid badge of the duty flag |
| Admin.ColoredTowingStatus | shipments/admin.py:239-248 | the same badge, green or red, for the towing flag |
| Admin.PaidBadge | shipments/admin.py:226-248 | the shared paid/not-paid badge: green "✓ Paid" iff the flag is set, red "✗ Not Paid" otherwise |
| Admin.FreightColor | shipments/admin.py:254-259 | green, red and orange for the three freight choices; black exactly for any other stored value |
| Admin.ColoredFreightStatus | shipments/admin.py:252-264 | that colour, with the display label |
| Admin.OverdueIndicator | shipments/admin.py:268-279 | green "✓ On time" iff not overdue; otherwise red, with a decimal number that reads back as the days overdue |
| Admin.ExportedColumns | shipments/admin.py:67-81 | the exported duty and towing texts are "Paid" iff paid and "Not Paid" otherwise, as the model's display functions give them; the freight label; the total of the four charges |
| Admin.SelectedCountIsSize | shipments/admin.py:288 | the count of updated rows is the number of selected positions in the table |
| Admin.SelectedCountOfSelection | shipments/admin.py:288 | when every selected position exists, the count is the size of the selection |
| Admin.DutyPaidRows | shipments/admin.py:288 | selected rows get duty paid and nothing else changes; other rows are untouched |
| Admin.FreightPaidRows | shipments/admin.py:297 | selected rows get freight status "paid" and nothing else changes; other rows are untouched |
| Admin.DutyPaidKeepsUnique | shipments/admin.py:288 | the duty action keeps BL numbers unique |
| Admin.FreightPaidKeepsUnique | shipments/admin.py:297 | the freight action keeps BL numbers unique |
| Admin.DutyPaidKeepsValid | shipments/admin.py:288 | the duty action keeps a valid table valid, with the same BL numbers |
| Admin.FreightPaidKeepsValid | shipments/admin.py:297 | the freight action keeps a valid table valid, with the same BL numbers |
| Admin.DutyPaidIdempotent | shipments/admin.py:288 | running the duty action twice is running it once |
| Admin.FreightPaidIdempotent | shipments/admin.py:297 | running the freight action twice is running it once |
| Admin.FreightPaidShowsPaid | shipments/admin.py:254-264 | after the freight action a selected row shows a green "Paid" |
| Admin.MarkDutyPaid | shipments/admin.py:286-292 | updates the table in place to the duty-paid table, keeps it valid, and reports the number of rows updated |
| Admin.MarkFreightPaid | shipments/admin.py:295-301 | the same for freight |
| Admin.AdminUpload.SaveModel | shipments/admin.py:22-36 | uploads exactly when a file is attached and no id is recorded; records the returned id and link; always stores the row; a recorded id stops later uploads |
| Admin.AdminUpload.SaveModelAsWritten | shipments/admin.py:22-36 | whenever the upload guard holds, the call fails and nothing changes; otherwise the row is stored |
| Admin.FirstSaveAsWritten | shipments/admin.py:24-32 | as written, the first save of a new attachment fails and stores nothing |
| Admin.SaveTwice | shipments/admin.py:22-36 | as intended, a first save uploads and stores the returned id and link; a second save does not upload again |
| ExampleData.SampleData | example_data.py:13-135 | five samples |
| ExampleData.SamplesValid | example_data.py:13-135 | every sample meets the field constraints |
| ExampleData.SamplesDistinct | example_data.py:15-112 | the five BL numbers are distinct |
| ExampleData.SeedAll | example_data.py:140-144 | the loop as a function: the samples inserted with `get_or_create` in order |
| ExampleData.SeedBlNumbers | example_data.py:140-144 | seeding keeps BL numbers unique and adds exactly the samples' BL numbers |
| ExampleData.SeedKeepsExisting | example_data.py:140-144 | existing rows stay in place, and at most one row is added per sample |
| ExampleData.SeedPresentIsNoop | example_data.py:140-144 | samples whose BL numbers are all present change nothing |
| ExampleData.SeedIdempotent | example_data.py:140-144 | running the script twice is running it once |
| ExampleData.SeedFreshAppends | example_data.py:140-144 | distinct, absent samples are all appended in order |
| ExampleData.SeedEmptyTable | example_data.py:140-144 | on an empty table the script creates exactly the five samples |
| ExampleData.InsertKeepsValid | example_data.py:141-144 | one `get_or_create` with valid defaults keeps the table valid |
| ExampleData.SeedKeepsValid | example_data.py:140-144 | valid rows and valid samples give a valid table |
| ExampleData.DeliveredSampleOnTime | example_data.py:69-70 | BL2024003's ETA has passed, but it has left the port, so it is not overdue |
| ExampleData.SampleOverdueAfterEta | example_data.py:21 | BL2024001 is on time on its ETA and one day overdue the day after |
| ExampleData.ChasslessSampleLookup | example_data.py:111-114 | BL2024005 answers only to its BL and container numbers, not to "CH005", and its reply shows "N/A" for the chassis |
| ExampleData.SeedSamples | example_data.py:140-149 | the loop turns the table into the seeded table, keeps it valid, and reports a creation exactly for each sample whose BL number was absent |
| ExampleData.Seed | example_data.py:140-149 | the script: the same for the five samples |

## Left out

- Views.BuildPayload: the source reads the clock anew in every `is_overdue()` and
  `days_overdue()` call, up to five times for one reply (views.py:93-95). A request
  that crosses midnight, for a shipment whose ETA is that day, can then get
  `is_overdue` false with `days_overdue` 1 and colour "danger". The model reads the
  date once per reply, so its `daysOverdue == 0 <==> !isOverdue` rules that reply
  out. Models.IsOverdue and Models.DaysOverdue take that one date as their `today`.
- Google Drive: credentials, the network and the upload itself are not modelled. The
  service's reply is a parameter.
- The file left open when the upload call fails is not modelled.
- Rendering is not modelled:
  - templates, `format_html` markup and `JsonResponse` encoding;
  - `strftime` and `isoformat` dates, which stay day numbers;
  - the front-end script under `static/js`.
- `urls.py`, `shipment_detail_view`, `debug_csrf_token` and the management command
  `populate_dummy_data` are outside the modelled core.
- The `total_shipments` count on the home page is not modelled. It is the length of
  the table.
- The `created_at` and `updated_at` timestamps, the admin's list order, paging,
  search and filters are not modelled.
- `iexact` is modelled as ASCII case folding. Databases that fold non-ASCII letters
  differ.
- The database does not fix the order of rows with equal gate-out dates. The model
  picks one such order.
- A query parameter given several times is not modelled. Django takes the last value.
- The storage ranges of integer columns are not modelled. Decimal fields are bounded
  by digits only.
- Logging and the CSRF debug output of `track_shipment` are not modelled.
- The script's `print` calls are not modelled. The per-sample "created" flags are
  returned instead.
- Database errors such as connection loss or timeouts are not modelled. Only the
  outcomes decided by the rows are.
- The bulk actions select rows by position in the table. Their confirmation
  messages are not modelled.

## Findings

| source | as written | input that shows it | evidently intended | confidence | as-written member | corrected member |
|---|---|---|---|---|---|---|
| shipments/admin.py:26-32 | `save_model` passes a `drive_id` keyword to `upload_file_to_drive_obj`, whose signature at shipments/google_drive.py:48 takes only `file_obj`, `filename`, `mimetype` and `folder_id`, so the call raises `TypeError` before anything is recorded or saved | saving a new attachment with any file and no recorded id | upload the file, record the returned id and link, then save the row | not executed | Admin.FirstSaveAsWritten | Admin.AdminUpload.SaveModel |
