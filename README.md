# Farm management front end: the deterministic helpers

The farm-management web front end has one page per entity: staff, vehicles,
equipment, crops, monitoring logs and fields. Each page loads a list from the
backend, renders it and offers a form to add or edit a record. It also has
search boxes, filters, CSV exports and chart reports. Around the DOM work,
each page embeds small deterministic helpers. This project models those
helpers and proves properties about them:

- **Counting.** Group-and-count aggregators that keep first-occurrence order, with fallbacks for missing values (`'OTHER'`, `'Unknown'`). This also covers fixed-key and size buckets, "most common" selection and first-N truncation.
- **Filtering.** Case-insensitive substring search over records or row texts, and exact-match multi-criteria filters.
- **Submitting.** Form validation, whether an image is required, the choice of method and URL, and how an HTTP status becomes a success or error notice.
- **Formatting.** Text truncation, CSV building with its quoting rules, cyclic colours, and status-to-badge lookups.

How the model represents things:

- **Records and count tables.** Records are datatypes of strings; a missing value is the empty string. A count table is a `seq<(string, nat)>`, so insertion order can be stated.
- **Rows.** A table's row visibility is a `seq<bool>` computed from the row texts.
- **Responses.** A server response is an input: a `Response`, either a status with its text or a transport failure.
- **Page state.** Page state that the code reassigns lives in a class with those fields. This covers the equipment list, the field page's list and edit mode, the logs panel's current logs, the vehicle table's visibility flags and the crop submit button.

Modules:

- `TextOps`: the ASCII part of `toLowerCase`/`toUpperCase`, `trim` over ECMAScript white space, `includes`, and `join`/`split` on one character. It also has the decimal text of a number.
- `ListOps`: `filter`, counting, `slice(0, n)`, subsequences, and a stable descending insertion sort (the order `sort((a, b) => b - a)` gives).
- `Tally`: count tables, the counting loop every report uses (`counts[k] = (counts[k] || 0) + 1`), the strict-`>` running maximum, and `reduce` picking a maximum.
- `Http`: requests, responses, multipart bodies and notices.
- `Rows`: the shared row-text search.
- `Staff`, `Vehicle`, `Equipment`, `Crop`, `MonitoringLogs`, `Fields`: one module per page script.

## Model

| member | source | states |
|---|---|---|
| Tally.CountByKey | js/vehicle.js:830-837 | The table has one entry per distinct key, in first-occurrence order. Each count is the key's number of occurrences and at least 1. The counts sum to the number of keys. |
| Tally.TallyCorrect | js/vehicle.js:830-837 | The same facts for the count table as a function of the key list: distinct keys in first-occurrence order, exact counts, each ≥ 1, total = list length. |
| Tally.TallySnoc | js/vehicle.js:833-835 | Counting one more value adds one to its count and leaves every other count as it was. The value joins the end of the keys only when it was not yet a key. |
| Tally.MostCommon | js/crop.js:215-220 | The running maximum with strict `>` returns a count no entry exceeds. Without a positive count it returns nothing and 0; otherwise it returns a key of the table carrying that count. |
| Tally.ReduceMaxIndex | js/field.js:698-700 | `reduce((a, b) => c[a] > c[b] ? a : b)` over a non-empty table picks an entry whose count is maximal, and every later entry has a strictly smaller count (the last of tied maxima wins). |
| Rows.SearchRows | js/vehicle.js:386-394 | A row is shown exactly when its lower-cased text contains the lower-cased search value. |
| Rows.EmptySearchShowsAll | js/vehicle.js:386-394 | An empty search value shows every row. |
| Rows.SearchNarrows | js/vehicle.js:386-394 | A row shown for a longer search value is shown for each of its prefixes. |
| Rows.CaseInsensitive | js/vehicle.js:387-391 | Lower-casing the search value first shows the same rows. |
| TextOps.TrimEmptyIff | js/vehicle.js:287-294 | A trimmed value is empty exactly when the input holds only white space. |
| TextOps.SplitJoin | js/equipment.js:363-366 | Splitting a comma-joined line gives back the cells when no cell holds a comma. |
| TextOps.JoinSplit | js/equipment.js:363-366 | Joining the pieces of a split gives back the text. |
| TextOps.SplitLines | js/equipment.js:363-366 | A file of lines each ended by a line feed splits back into those lines plus one empty piece. |
| Staff.FilterStaff | js/staff.js:399-407 | A row is visible exactly when its lower-cased text contains the lower-cased term. An empty term shows every row. |
| Staff.FilterByRole | js/staff.js:1101-1144 | `'ALL'` shows every row. Otherwise a row is visible exactly when its role cell contains the chosen role. |
| Staff.UpdateStats | js/staff.js:410-421 | The total is the list length. The manager, administrative and scientist counts are exact-match counts and together never exceed the total. |
| Staff.FullReport | js/staff.js:862-870 | The other count is total minus the three role counts and is never negative. Male plus female is at most the total. |
| Staff.CountRoles | js/staff.js:469-473 | One entry per distinct role, with a missing role counted as `'OTHER'`. Counts are exact and sum to the number of staff. No staff gives no entries. |
| Staff.RoleLines | js/staff.js:487-492 | One summary line per count-table entry, in table order, so an empty table yields no lines. |
| Staff.RoundedPercent | js/staff.js:487-492 | `Math.round(count / total * 100)` is the integer within half of the exact percentage, between 0 and 100 for a part of the total. |
| Staff.CountGenders | js/staff.js:565-578 | The three counters are those of each record's upper-cased gender (MALE, FEMALE, anything else OTHER), and they sum to the number of staff. |
| Staff.GendersPartition | js/staff.js:565-578 | Every record goes to exactly one of the three counters. |
| Staff.DiversityScore | js/staff.js:812-824 | A total of 0 scores 0. For male + female ≤ total the score lies in 0..100. |
| Staff.EvenSplitScoresFull | js/staff.js:812-824 | An even male/female split scores 100. |
| Staff.Growth | js/staff.js:689-695 | A growth rate is 0 without a previous year. It is positive exactly when the count rose, negative exactly when it fell, and never below −100. |
| Staff.GrowthRates | js/staff.js:689-695 | One rate fewer than years, rate `i` comparing year `i` with year `i + 1`. |
| Staff.AverageGrowth | js/staff.js:826-831 | 0 for no rates; otherwise the value whose product with the number of rates is their sum. |
| Staff.AverageWithinBounds | js/staff.js:826-831 | The average lies between any lower and upper bound of the rates. |
| Staff.FindPeakYear | js/staff.js:833-846 | With no positive count the text is `null (0 hires)`. Otherwise it names the first year, in enumeration order, whose count is maximal, with that count. |
| Staff.ExportToCsv | js/staff.js:1024-1049 | The file is the header cells joined by commas, then each data row after the first table row, every line ended by a line feed. |
| Staff.ExportRow | js/staff.js:1037-1047 | A data line is every cell but the last (actions) column, each quoted by the comma rule, joined by commas. |
| Staff.QuotedIffComma | js/staff.js:1043 | A cell is wrapped in double quotes exactly when it contains a comma; inner quotes are left alone, and other cells are kept as they are. |
| Staff.CsvReadsBack | js/staff.js:1024-1049 | With no line feed in any cell, the file splits back into its header line and data lines. |
| Staff.CsvRowReadsBack | js/staff.js:1040-1047 | With no comma in the kept cells, a data line splits on commas back into all cells but the last. |
| Staff.SubmitRequest | js/staff.js:227-262 | In edit mode the request is a PUT to the staff id's URL, and the body's `staffId` is forced to that same id. Otherwise it is a POST of the form's record to the base URL. |
| Staff.SubmitNotice | js/staff.js:241-271 | Success exactly for a status in 200..299, with the update or create text. Any other status gives `Failed to save staff data: ` followed by the failed operation and the server's text, and a transport failure gives that prefix and its message. |
| Vehicle.StatusClass | js/vehicle.js:183-185 | `status-active` exactly for `'Active'`, `status-maintenance` exactly for `'Maintenance'`, `status-inactive` for everything else. |
| Vehicle.UpdateStats | js/vehicle.js:235-243 | The total is the list length. Active and maintenance are exact-match counts and together never exceed it. |
| Vehicle.HandleFormSubmit | js/vehicle.js:283-361 | Each of the six inputs gets a red border exactly when its value (code, plate and staff id after trim) is empty. The action taken is `Decide` of the form. |
| Vehicle.CheckField | js/vehicle.js:298-348 | After the first `k + 1` checks, the message is the prefix followed by each missing label so far and `", "`. The error flag is set exactly when some field so far is missing. |
| Vehicle.StripAppended | js/vehicle.js:350-354 | Removing the trailing comma leaves the prefix and the missing labels joined by `", "`. |
| Vehicle.RequestFor | js/vehicle.js:356-361 | A validation error issues no request. A complete form in edit mode issues PUT `/update/{code}`, otherwise POST `/save`. |
| Vehicle.SubmitIssuesRequestIffComplete | js/vehicle.js:298-361 | A request is issued exactly when none of the six values is empty. It is an update exactly when the edit mode is `'true'`. |
| Vehicle.BlankCodeIsMissing | js/vehicle.js:287-301 | A code of white space alone fails validation. |
| Vehicle.SaveNotice | js/vehicle.js:70-116 | Success exactly for a status in 200..299, with "Vehicle updated successfully" or "Vehicle saved successfully". An error shows the server's text or the transport failure's message when there is one. Otherwise it shows "Failed to update vehicle" or "Failed to save vehicle", so it is never blank. |
| Vehicle.EmptyFiltersPassAll | js/vehicle.js:531-544 | With no filter value chosen every row passes. |
| Vehicle.MoreFiltersHideMore | js/vehicle.js:531-544 | A row that passes with a value chosen also passes with that value cleared. |
| Vehicle.VehicleTable.ApplyFilters | js/vehicle.js:531-547 | Each data row is shown exactly when every chosen value equals its trimmed cell. It stops at the first row without a status cell, leaving that row and those after it as they were. |
| Vehicle.VehicleTable.ClearFilters | js/vehicle.js:549-558 | Every row is shown again and the search box is emptied. |
| Vehicle.ExportData | js/vehicle.js:396-438 | The export is the header line, then one line per shown row in table order, keeping the cells before the actions column. |
| Vehicle.ShownRowCount | js/vehicle.js:404-418 | One exported line per shown row: hidden rows are never exported. |
| Vehicle.ExportReadsBack | js/vehicle.js:396-438 | With no line feed in any text, the export splits back into the header line and one line per shown row. |
| Vehicle.CountByProperty | js/vehicle.js:830-837 | One key per distinct value, counts exact and at least 1, summing to the array length. |
| Vehicle.StatusReport | js/vehicle.js:575-608 | Exactly the keys Active, Inactive, Maintenance in that order, with their exact counts; other statuses are ignored, so the sum is at most the list length. |
| Vehicle.TopStaffAsWritten | js/vehicle.js:747-750 | The chart's labels are the first ten distinct staff ids in first-occurrence order, with their counts, not sorted by count. |
| Vehicle.TopStaffMissesBusiest | js/vehicle.js:747-750 | Ten staff with one vehicle each, then one staff member with two: the busiest member is not in the chart. |
| Vehicle.TopStaff | js/vehicle.js:747-750 | The corrected top ten: exact counts in descending order, and no staff member left out has more vehicles than any shown. |
| Vehicle.TopByCount | js/vehicle.js:747-750 | The first `n` of a count table sorted by count keeps the `n` largest counts with their exact values. |
| Equipment.StatusClass | js/equipment.js:150-157 | Active, Maintenance to their classes; anything else, Inactive included, to `status-inactive`. |
| Equipment.SameBadgeAsVehicle | js/equipment.js:150-157 | The equipment badge class agrees with the vehicle one for every status. |
| Equipment.StatusColor | js/equipment.js:563-570 | Each known status has its own colour, and exactly the unknown ones get the grey default. |
| Equipment.StatusIcon | js/equipment.js:639-646 | Each known status has its own icon, and exactly the unknown ones get the question mark. |
| Equipment.ColorAndIconAgree | js/equipment.js:563-646 | Two statuses share a colour exactly when they share an icon. |
| Equipment.UpdateStats | js/equipment.js:160-168 | Active and maintenance are exact-match counts, and together at most the total. |
| Equipment.SaveEquipment | js/equipment.js:190-217 | No request unless all six values are non-empty, with the required-fields message. The request body is the form's data. Edit mode sends PUT `/{editEquipmentId}`, create sends POST `/save`. |
| Equipment.SaveNotice | js/equipment.js:219-229 | Success exactly when jQuery runs `success` (2xx or 304); the texts differ for update and add. |
| Equipment.FilteredKeepsExactlyMatches | js/equipment.js:335-346 | The result is a subsequence of the list. It keeps a record exactly when some non-empty field contains the term case-insensitively, with its multiplicity. |
| Equipment.LongerTermNarrows | js/equipment.js:335-346 | A record found for a longer term is found for each prefix of it. |
| Equipment.EquipmentPage.LoadEquipmentData | js/equipment.js:63-83 | A delivered list replaces the page's data and is rendered. A failure leaves both as they were and reports an error. |
| Equipment.EquipmentPage.FilterEquipment | js/equipment.js:329-348 | Renders the filtered list, or the full list for an empty term, and leaves the data unchanged. |
| Equipment.EquipmentPage.ExportEquipmentData | js/equipment.js:350-366 | The file is the header line and one line per record, each field in double quotes with a missing one as `""`, every line ended by a line feed. |
| Equipment.CsvReadsBack | js/equipment.js:352-366 | The file splits on line feeds back into the header and one line per record. |
| Equipment.RowReadsBack | js/equipment.js:363-365 | Without commas in the values, a record's line splits back into its six quoted values. |
| Equipment.EquipmentPage.CountByProperty | js/equipment.js:553-560 | One entry per distinct value, with an empty value counted as `'Unknown'`. Counts are exact and at least 1, and sum to the number of records. |
| Equipment.UnknownBucket | js/equipment.js:553-560 | `'Unknown'` counts exactly the records whose value is missing or itself `'Unknown'`. |
| Crop.Submit | js/crop.js:95-134 | A create without an image shows the warning and sends nothing. Otherwise the body is the seven text parts plus the image when chosen. Edit mode sends PUT `/{cropCode}`, create sends POST to the base URL. |
| Crop.BodyShape | js/crop.js:103-118 | The body's first seven parts are the text inputs in order, and the image part appears once when a file is chosen and never otherwise. |
| Crop.SubmitNotice | js/crop.js:135-152 | Success exactly for status 201 or 204. A 400 shows "Bad request", any other status the generic error. |
| Crop.OkIsNotAccepted | js/crop.js:135-144 | A plain 200, which jQuery treats as success, is still reported as an error. |
| Crop.SubmitButton.StartSaving | js/crop.js:124-127 | Hands back the button's label, then shows the spinner and disables the button. |
| Crop.SubmitButton.Complete | js/crop.js:153-157 | Restores the label and enables the button. |
| Crop.SubmitWithButton | js/crop.js:95-159 | A blocked submit leaves the button untouched. A sent one ends with the original label restored and the button enabled, whatever the response. |
| Crop.UpdateStats | js/crop.js:194-224 | The total is the list length. Active fields is the number of distinct non-empty field codes, at most the number of crops. The season is `'N/A'` without seasons, else a most common one, the first on a tie. |
| Crop.FieldSetMembers | js/crop.js:196-200 | A code is an active field exactly when some crop has it as its non-empty field code. |
| Crop.MostCommonSeason | js/crop.js:205-224 | What the running maximum finds is a season with maximal count, and every season counted before it has a smaller count. |
| Crop.GroupReport | js/crop.js:472-479 | The counts are the tally of the non-empty keys. The images map gives each group the image of its first crop that has one. |
| Crop.ImagesAreFirst | js/crop.js:472-479 | A group has an image exactly when one of its crops has one, and it is the first such crop's image. |
| Crop.GroupKeysSkipEmpty | js/crop.js:512-519 | Records with an empty key are skipped. |
| Crop.ImagesOnlyForGroups | js/crop.js:552-559 | Only groups that are in the report get an image. |
| Crop.CropRecommendations | js/crop.js:666-705 | Never empty: the table's entry for a known category and season, otherwise the general advice. |
| Crop.RecommendationsFromTable | js/crop.js:666-705 | A known pair gives its table entry. The general advice is returned exactly when the pair is not in the table. |
| Crop.SearchCrops | js/crop.js:729-736 | A row is shown exactly when its lower-cased text contains the lower-cased term. |
| MonitoringLogs.Truncate | js/monitoring-logs.js:771-774 | Text that fits is unchanged. Otherwise the result is its first `maxLength` characters followed by `...`. |
| MonitoringLogs.TruncateIdempotent | js/monitoring-logs.js:771-774 | Truncating twice with one limit gives what one truncation gave. |
| MonitoringLogs.UpdateStats | js/monitoring-logs.js:182-192 | The today and with-image counts are at most the total. |
| MonitoringLogs.StatsExact | js/monitoring-logs.js:188-192 | Today's count is 0 exactly when no log has today's date, and is the total exactly when all have. The same holds for logs with an image. |
| MonitoringLogs.HandleFormSubmit | js/monitoring-logs.js:199-238 | It is an edit exactly when the hidden id is non-empty, and an edit PUTs to `/{logId}`. A create without an image shows the warning and sends nothing; otherwise it POSTs to the base URL. |
| MonitoringLogs.CreateSendsImageTwice | js/monitoring-logs.js:208-232 | A create with an image sends the image part twice. |
| MonitoringLogs.IntendedBodyHasOneImage | js/monitoring-logs.js:207-210 | The corrected body carries the image once if chosen and agrees with the code on edits. |
| MonitoringLogs.SaveNotice | js/monitoring-logs.js:240-262 | Success only for status 201. A 400 gives the bad-request error, another status "Server returned status: N", and a transport failure its message. |
| MonitoringLogs.OkOtherThanCreatedIsError | js/monitoring-logs.js:240-255 | A 200 or 204 is reported as an error. |
| MonitoringLogs.BlankTermIsWhiteSpace | js/monitoring-logs.js:374-379 | The term is blank exactly when the box holds only white space. |
| MonitoringLogs.SearchKeepsExactlyMatches | js/monitoring-logs.js:386-392 | The result is a subsequence of all logs, keeping exactly those whose code, date or details contain the term, with their multiplicity. |
| MonitoringLogs.LogsPanel.LoadLogs | js/monitoring-logs.js:108-127 | An ok response replaces and shows the current logs. Anything else leaves them and reports the failure. |
| MonitoringLogs.LogsPanel.PerformSearch | js/monitoring-logs.js:373-398 | A blank term reloads and shows all logs. Any other term shows the matching ones. A failed fetch leaves the state alone. Its error is the load failure for a blank term and "Error searching logs: " followed by the failure for any other term. |
| MonitoringLogs.LogsPanel.GenerateReport | js/monitoring-logs.js:443-449 | No current logs gives the alert and no report. Otherwise it builds the all-logs report, or the current-view report as written, which never shows the image gallery. |
| MonitoringLogs.DateRange | js/monitoring-logs.js:760-768 | `N/A` exactly for no logs. Otherwise it is the smallest day formatted, then ` - `, then the largest day formatted. |
| MonitoringLogs.DateRangeSpans | js/monitoring-logs.js:760-768 | For some logs, the range is the day of an earliest log followed by the day of a latest one, and every log's day lies between those two. |
| MonitoringLogs.MinOf | js/monitoring-logs.js:674-678 | The earliest date is one of the dates and none is earlier. |
| MonitoringLogs.MaxOf | js/monitoring-logs.js:681-685 | The latest date is one of the dates and none is later. |
| MonitoringLogs.CurrentViewAsWritten | js/monitoring-logs.js:585-610 | As written, the current-view report never has a gallery. |
| MonitoringLogs.GalleryNeverShown | js/monitoring-logs.js:589-597 | Even a view with an image gets no gallery. |
| MonitoringLogs.GalleryShowsImages | js/monitoring-logs.js:589-610 | The corrected gallery is shown exactly when some log has an image. It shows at most six logs, all from the view and all with images. |
| Fields.SaveNotice | js/field.js:292-309 | Success exactly for status 201 or 204, with the updated or added text. Another status gives "Failed to save field: Server returned status: N", and a transport failure its message. |
| Fields.OkIsNotSaved | js/field.js:298-305 | A plain 200 is reported as a failure. |
| Fields.BodyParts | js/field.js:281-289 | The body has the five text parts and each image part once when chosen, never otherwise. |
| Fields.FieldPage.SaveField | js/field.js:263-310 | No request unless the five required values are non-empty, with the required-fields error. The body is the form's. Edit mode sends PUT `/{currentFieldCode}`, else POST to the base URL. |
| Fields.FieldPage.OpenAddModal | js/field.js:153-166 | Leaves edit mode and clears the current field code. |
| Fields.FieldPage.EditField | js/field.js:225-261 | An ok response enters edit mode for that code. A failure leaves the mode as it was and reports an error. |
| Fields.FieldPage.LoadFields | js/field.js:70-81 | An ok response replaces and renders the fields. A failure leaves both. |
| Fields.FieldPage.FilterFields | js/field.js:343-358 | Renders the searched list and leaves the data unchanged. |
| Fields.SearchedKeepsExactlyMatches | js/field.js:343-358 | An empty term gives all fields. Otherwise the result is a subsequence keeping exactly the fields whose code, name, location or present log code contains the term, with their multiplicity. |
| Fields.FieldPage.GetFilteredFields | js/field.js:543-558 | Returns the location-filtered list of the page's fields. |
| Fields.ByLocationKeepsExactly | js/field.js:543-558 | `'all'` gives every field. Otherwise the result is a subsequence keeping exactly the fields at that location. |
| Fields.LocationOptions | js/field.js:483-498 | The distinct locations in first-occurrence order (`Distinct`). Each location appears exactly once, and exactly when some field has it. |
| Fields.BucketBounds | js/field.js:565-584 | A size falls in exactly one bucket, split at 5, 20 and 50; a missing size counts as 0. |
| Fields.BucketsPartition | js/field.js:565-584 | The four bucket counts sum to the number of fields. |
| Fields.AreaCategories | js/field.js:565-584 | The counting loop produces the four bucket counts. |
| Fields.AreaInsights | js/field.js:625-634 | The largest category is one of the four labels with its count. No category holds more, every later one holds fewer (the later one wins a tie), and at most four categories are used. |
| Fields.AreaInsightsOfNoFields | js/field.js:625-634 | With no fields the `reduce` keeps the last label, `Very Large (>50 acres)`, with count 0. |
| Fields.GenerateColors | js/field.js:848-860 | `n` colours, colour `i` being base colour `i mod 10`. |
| Fields.ColorsCycle | js/field.js:848-860 | Colours repeat every ten entries, and within any ten consecutive entries they differ. |
| Fields.LocationReport | js/field.js:640-700 | The location counts are the tally of the locations, in filter-option order, and sum to the field count. There is one colour per location. |
| Fields.LocationInsightAsWritten | js/field.js:698-700 | The insight throws exactly when there are no locations; otherwise it names a location and its count. |
| Fields.NoFieldsLocationThrows | js/field.js:698-700 | With no fields the location report throws. |
| Fields.LocationInsightGuarded | js/field.js:698-700 | The guarded insight always renders, and is absent exactly when there are no locations. |
| Fields.ComparisonAsWritten | js/field.js:778-845 | The comparison throws exactly when there are no fields. |
| Fields.NoFieldsComparisonThrows | js/field.js:834-841 | With no fields the comparison report throws. |
| Fields.ComparisonGuarded | js/field.js:778-845 | Always renders. The largest field is absent exactly with no fields, and the average is 0 then and otherwise the total area over the count. |
| Fields.ComparisonTakesLargest | js/field.js:782-784 | At most five fields, taken from the list and sorted by size descending, with the largest at least every field's size. |
| Fields.ComparisonOmitsSmaller | js/field.js:782-784 | No field left out of the five is larger than one shown. |
| Fields.EmptyLoadReportsFailure | js/field.js:864-876 | With no fields, loading the reports ends in the failure notice. |
| Fields.SummaryStats | js/field.js:529-540 | The total area is the sum of the field sizes, and unique locations is the number of distinct locations. The average is 0 with no fields, otherwise the total area over their number. Unique locations are at most the field count, and 0 exactly when there are no fields. |

## Left out

- DOM rendering, jQuery, SweetAlert dialogs, Chart.js and Highcharts charts, jsPDF layout and print windows: presentation only. Insight and report HTML texts are not modelled beyond the figures they show.
- `fetch` and `$.ajax` transport, JSON and multipart encoding: I/O. A response is an input to the model.
- js/front.js, js/main.js and js/dashboard.js: UI chrome without logic. They are not part of this model.
- Floating point: sizes, percentages, growth rates, averages and diversity scores are exact rationals (`real`). `Math.round` is floor(x + 0.5) on them, which can differ from JavaScript's float result at a half. `toFixed` strings are left out.
- Date parsing, `toLocaleDateString`, tenure and year extraction: `MonitoringLogs.DateRange` takes the parser and the formatter as parameters. The joining report starts from per-year counts already extracted.
- Random and mocked values: the random staff id, the random active staff and the mock utilisation report.
- Async ordering between overlapping loads: concurrency, with no guard in the code to model.
- Case folding and `trim` beyond their ASCII and ECMAScript white-space parts: non-ASCII letters keep their case.
- JavaScript object key order: count tables keep insertion order, and the model assumes keys that are not integer-like and no prototype names. `Staff.FindPeakYear` takes its table already in enumeration order.
- Duplicate definitions: `loadData` (js/field.js:56 and 864), `resetForm` (js/monitoring-logs.js:267 and 362) and `generateFullReport` (js/vehicle.js:560 and 666). Hoisting makes the later definition the one that runs, and only that one is modelled.
- The HSL colours of js/vehicle.js:839-846: floating point.
- Vehicle.ExportData: works on the cell texts of a row, taking the status badge's text as that cell's text. The `data:` URI prefix, `encodeURI` and the download link are left out.
- Fields.Size: `extent_size` is a number or missing. A numeric string sent by the backend is not modelled.
- MonitoringLogs.Truncate: lengths count Unicode scalar values, not the UTF-16 code units of JavaScript's `length` and `substring`. A text with characters outside the Basic Multilingual Plane is cut at a different place.
- Vehicle.CountByProperty: a record here always has a value for the property. JavaScript stores a missing or null value under the key `"undefined"` or `"null"` (js/vehicle.js:833-834), and that case is not modelled.
- Staff.DiversityScore: states the range and the zero guard but not the exact float value of the formula at js/staff.js:815-823.

## Findings

| source | as written | input that shows it | evidently intended | confidence | as-written member | corrected member |
|---|---|---|---|---|---|---|
| js/monitoring-logs.js:589-597 | The gallery is guarded by `logsWithImages.length > 0`, but `logsWithImages` is a number, so the test is `undefined > 0` | any current view with a log that has an image | show up to six thumbnails when some log has an image | not executed | MonitoringLogs.GalleryNeverShown | MonitoringLogs.GalleryShowsImages |
| js/monitoring-logs.js:208-232 | A create appends `observedImage` before the branch and again inside it | a new log with an image chosen | send the image once | not executed | MonitoringLogs.CreateSendsImageTwice | MonitoringLogs.IntendedBodyHasOneImage |
| js/vehicle.js:747-750 | "Top 10 staff" takes the first ten distinct staff ids in first-occurrence order | staff S1..S10 with one vehicle each, then S11 with two | the ten staff with the most vehicles, by count | not executed | Vehicle.TopStaffMissesBusiest | Vehicle.TopStaff |
| js/field.js:698-700 | `reduce` without an initial value on the location keys | no fields, or a location filter that matches none | an empty report instead of a thrown TypeError | not executed | Fields.NoFieldsLocationThrows | Fields.LocationInsightGuarded |
| js/field.js:834-841 | `largestField` is `sortedFields[0]` (line 834), which is undefined with no fields, so `largestField.fieldName` (line 838) throws. The average at line 835 divides by zero and gives NaN, which does not throw | no fields, or a location filter that matches none | no largest field and an average of 0 | not executed | Fields.NoFieldsComparisonThrows | Fields.ComparisonGuarded |
