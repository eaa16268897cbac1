# Calendar pipeline model

A Dafny model of the server side of a Google Apps Script calendar. The
script reads a task sheet and six supporting sheets (projects, employees,
task statuses, task types, locations, project statuses). It then:

- turns each table into records;
- indexes the supporting tables by a key column, behind a read-through cache;
- joins every task against those indexes and derives its display fields and
  colours;
- drops tasks whose project or task status marks them inactive;
- shapes what is left into FullCalendar event objects.

Modules:

- `Wrappers`: `Option` and `Result`.
- `Text`: JavaScript's `trim` (with the ECMAScript whitespace set),
  `toLowerCase` on ASCII, and `Array.prototype.join`.
- `Seqs`: `map`, `filter` and the null-dropping filter, with generic lemmas
  relating them.
- `Records`: an object as `map<string, string>`. A property that is absent
  reads as `''`.
- `DataAccess`: `DataAccess.js`.
  - Sheet-name validation and cell sanitising.
  - The header/row conversion of `sheetToObjects`, as a specification
    function and as the loop the source runs.
  - `arrayToMap`, likewise as a function and as a loop.
  - The cache, as the class `LookupCache`. It holds the cache entries as a map
    field and is given the sheet reader as a pure function of the sheet name.
    A `put` may fail at any time; the model makes that a nondeterministic
    choice.
- `DataTransformation`: `DataTransformation.js`.
  - Colour names.
  - The seven joins and the derived fields.
  - The inactive-status filter.
  - Titles.
  - The date/time combiner.
  - The calendar event record.

JavaScript's `Date` is a parameter. A `Clock` supplies two functions:

- parsing a cell value into local calendar fields (`None` for an invalid date);
- `toISOString` of a local date and time.

The model keeps everything the code does around those two: the null checks,
the zeroed seconds, and `split('T')[0]`.

## Model

| member | source | states |
|---|---|---|
| Text.TrimStartSpec | DataAccess.js:42 | trim's left half removes exactly the leading whitespace: the rest is a suffix not starting with whitespace |
| Text.TrimEndSpec | DataAccess.js:42 | trim's right half removes exactly the trailing whitespace: the rest is a prefix not ending with whitespace |
| Text.TrimSpec | DataAccess.js:42 | a trimmed string is no longer than the original and has no whitespace at either end |
| Text.TrimIdempotent | DataTransformation.js:61 | trimming twice is trimming once |
| Text.TrimPadded | DataTransformation.js:17 | surrounding a string that has no whitespace at its ends with whitespace does not change what trim returns |
| Text.TrimWhitespace | DataTransformation.js:64 | an all-whitespace string trims to '' |
| Text.JoinShape | DataTransformation.js:140 | join puts no separator at either end: length is the parts plus n-1 separators, prefix is the first part, suffix the last |
| Text.JoinNeighbours | DataTransformation.js:140 | each part is followed by exactly one separator and then the next part, at the offset of the parts before it plus one separator each; with JoinShape's length this fixes every character |
| Text.JoinFirstNeighbours | DataTransformation.js:140 | a join of two or more parts opens with the first part, the separator and the second part |
| Text.JoinAppend | DataTransformation.js:140 | joining a concatenation of two non-empty lists joins each and puts one separator between them |
| Text.JoinEmpty | DataTransformation.js:140 | joining non-empty parts gives '' exactly when there are no parts |
| Seqs.Map | DataTransformation.js:44 | map keeps the length and applies f at every index |
| Seqs.Filter | DataTransformation.js:75-83 | filter keeps exactly the elements that pass, in order: every survivor passes and comes from the input, every passing element survives, and the result is a subsequence |
| Seqs.FilterCount | DataTransformation.js:75-83 | filter fixes multiplicity: a passing value occurs in the result as often as in the input, a failing one not at all |
| Seqs.MapConcat | DataTransformation.js:44 | mapping a concatenation is concatenating the maps |
| Seqs.FilterConcat | DataTransformation.js:75 | filtering a concatenation is concatenating the filters |
| Seqs.FilterMapOrigin | DataTransformation.js:44-83 | after map-then-filter, every passing image is kept and every kept element is the image of some input |
| Seqs.Somes | DataTransformation.js:122 | dropping nulls keeps only values that were present, never more than the input |
| Seqs.SomesOfMap | DataTransformation.js:96-122 | map with a partial callback then drop nulls equals filtering by "callback defined": same length, i-th result is the callback on the i-th defined input |
| DataAccess.ValidateSheetName | DataAccess.js:27-58 | succeeds (true) iff the trimmed name is one of the seven allowed sheets; '' is EmptyName; a blank or over-100-character trimmed name is BadLength; a character outside [a-zA-Z0-9\s_-] is IllegalCharacters; otherwise NotAllowed carrying the trimmed name |
| DataAccess.CellAt | DataAccess.js:120 | `row[index]` is the row's cell in range; past the end of a short row there is no value |
| DataAccess.HeaderNames | DataAccess.js:114 | the headers exist iff no header cell is null/undefined, and then they are the trimmed header texts, one per column |
| DataAccess.RecordOf | DataAccess.js:117-123 | every property value of a row's record is a sanitised cell, so at most 10000 characters (its keys and values: RecordOfKeys, RecordOfValue) |
| DataAccess.HasId | DataAccess.js:127 | a record passes the ID filter iff it has an ID property that is not '' |
| DataAccess.IndexBy | DataAccess.js:144-152 | the index has no more entries than there are items (its keys and values: IndexByKeys, IndexByStoresOwnKey, IndexByLastWins) |
| DataAccess.CacheKey | DataAccess.js:167 | the cache key is `map_`, the sheet name, `_v1`, and the name can be read back from it |
| DataAccess.AllowedSheetsWellFormed | DataAccess.js:28-36 | every allowed name is 1..100 characters of the legal character class, so only the allow-list decides for them |
| DataAccess.PaddedAllowedNameValidates | DataAccess.js:42-57 | an allowed name with any whitespace around it validates |
| DataAccess.ValidateAndSanitizeValue | DataAccess.js:66-82 | null/undefined/'' give ''; a value over 10000 characters becomes its first 10000; any other value is unchanged; never longer than 10000 |
| DataAccess.SanitizeIdempotent | DataAccess.js:68-81 | sanitising a sanitised value changes nothing |
| DataAccess.RecordOfKeys | DataAccess.js:114-123 | a row's record has exactly the non-empty trimmed headers as properties; '' is never a property |
| DataAccess.RecordOfValue | DataAccess.js:117-122 | a column whose header does not recur to its right holds its own sanitised cell (later duplicate headers win) |
| DataAccess.RowToRecord | DataAccess.js:117-123 | the forEach over the headers builds the row's record |
| DataAccess.RowsToRecords | DataAccess.js:116-124 | the map over the data rows gives one record per row, in sheet order |
| DataAccess.SheetObjects | DataAccess.js:96-135 | every failure is the one generic message; a bad name, an unreadable spreadsheet and a null header in a sheet with data rows each fail; a missing sheet or fewer than two rows gives []; every record has a non-empty ID; no more records than data rows |
| DataAccess.SheetObjectsRecords | DataAccess.js:114-127 | the records are the rows' records in sheet order with the ID-less ones removed and every one with an ID kept, duplicates as often as they occur; no record has a key outside the headers or the key '' |
| DataAccess.SheetToObjects | DataAccess.js:96-135 | the step-by-step conversion gives exactly SheetObjects |
| DataAccess.IndexByKeys | DataAccess.js:144-152 | the index's keys are exactly the non-empty key-field values of the items |
| DataAccess.IndexByStoresOwnKey | DataAccess.js:146-150 | every stored item is one of the items and its key field equals its (untrimmed) key; '' is never a key |
| DataAccess.IndexByLastWins | DataAccess.js:146-150 | the item stored under a key is the last item carrying that key |
| DataAccess.ArrayToMap | DataAccess.js:144-152 | the forEach loop builds exactly IndexBy |
| DataAccess.CacheKeyInjective | DataAccess.js:181 | distinct sheet names never share a `map_<name>_v1` cache entry |
| DataAccess.FreshIndex | DataAccess.js:175-176 | a fresh read either fails with the generic message or indexes records whose keys are non-empty and equal their key field, each record having an ID |
| DataAccess.LookupCache.constructor | DataAccess.js:86 | the cache starts empty, with no sheet read |
| DataAccess.LookupCache.GetSheetAsMapWithCache | DataAccess.js:164-191 | with useCache and an entry: returns it, reads nothing, changes nothing; otherwise reads the sheet once and returns the fresh index; with useCache a successful read is either stored or (failed put) not, never anything else; without useCache or on error the cache is untouched |
| DataAccess.LookupCache.FetchTwice | DataAccess.js:166-190 | two cached calls in a row return the same result; if the first call left an entry, at most one sheet read happens in total; a hit before the first means no read at all |
| DataTransformation.MapColorNameToHex | DataTransformation.js:12-32 | '' gives the default; a trimmed lower-cased recognised name gives its code; anything else the default unchanged |
| DataTransformation.ColorNameInsensitive | DataTransformation.js:17-30 | a recognised colour in any ASCII case with any whitespace around it maps to its code; grey and gray give the same code |
| DataTransformation.PaddedColorKey | DataTransformation.js:17 | the key looked up for a padded colour name is the lower-cased name |
| DataTransformation.ColorKeyEnds | DataTransformation.js:20-29 | every recognised colour name starts and ends with a lower-case ASCII letter |
| DataTransformation.Resolve | DataTransformation.js:48-54 | a join is the row stored under the trimmed foreign key when the key is non-empty and known, otherwise the empty object; it never invents a row |
| DataTransformation.ResolveJoins | DataTransformation.js:48-54 | each of the seven joins is the empty object or a row of its own table (which row: ResolvedJoins; which are empty: UnresolvedJoins) |
| DataTransformation.ResolvedJoins | DataTransformation.js:48-54 | a set and known key joins to the row stored under its trimmed text; project status, location and project manager are looked up by the project row's own keys |
| DataTransformation.FullName | DataTransformation.js:64-65 | a display name has no whitespace at either end and is no longer than first name, space, last name; a first name not starting and a last name not ending with whitespace give exactly "fName sName" |
| DataTransformation.Derive | DataTransformation.js:57-69 | the background is the code of the status row's colour when that names a recognised colour and the default blue otherwise; the text colour likewise from the type row, defaulting to white (each derived value: EnrichedFromRows) |
| DataTransformation.EnrichEvent | DataTransformation.js:45-69 | an enriched task has exactly the task's properties plus the ten derived ones (values: EnrichEventCopiesTask, EnrichedValues) |
| DataTransformation.Derived.ToRecord | DataTransformation.js:57-69 | the derived values are stored under exactly the ten derived property names |
| DataTransformation.EnrichEventCopiesTask | DataTransformation.js:45-69 | enrichment keeps every non-derived task property unchanged, adds all ten derived ones, and the colours are the defaults or recognised colour codes (which one: EnrichedColors) |
| DataTransformation.EnrichedFromRows | DataTransformation.js:57-65 | the derived properties are read off the joined rows: project name and folder, the project status's Status, the location's name, the type's and status's Hebrew label when set (else the task's Task text and the status's TaskStatus), trimmed, and the managers' full names |
| DataTransformation.EnrichedColors | DataTransformation.js:68-69 | the background is the status row's recognised colour, else exactly '#3498db'; the text colour the type row's recognised colour, else exactly '#FFFFFF' |
| DataTransformation.EnrichedValues | DataTransformation.js:57-69 | each derived property of the enriched task holds the value derived from the joins |
| DataTransformation.UnresolvedJoins | DataTransformation.js:48-54 | an empty or unknown foreign key joins to the empty object, and so do the joins made through a missing project |
| DataTransformation.NoEmployeeNoName | DataTransformation.js:64-65 | a missing employee's full name is '' |
| DataTransformation.UnresolvedProject | DataTransformation.js:48-65 | without a project, projectName, projectStatus, projectFolder, locationName and projectManagerName are all '' |
| DataTransformation.UnresolvedTaskType | DataTransformation.js:50-69 | without a task type, taskTypeName is a task's trimmed Task text and the text colour is #FFFFFF |
| DataTransformation.UnresolvedTaskStatus | DataTransformation.js:51-68 | without a task status, taskStatusHebrew is '' and the background is #3498db |
| DataTransformation.UnresolvedTaskManager | DataTransformation.js:53-64 | without a task manager, taskManagerName is '' |
| DataTransformation.IsActive | DataTransformation.js:75-83 | a task with neither project status nor task status is active (the inactive lists are the filter's own; EnrichEventsWithSupportingData states them) |
| DataTransformation.EnrichAll | DataTransformation.js:44 | one enriched task per task, the i-th the enrichment of the i-th task |
| DataTransformation.EnrichEventsWithSupportingData | DataTransformation.js:41-86 | null tasks or tables give []; never more events than tasks; every event's status and project status are outside the two inactive lists |
| DataTransformation.EnrichmentKeepsActiveInOrder | DataTransformation.js:44-85 | the events are a subsequence of the enriched tasks, and every enriched task outside both inactive lists is among them, as often as it occurs among the enriched tasks |
| DataTransformation.EnrichedEventsHaveOrigin | DataTransformation.js:44-85 | every event is the enrichment of some task |
| DataTransformation.EnrichmentDistributes | DataTransformation.js:44-83 | enriching two task lists back to back gives the concatenation of the two results |
| DataTransformation.DatePart | DataTransformation.js:168 | `split('T')[0]` is the prefix before the first 'T' and contains no 'T' |
| DataTransformation.FormatDateTimeForCalendar | DataTransformation.js:150-169 | the result is non-null iff the date is non-empty and parses; without a valid time the result is the part before 'T' of the serialised midnight of the date's year, month and day, so the time is ignored and no 'T' remains |
| DataTransformation.TimedStartUsesHourAndMinute | DataTransformation.js:159-165 | with a valid time the result is the date's day at the time's hour and minute with seconds zero, so two times that agree on hour and minute give the same result |
| DataTransformation.BuildEventTitle | DataTransformation.js:130-133 | for the calendar-event type the title is the project name |
| DataTransformation.TitleOfSetFields | DataTransformation.js:135-140 | for any other type the title is the set fields among type, project, location and task manager, in that order, joined by ' - ' |
| DataTransformation.PushIfSet | DataTransformation.js:136-139 | a value is pushed, once, exactly when it is non-empty |
| DataTransformation.TitleParts | DataTransformation.js:135-139 | at most four parts, none empty, and none exactly when type, project, location and task manager are all empty |
| DataTransformation.TitlePartsAreSetFields | DataTransformation.js:135-139 | the pushed parts are exactly the filter of type, project, location and task manager for the set ones |
| DataTransformation.TitleEmpty | DataTransformation.js:135-140 | a non-calendar-event title is '' exactly when all four parts are empty |
| DataTransformation.TitleShape | DataTransformation.js:135-140 | a non-empty title has no separator at either end: it starts with the first part, ends with the last, and is as long as the parts plus one ' - ' per pair of neighbours |
| DataTransformation.TitleNeighbours | DataTransformation.js:135-140 | each title part is followed by exactly one ' - ' and the next part, at the offset of the parts before it; with TitleShape's length no separator is doubled or missing |
| DataTransformation.StartOf | DataTransformation.js:97 | an event's start exists iff its dateIn is non-empty and parses |
| DataTransformation.Starts | DataTransformation.js:99 | an event kept by `!start` has a non-empty, parseable dateIn |
| DataTransformation.ToCalendarEvent | DataTransformation.js:96-99 | the mapping step returns null exactly when the start is null or empty |
| DataTransformation.CalendarEventShape | DataTransformation.js:101-121 | id is ID; border is background; text colour, notes, folder link and type name are copied; allDay iff calendar-event type or no timeIn; classNames is ['calendar-event'] exactly for that type; the title is the project name for that type and the built title otherwise; status, project and user are the event's values when set and exactly 'לא הוגדר', 'ללא פרויקט', 'לא שויך' when empty |
| DataTransformation.TransformEventsForCalendar | DataTransformation.js:93-123 | null input gives []; never more calendar events than input events |
| DataTransformation.Dated | DataTransformation.js:99-122 | the events with a start, each as often as in the input and none other |
| DataTransformation.TransformKeepsDatedEvents | DataTransformation.js:96-122 | the calendar events are exactly the events with a start, in input order: the i-th is built from the i-th such event |

## Left out

- Code.js (authorisation, page rendering, the call sequence of `getCalendarEvents`) is not part of this model: it only wires the modelled calls together or talks to Apps Script services.
- `getSpreadsheetId` (DataAccess.js:12-18) reads Script Properties. `SpreadsheetApp` (opening the file, `getSheetByName`, `getDataRange`) is replaced by the `Sheet` value the reader hands in.
- DataAccess.LookupCache.GetSheetAsMapWithCache: takes `useCache` as a required flag, where the source defaults it to `true` (DataAccess.js:164); every caller in Code.js passes it explicitly.
- `CacheService` is a map field. Entries do not expire after their one-hour TTL. `JSON.stringify`/`JSON.parse` are taken as the identity, so a cached index comes back exactly as stored.
- `console` logging is not modelled, and neither is `validateAndSanitizeValue`'s `fieldName` parameter, which only feeds the warning.
- JavaScript `Date` parsing, local-time construction and the UTC conversion of `toISOString` are the `Clock` parameter. The model does not claim that the date-only string is the local calendar date.
- Text.Lower: lower-cases ASCII letters only. The vocabularies are ASCII and Hebrew, and Hebrew has no case, but a name using other cased letters is not folded as JavaScript would fold it.
- Lengths count Unicode characters, not the UTF-16 code units JavaScript counts. The 100- and 10000-character limits differ from JavaScript for text outside the Basic Multilingual Plane.
- Cell and property values are their string form. Numbers, booleans and `Date` objects in cells are not distinguished from their text, and the JavaScript falsiness of `0` and `false` is not modelled.
- The sharpest consequence: a numeric `hebrew`, `Task`, `TaskStatus` or `Status` value makes `.trim()` throw in the source (DataTransformation.js:61-62, 76), which fails the whole enrichment. The model trims its text and carries on instead.
- DataAccess.ValidateAndSanitizeValue: returns the string form where the source returns the original non-string value unchanged.
- The `typeof` checks of `validateSheetName` and `mapColorNameToHex` are not modelled: every input is a string here.
- A header that is not a string (a number, say) would make `header.trim()` throw. Only null/undefined headers are modelled, as the generic error.
- Property names inherited from `Object.prototype` (a sheet key such as `constructor`) are not modelled: lookups see only the record's own properties.
