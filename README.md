# cronograma — a Dafny model of the schedule API

cronograma is a small Express server for a school timetable. It keeps three
tables in Postgres — curricular components, holidays and activities — and
exposes them under `/api`. This project models the part of `index.js` that
carries logic:

- the column declarations and the insert schemas derived from them
  (`Schema`, `Validation`): which fields a create must carry, which
  may be null or absent, what a partial component update and an activity
  update accept, and that keys a schema does not name (a client-sent `id`
  or `status`) are dropped;
- the repository `DatabaseStorage` (`Storage`): a class whose three
  tables are maps from serial id to row, each with the next value of its own
  id sequence; creates assign a fresh id, activities start as `"pending"`,
  updates touch only an existing row, and deletes report whether a row was
  removed;
- the route handlers (`Routes`): each validates, calls the store once, and
  answers 400 on a validation failure, 404 for an absent update or delete
  target, 201 on create, 204 on delete, 200 otherwise and 500 when the store
  fails, with the handlers' own messages;
- the request logger's line (`RequestLog`): only `/api` paths are logged,
  and a line longer than 80 characters keeps 79 and gains `…`.

Files: `wrappers.dfy` (Option), `schema.dfy`, `validation.dfy`,
`storage.dfy`, `routes.dfy`, `request_log.dfy`.

## Model

| member | source | states |
|---|---|---|
| Schema.ComponentRequiredFromColumns | index.js:25-52 | the fields a component create must carry are exactly the not-null, default-less columns once `id` is omitted: name, startDate, endDate, color, weekDays |
| Schema.HolidayRequiredFromColumns | index.js:35-55 | a holiday create must carry exactly name and date |
| Schema.ActivityRequiredFromColumns | index.js:39-59 | an activity create must carry exactly description, modality, deliveryDate and realizationDate; omitting `status` changes nothing because it has a default |
| Schema.ComponentRow | index.js:85-88 | the inserted component has the assigned id and keeps every submitted field |
| Schema.HolidayRow | index.js:101-104 | the inserted holiday has the assigned id and keeps every submitted field |
| Schema.ActivityRow | index.js:117-120 | the inserted activity has the assigned id, keeps every submitted field, and its status is "pending" |
| Schema.ApplyPatch | index.js:89-92 | a component update keeps the row's id; each field the patch carries replaces the stored one (a null startTime or endTime clears it) and every field it lacks is kept; the empty patch leaves the row as it was |
| Schema.PatchProperties | index.js:89-92 | applying a patch twice equals applying it once; a patch carrying every field yields the row a create of those fields would insert under the same id |
| Schema.ApplyUpdate | index.js:121-124 | an activity update changes only status and observation: each is replaced when given and kept when absent, every other column is unchanged |
| Validation.Text | index.js:27-30 | a not-null text field is accepted iff present and a string; otherwise exactly one Missing or WrongType issue for that field |
| Validation.Strings | index.js:31 | a text array is accepted iff every element is a string, and then yields those strings in order; a rejection is never empty |
| Validation.StringsIssuesAreElements | index.js:31 | every issue a text array reports is a WrongType issue on one of its elements, at an index inside the array |
| Validation.StringsIssues | index.js:31 | a text array reports a WrongType issue at index i iff element i is not a string |
| Validation.TextListIssues | index.js:31 | a text-array field reports a Missing issue iff the field is absent, and every issue names that field |
| Validation.ValidateComponent | index.js:50-52 | a component create is accepted iff the body is an object whose required fields are strings (weekDays an array of strings) and whose nullable fields are absent, null or strings; an accepted body yields its own strings, weekDays element by element, and none for an absent or null startTime/endTime; a body that is not an object is rejected with the single issue "wrong type at the root", and any other rejection lists at least one issue |
| Validation.ValidateHoliday | index.js:53-55 | a holiday create is accepted iff name and date are strings, and then yields exactly those strings; a non-object body is rejected with the single root issue, any other rejection lists at least one issue |
| Validation.ValidateActivity | index.js:56-59 | an activity create is accepted iff its required text fields are strings, componentId is absent, null or a number and observation is absent, null or a string; an accepted body yields its own values, with none for an absent or null componentId/observation; a non-object body is rejected with the single root issue, any other rejection lists at least one issue |
| Validation.ValidateComponentPatch | index.js:162 | a partial component update is accepted iff each field present has its column's type (startTime and endTime may be null); the patch carries exactly the fields present, with their values, and a null startTime/endTime as "clear"; a non-object body is rejected with the single root issue, any other rejection lists at least one issue |
| Validation.ValidateActivityUpdate | index.js:254-257 | an activity update is accepted iff status and observation are each absent or a string, and then carries exactly the strings present; a non-object body is rejected with the single root issue, any other rejection lists at least one issue |
| Validation.TextMissing | index.js:27-30 | a text rule reports field f as missing iff f is its own field and the body lacks it |
| Validation.TextListMissing | index.js:31 | a text-array rule reports field f as missing iff f is its own field and the body lacks it |
| Validation.NullableNeverMissing | index.js:32-33 | a nullable column's rule never reports a missing field |
| Validation.ComponentMissingFields | index.js:50-52 | a component create reports a field as missing iff it is required and absent from the body |
| Validation.HolidayMissingFields | index.js:53-55 | a holiday create reports a field as missing iff it is required and absent |
| Validation.ActivityMissingFields | index.js:56-59 | an activity create reports a field as missing iff it is required and absent |
| Validation.ComponentTypesFromColumns | index.js:25-34 | the JSON type each component field takes is the one its column declaration admits: text for the not-null text columns, an array for the text array, text or null for the nullable startTime and endTime |
| Validation.HolidayTypesFromColumns | index.js:35-39 | both holiday columns admit exactly strings |
| Validation.ActivityTypesFromColumns | index.js:40-49 | the JSON type each activity field takes is the one its column admits: a number or null for the nullable integer componentId, text or null for observation, text otherwise |
| Validation.ComponentWrongTypeFields | index.js:50-52 | a component create reports field f as wrongly typed iff f is a component field, present in the body, and not of the type its column takes (e.g. `"name": 3`) |
| Validation.HolidayWrongTypeFields | index.js:53-55 | a holiday create reports field f as wrongly typed iff f is name or date, present, and not a string |
| Validation.ActivityWrongTypeFields | index.js:56-59 | an activity create reports field f as wrongly typed iff f is an activity field, present, and not of its column's type (e.g. `"componentId": "x"`) |
| Validation.ComponentPatchWrongTypeFields | index.js:162 | the partial component schema reports field f as wrongly typed iff f is a component field, present, and not of its column's type, so null is still accepted for startTime and endTime and refused for the others |
| Validation.ActivityUpdateWrongTypeFields | index.js:254-257 | an activity update reports status or observation as wrongly typed iff it is present and not a string, null included |
| Validation.ComponentPatchRequiresNothing | index.js:162 | the partial component schema never reports a missing field, so any subset of fields is acceptable |
| Validation.ActivityUpdateRequiresNothing | index.js:254-257 | the activity update schema never reports a missing field |
| Validation.EmptyPatchAccepted | index.js:162 | the empty object is a valid component patch (the empty patch) and a valid activity update (the empty update) |
| Validation.ComponentSchemaIgnoresOtherKeys | index.js:50-52 | two bodies agreeing on the component columns validate alike, whatever other keys they carry |
| Validation.ComponentPatchSchemaIgnoresOtherKeys | index.js:162 | two bodies agreeing on the component columns validate alike as patches |
| Validation.HolidaySchemaIgnoresOtherKeys | index.js:53-55 | two bodies agreeing on name and date validate alike |
| Validation.ActivitySchemaIgnoresOtherKeys | index.js:56-59 | two bodies agreeing on the client-owned activity columns validate alike |
| Validation.ActivityUpdateSchemaIgnoresOtherKeys | index.js:254-257 | two bodies agreeing on status and observation validate alike as activity updates |
| Validation.ComponentIdIgnored | index.js:50-52 | a client-sent `id` has no effect on the validated component input |
| Validation.HolidayIdIgnored | index.js:53-55 | a client-sent `id` has no effect on the validated holiday input |
| Validation.ActivityServerKeysIgnored | index.js:56-59 | a client-sent `id` or `status` has no effect on the validated activity input |
| Validation.StrArrayRoundTrip | index.js:31 | a sequence of strings sent as a JSON array validates back to the same sequence |
| Validation.ComponentBodyRoundTrip | index.js:50-52 | every component input, sent as its JSON object, is accepted and yields that same input |
| Validation.HolidayBodyRoundTrip | index.js:53-55 | every holiday input, sent as its JSON object, is accepted and yields that same input |
| Validation.ActivityBodyRoundTrip | index.js:56-59 | every activity input, sent as its JSON object, is accepted and yields that same input |
| Storage.Select | index.js:78-131 | the rows selected from a table are exactly its rows satisfying the filter, in strictly ascending id order; an empty table selects nothing |
| Storage.DatabaseStorage.constructor | index.js:76-133 | a new store has three empty tables whose id sequences start at 1, and every method keeps each row under its own id and every activity's component reference resolved |
| Storage.DatabaseStorage.GetCurricularComponents | index.js:78-80 | the listing holds exactly the stored components, ascending by id, and is empty for an empty table |
| Storage.DatabaseStorage.GetCurricularComponent | index.js:81-84 | a component is found iff its id is stored, and the one found has that id |
| Storage.DatabaseStorage.CreateCurricularComponent | index.js:85-88 | the new row takes the sequence's next id, which no stored row has, keeps the submitted fields, and is the only change to the table |
| Storage.DatabaseStorage.UpdateCurricularComponent | index.js:89-92 | returns the patched row iff the id is stored; an unknown id leaves the table unchanged |
| Storage.DatabaseStorage.DeleteCurricularComponent | index.js:93-96 | refused, with nothing removed, iff an activity still references the component (the foreign key at index.js:44 has no delete action); otherwise true iff the row existed, and the table afterwards lacks exactly that id |
| Storage.DatabaseStorage.GetHolidays | index.js:98-100 | the listing holds exactly the stored holidays, ascending by id, and is empty for an empty table |
| Storage.DatabaseStorage.CreateHoliday | index.js:101-104 | the new holiday takes the sequence's next, unused id and keeps the submitted fields |
| Storage.DatabaseStorage.DeleteHoliday | index.js:105-108 | returns true iff the holiday existed, and removes exactly that id |
| Storage.DatabaseStorage.GetActivities | index.js:110-112 | the listing holds exactly the stored activities, ascending by id, and is empty for an empty table |
| Storage.DatabaseStorage.GetActivity | index.js:113-116 | an activity is found iff its id is stored |
| Storage.DatabaseStorage.CreateActivity | index.js:117-120 | the insert draws the next id in every case; it is refused, with the table unchanged, iff componentId names no stored component; otherwise the new activity has that unused id, keeps the submitted fields and has status "pending" |
| Storage.DatabaseStorage.UpdateActivity | index.js:121-124 | returns the updated row iff the id is stored; an unknown id leaves the table unchanged |
| Storage.DatabaseStorage.DeleteActivity | index.js:125-128 | returns true iff the activity existed, and removes exactly that id |
| Storage.DatabaseStorage.GetActivitiesByDate | index.js:129-131 | the listing holds exactly the stored activities whose realization date equals the given string, ascending by id |
| Routes.StatusCode | index.js:137-285 | 400 iff the body was invalid, 404 iff the target was absent, 500 iff the store failed, 2xx iff the operation succeeded, 201 iff a create succeeded, 204 iff a delete succeeded |
| Routes.GetComponentsRoute | index.js:138-145 | 200 with exactly the stored components, or 500 with the handler's message on a store fault |
| Routes.PostComponentRoute | index.js:146-158 | 400 with the issues and no change for an invalid body; 500 and no change on a store fault; otherwise 201 with the new row, which keeps the submitted fields under a fresh id |
| Routes.PutComponentRoute | index.js:159-175 | 400 for an invalid patch; 500 and no change on a store fault, an id outside the 32-bit `integer` range, or a patch with no field to set; 404 and no change for an unknown id; otherwise 200 with the patched row |
| Routes.DeleteComponentRoute | index.js:176-187 | 500 and no change on a store fault, an id outside the `integer` range, or a component still referenced by an activity; otherwise 204 iff the row existed and 404 iff it did not |
| Routes.GetHolidaysRoute | index.js:188-195 | 200 with exactly the stored holidays (none for an empty table), or 500 |
| Routes.PostHolidayRoute | index.js:196-208 | 400 and no change for an invalid body, 500 and no change on a store fault, otherwise 201 with the holiday under the next id |
| Routes.DeleteHolidayRoute | index.js:209-220 | 500 and no change on a store fault or an out-of-range id; otherwise 204 iff the holiday existed, 404 iff not |
| Routes.GetActivitiesRoute | index.js:221-228 | 200 with exactly the stored activities, or 500 |
| Routes.GetActivitiesByDateRoute | index.js:229-237 | 200 with exactly the activities whose realization date equals the path's date string, or 500 |
| Routes.PostActivityRoute | index.js:238-250 | 400 and no change for an invalid body; 500 and no change on a store fault; 500 with the id drawn but no row for a componentId naming no component; otherwise 201 with a new row that is pending, under a fresh id, keeping the submitted fields |
| Routes.PutActivityRoute | index.js:251-270 | 400 for an invalid update; 500 and no change on a store fault, an out-of-range id, or an update carrying neither status nor observation; 404 and no change for an unknown id; otherwise 200 with the row whose status and observation alone changed |
| Routes.DeleteActivityRoute | index.js:271-282 | 500 and no change on a store fault or an out-of-range id; otherwise 204 iff the activity existed, 404 iff not |
| Routes.DeleteTwice | index.js:176-282 | deleting the same id twice as an activity, a holiday and a component: the first answers follow existence, the second are 404, except 500 throughout for an out-of-range id and 500 both times for a component another activity still references |
| Routes.CarnavalScenario | index.js:188-220 | on a fresh store, creating a holiday answers 201 with id 1, listing shows exactly it, deleting answers 204 and listing again shows nothing |
| RequestLog.Decimal | index.js:412 | the status and duration are spelled in base ten: digits only, no leading zero, denoting the number |
| RequestLog.Clip | index.js:415-417 | a clipped line has at most 80 characters; a line that fits is unchanged; a longer one keeps its first 79 characters followed by `…` |
| RequestLog.ClipIdempotent | index.js:415-417 | clipping a clipped line changes nothing |
| RequestLog.LogEntry | index.js:408-420 | a line is produced iff the path starts with "/api", and it is the clipped `METHOD path status in Nms[ :: json]` line, at most 80 characters |
| RequestLog.EntryKeepsRequest | index.js:411-417 | when method and path fit in 79 characters, the logged line begins with them |
| RequestLog.ShortLineUnchanged | index.js:411-417 | an API line of at most 80 characters is logged exactly as composed |

## Left out

- The Neon/Postgres pool and connection (index.js:62-72): the tables are modelled as in-memory maps with one serial counter each.
- The order of unordered `select` results: SQL promises none; the model lists rows in ascending id order, one admissible order.
- Other database faults (lost connection, constraint errors other than the foreign key): modelled as a `storeFault` flag on each route, with the store call failing before it writes anything or draws an id; a failure after the sequence was advanced is modelled only for the foreign-key refusal of an activity insert.
- `parseInt` of the path id: ids arrive as integers, and ids outside the 32-bit `integer` range answer 500; a path id that does not parse (NaN) is not modelled.
- The `serial` sequences are unbounded counters; exhausting the 32-bit range is not modelled.
- JSON numbers are integers in the model; fractional numbers and drizzle-zod's integer range check on `componentId` are not modelled.
- The zod error objects are modelled as a list of issues (path and reason), not their full message text.
- The query builder's handling of an update with no column to set (an accepted `{}` body, or one carrying only keys the schema drops) is library code not visible here; the model answers 500 for it, as the refused statement ends in the handler's catch block, whichever way the builder refuses it.
- `JSON.stringify` of the captured body is an opaque string parameter of `RequestLog.LogEntry`; the timestamp, `[express]` tag and `console.log` of `log` (index.js:332-340) and the clock that measures the duration are left out, the duration being a parameter.
- Line length is counted in Dafny characters (Unicode scalar values), while JavaScript counts UTF-16 code units; lines with characters outside the Basic Multilingual Plane may be clipped at a different place.
- Vite setup, static file serving and the client fallback route (index.js:341-393), the global error handler and `listen` (index.js:424-445): plumbing with no stated logic.
- async/await interleaving and concurrent requests: the model runs one request at a time.
