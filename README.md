# UAS logbook — flight times, list statistics and CSV export

This project models the core of a Django logbook for unmanned-aircraft (UAS) pilots. It models:

- the flight-log entry, and the flight time that every save derives from the entry's date and its off-block and on-block times;
- the pilot-role choices and their display labels;
- the list page: its filters, its flight-time total, the all-time and last-30-days statistics, and the most-flown UAV type;
- the CSV export, one row per entry in ascending date order.

The database is modelled as a sequence of `Entry` values, and a query is a function over that sequence. The current day is a parameter of the list page.

The modules are:

- `Wrappers`: `Option` and `Result`.
- `Calendar`: Python's `datetime.date` as a validated year, month and day.
  - Its ordinal numbering is that of `toordinal`.
  - `d - timedelta(days=n)` is `DaysBefore`.
  - A `datetime.time` is a count of microseconds since midnight.
  - `str()` renders dates, times and non-negative integers. Round-trip lemmas show each of them can be read back.
- `Models`: the entry.
  - `Entry` is the stored row.
  - `FlightLogEntry` is the model instance. Its `Save` method overwrites only `flightTime`.
  - Also here: the role table, and the attribute names the model defines.
- `Ordering`: `order_by("date")` and `order_by("-date")` as a stable insertion sort, proved ordered and a permutation.
- `Sequences`: order-preserving selection (a `WHERE` clause) and an arg-max.
- `Views`: `flight_list`. This covers `__icontains` as an ASCII case-insensitive substring test, SQL `SUM` with its null handling, the statistics, and the list page as written.
- `Export`: `flight_export_csv`.
  - The header and the rows are `seq<string>`, one cell per value.
  - `csv.writer` writes `None` as the empty cell and any other value `v` as `str(v)`.
  - `ExportCsv` sorts the entries by date and hands them to `WriteRows`, a method whose loop appends one row per entry; `ExportCsvAsWritten` and `WriteRowsAsWritten` are the same pair for the code as written.

About the code's behaviour:

- A flight from 08:00 to 08:01 logs 1 minute (`60 // 60`).
- The export writes the view's 29 columns.
- Only the pilot role is written as its label; the other enumerations are written as their stored codes.

## Model

| member | source | states |
|---|---|---|
| Models.RoleChoices | logbook/models.py:58-65 | the choices are the seven (code, label) pairs in declaration order |
| Models.RoleCodesDistinct | logbook/models.py:58-65 | two roles share a code only if they are the same role, and every role is among the choices |
| Models.RoleOfCode | logbook/models.py:58-65 | reverse lookup: the role found has that code, and no role has the code when none is found |
| Models.PilotRoleDisplay | logbook/views.py:181 | `get_pilot_role_display()` gives the label of the role whose code is stored, and the stored value itself when no role has that code |
| Models.Combine | logbook/models.py:215-218 | the combined instant is absent exactly when the date or the time is missing; otherwise its day is the date's ordinal and its time within the day is the given time |
| Models.SameDay | logbook/models.py:225-226 | two times combined with the same date lie exactly as far apart as the two times |
| Models.FlightTime | logbook/models.py:225-232 | no flight time exactly when the date or a block time is missing or arrival is not strictly after departure; otherwise the whole minutes between them, rounded down, and at most 1439 |
| Models.EqualTimesGiveNone | logbook/models.py:228-232 | equal off-block and on-block times give no flight time, not zero |
| Models.EarlierArrivalGivesNone | logbook/models.py:228-232 | an on-block time earlier than the off-block time (a flight across midnight) gives no flight time |
| Models.ShortFlightGivesZero | logbook/models.py:228-230 | a flight shorter than one minute is logged as 0 minutes |
| Models.FlightTimeExamples | logbook/models.py:225-232 | 09:00→09:00 gives none, 10:00→09:59 gives none, 08:00→08:00:59 gives 0, 08:00→08:01 gives 1 |
| Models.DerivedFlightTimeBound | logbook/models.py:186-188 | a stored flight time that the entry's own times derive is at most 1439 minutes |
| Models.ModelField | logbook/models.py:104-206 | the names Django resolves on an entry: the modelled attributes, the key `id` and its alias `pk`, the owner `user` and its column `user_id`, and the creation time; `Views.DurationsUndeclared`, `Export.EngineClassUndeclared` and `Export.TimestampsUndeclared` show the names the views read that it does not contain |
| Models.FlightLogEntry.constructor | logbook/models.py:111-204 | a new instance has role `PIC`, four zero takeoff and landing counters, no flight time, is not a simulator session and has empty optional text |
| Models.FlightLogEntry.Row | logbook/models.py:111-204 | the stored row carries the instance's date, block times, flight time, UAV type, role and simulator flag, and is derived when the instance is |
| Models.FlightLogEntry.Save | logbook/models.py:220-234 | afterwards the flight time is the one that the date and the block times give, whatever it was before, and no other field has changed |
| Models.Resave | logbook/models.py:220-234 | saving an entry that was already saved leaves its flight time unchanged |
| Calendar.OrdinalOrder | logbook/views.py:25-27 | comparing two dates by (year, month, day) is comparing their ordinals |
| Calendar.Ordinal | logbook/views.py:43 | `toordinal()` numbers every date between 1 (0001-01-01) and 3652059 (9999-12-31); `OrdinalOrder` shows it follows the date order and `DaysBefore` steps it down one day at a time |
| Calendar.DaysBefore | logbook/views.py:43 | `today - timedelta(days=n)` is the date whose ordinal is n less, defined only while that ordinal is at least 1 |
| Calendar.NatText | logbook/views.py:188-192 | `str(n)` is a non-empty string of decimal digits; `NatTextValue` reads it back as n |
| Calendar.NatTextValue | logbook/views.py:188-192 | the decimal text of a count reads back as that count |
| Calendar.NatTextNoLeadingZero | logbook/views.py:188-192 | `str(n)` starts with the digit 0 exactly when n is 0, so it has no leading zero |
| Calendar.DateText | logbook/views.py:171 | `str(date)` has ten characters: digits, with `-` at positions 4 and 7 |
| Calendar.DateTextFields | logbook/views.py:171 | the year, month and day read back from `str(date)` |
| Calendar.TimeText | logbook/views.py:174-175 | `str(time)` is `HH:MM:SS` (8 characters), followed by `.ffffff` (15 in all) exactly when the microseconds are not zero; it has digits everywhere else |
| Calendar.TimeTextFields | logbook/views.py:174-175 | the time of day reads back exactly from `str(time)` |
| Ordering.Insert | logbook/views.py:16 | inserting adds exactly one copy of the entry |
| Ordering.InsertSorted | logbook/views.py:16 | inserting into a date-ordered sequence keeps it ordered |
| Ordering.SortByDate | logbook/views.py:129 | the result is ordered by date in the requested direction and is a permutation of the input |
| Sequences.ArgMax | logbook/views.py:52-55 | the first row of `order_by("-total_time")` is one of the groups, and no group has a larger total |
| Views.Contains | logbook/views.py:29 | true exactly when the needle occurs at some position of the text |
| Views.ContainsIgnoreCase | logbook/views.py:29 | `uav_type__icontains`: true exactly when the lower-cased needle occurs at some position of the lower-cased text |
| Views.IcontainsExample | logbook/views.py:29 | on stored configuration codes: `"Multi"` matches `"MULTI"`, `"ix"` matches `"FIXED"`, and `"multi"` does not match `"HELI"` |
| Views.NarrowCount | logbook/views.py:24-31 | one filter keeps every copy of an entry that satisfies its condition, and no other entry |
| Views.NarrowMember | logbook/views.py:24-31 | an entry is selected by one filter exactly when it is in the sequence and meets the condition |
| Views.ApplyFilters | logbook/views.py:24-31 | the four filters applied in order, each only when its parameter is given; the result is a sub-multiset of all entries, and `FiltersAreConjunction` shows it equals the one-pass selection of entries that match every parameter |
| Views.FiltersAreConjunction | logbook/views.py:19-31 | the chain of filters selects exactly the entries that meet every supplied parameter; an absent or empty parameter imposes nothing; bounds are inclusive, `uav` matches a substring regardless of case, `role` is exact |
| Views.SumFlightTime | logbook/views.py:34-35 | SUM is null exactly when no entry has a flight time |
| Views.SumIsTotalOfPresent | logbook/views.py:34-35 | SUM is the total of the flight times that are set, or null when none is set; it is not turned into 0 |
| Views.SumBound | logbook/views.py:34-35 | over saved entries the sum is at most 1439 minutes per entry |
| Views.SumSorted | logbook/views.py:16 | the sum does not depend on the row order |
| Views.Recent | logbook/views.py:42-45 | the recent set holds every entry, filtered or not, dated no earlier than 30 days before today, with no upper bound, and no other entry |
| Views.GroupTotal | logbook/views.py:48-51 | the `total_time` of one UAV-type group is null exactly when no entry of that type has a flight time; otherwise the group's SUM, the total of the flight times its entries have |
| Views.MostFlown | logbook/views.py:48-60 | an empty logbook gives (None, 0); otherwise a UAV type that some entry has, with its group total (null counted as 0), at least the total of every other type |
| Views.MostFlownSingleGroup | logbook/views.py:48-60 | a logbook of one UAV type ranks that type with the logbook's whole flight time |
| Views.FlightList | logbook/views.py:14-85 | exactly the matching entries, newest first; their SUM; the all-time count; the recent count and time (null as 0); the ranking and the role choices; OverflowError exactly when `today - 30 days` falls before year 1 |
| Views.StatsIgnoreFilters | logbook/views.py:41-68 | two queries over the same logbook and day give the same statistics |
| Views.DurationsUndeclared | logbook/views.py:36-38 | `block_time`, `engine_time` and `gcs_time` are not fields of the model |
| Views.Unresolved | logbook/views.py:34-39 | none exactly when every name is a field of the model; otherwise the first name that is not |
| Views.FlightListAsWritten | logbook/views.py:34-39 | as written the aggregate raises FieldError on the first undefined field name; only a query whose names all resolve would reach the corrected view |
| Views.FlightListAsWrittenFails | logbook/views.py:34-39 | every call of the list page as written fails with FieldError on `block_time` |
| Export.Render | logbook/views.py:170-200 | None becomes the empty cell; text is written as is; a count as decimal digits that read back as the count; a date as `str(date)` (`YYYY-MM-DD`, read back by `Calendar.DateTextFields`); a time as `str(time)` (`HH:MM:SS[.ffffff]`, read back by `Calendar.TimeTextFields`); a flag as `True`/`False` |
| Export.AttrValue | logbook/views.py:171-199 | the value an attribute read `f.<name>` gives; only the four nullable fields (the two block times, the flight time and the simulator time) can give None |
| Export.ExportHeader | logbook/views.py:137-167 | the header has 29 cells |
| Export.HeaderLabels | logbook/views.py:137-167 | columns 0, 10, 21 and 25 are headed Date, Pilot role, Flight time (min) and Simulator? |
| Export.UndeclaredPositions | logbook/views.py:170-200 | exactly the ten columns 9, 11–16 and 22–24 read attribute names outside the model |
| Export.EngineClassUndeclared | logbook/views.py:180 | `engine_class` is not a field of the model |
| Export.TimestampsUndeclared | logbook/views.py:182-187 | the six timestamp attributes the row reads are not fields of the model |
| Export.UndeclaredColumns | logbook/views.py:180-195 | every such column names something the model does not define |
| Export.CellAsWritten | logbook/views.py:170-200 | reading a cell fails exactly for those columns, with AttributeError naming the attribute |
| Export.ExportColumns | logbook/views.py:170-200 | the row lists 29 columns in the view's order |
| Export.RowAsWritten | logbook/views.py:170-200 | a row is built exactly when no column is undefined, and then cell i is column i's cell; otherwise the error is that of the first undefined column, as the list display is evaluated left to right |
| Export.RowAsWrittenFails | logbook/views.py:180 | for every entry, building the row raises AttributeError on `engine_class` |
| Export.ExportCsvAsWritten | logbook/views.py:128-202 | as written, a result only when every sorted row can be built, and then the header followed by those rows; otherwise the error of a row that fails |
| Export.WriteRowsAsWritten | logbook/views.py:137-200 | the writing loop as written over entries in query order: the header, then the rows, when no row raises; otherwise the error of a row that raises |
| Export.ExportAsWrittenOutcome | logbook/views.py:169-200 | as written, every row of a non-empty logbook raises on `engine_class` |
| Export.Cell | logbook/views.py:170-200 | corrected: wherever a cell as written exists it is that cell, and the cells for undefined attributes are empty |
| Export.ExportRow | logbook/views.py:170-200 | a corrected row has 29 cells, as many as the header |
| Export.ExportRowDate | logbook/views.py:171 | the first cell is the flight date as `YYYY-MM-DD` |
| Export.ExportRowBlockTimes | logbook/views.py:174-175 | the off-block and on-block cells are `str(time)` of the block times, empty when a time is missing |
| Export.ExportRowRole | logbook/views.py:181 | the role cell is the role's display label, not its code |
| Export.ExportRowFlightTime | logbook/views.py:192 | the flight-time cell is the stored minutes, empty when none is stored |
| Export.ExportRowSimulator | logbook/views.py:196 | the simulator cell is `Yes` exactly for simulator sessions and `No` exactly for the others |
| Export.ExportRowAgrees | logbook/views.py:170-200 | on every column the model defines, the corrected row agrees with the row as written |
| Export.ExportCsv | logbook/views.py:128-202 | the header, then one 29-cell row per entry, the i-th being the row of the i-th entry in ascending date order |
| Export.WriteRows | logbook/views.py:137-200 | over entries in query order: the header, then one 29-cell row per entry, the i-th being the row of the i-th entry |

## Left out

- Persistence and HTTP are not modelled: the ORM, requests and responses, `login_required`, `render`, `redirect` and `get_object_or_404`. The database is a sequence of entries, and `save` writes nothing beyond the flight-time field.
- The entry's owner (`user`), its key and `created_at` are not fields of `Entry`, so the all-time count and the statistics are over the sequence given. Both views order by date alone (`order_by` replaces the default ordering), so entries with equal dates come in database order, as the next line says.
- Ordering.SortByDate: the database leaves the order of entries with equal dates open; the model keeps them in collection order, and only date order and permutation are stated.
- Views.MostFlown: where null totals sort and how equal totals are broken depends on the database backend. The body picks the first maximal type in collection order; the contract promises only a maximal one.
- Calendar, `today`: `timezone.now()` is a parameter. The start and end parameters arrive as already-parsed dates; parsing of the `YYYY-MM-DD` text and its error paths is not modelled.
- Views.ContainsIgnoreCase folds ASCII letters only; SQL `LIKE` case folding of other characters depends on the backend and its collation.
- Export: `csv.writer` quoting, escaping and line endings are not modelled; a row is its cells as strings.
- Export.Render for a time of day covers `str(time)` without time zone; HTTP headers and the attachment file name are not modelled.
- Models.FlightTime uses integer microseconds: `total_seconds()` is a float, but within one day `// 60` of it equals the integer floor.
- `editable=False` on `flight_time` only keeps the field off forms; forms, widgets, URL routing and admin registration hold no logic and are not modelled.
- `PilotProfile` (photos, documents, the time display unit) is storage only and is not modelled.
- The other choice tables (UAV configuration, EASA class, mission type, GCS form factor) only restrict form input and are not modelled; the stored codes are strings.
- A missing `date` on save is not modelled as a database error: the instance's date is optional, and only an instance with a date has a stored row.

## Findings

| source | as written | input that shows it | evidently intended | confidence | as-written member | corrected member |
|---|---|---|---|---|---|---|
| logbook/views.py:34-39 | the totals also sum `block_time`, `engine_time` and `gcs_time`, which the model does not define, so the aggregate raises FieldError | any request to the list page, even on an empty logbook | total only the fields the model has (`flight_time`) | not executed | Views.FlightListAsWritten, Views.FlightListAsWrittenFails | Views.FlightList |
| logbook/views.py:180-195 | each row reads `engine_class`, six timestamps and three durations that the model does not define, so the first row raises AttributeError on `engine_class` | a logbook with one entry | write the columns the model has, and leave the undefined ones empty | not executed | Export.RowAsWritten, Export.RowAsWrittenFails, Export.ExportCsvAsWritten, Export.ExportAsWrittenOutcome | Export.ExportRow, Export.ExportCsv |
