# Spoolman printers and cost calculations, in Dafny

This project models the part of the Spoolman backend that keeps printers and
saved print-cost calculations. It covers:

- The `printer` and `cost_calculation` tables and their database operations:
  `create`, `get_by_id`, `find`, `update` and `delete`, in
  `spoolman/database/printer.py` and `spoolman/database/cost.py`.
- The REST handlers over them in `spoolman/api/v1/printer.py` and
  `spoolman/api/v1/cost.py`:
  - request-body validation (the pydantic models);
  - the `sort` query parser and the id-list parser `_parse_int_csv`;
  - the mapping of ItemNotFoundError to 404;
  - the `x-total-count` header.

Each table is a class holding `rows: map<int, Record>` and a `nextId` counter.
Its methods change the rows in place, as the session's add/commit and delete
do. The counter stands for the primary-key generator.

Handlers are methods that return a `Response` datatype: a status, a body and
an optional `x-total-count`. Request bodies are datatypes. Validation
functions return the list of field errors, and an empty list means the body
is accepted.

The database's evaluation of a `find` statement is spelled out in
`DbUtils.Execute`:

- the WHERE clause keeps rows by ascending id;
- ORDER BY is an insertion sort under a per-field comparison `cmp`, which is a
  parameter;
- OFFSET/LIMIT is a slice;
- COUNT(*) is the size of the set of matching ids.

Modules, one per file:

- `Wrappers` (wrappers.dfy): Option, Result, and `x if x is not None else y`.
- `Text` (text.dfy): Python's `str.split`, `sep.join`, `int()`, `str()`,
  `upper`/`lower` and `in` on strings, as far as the core uses them.
- `DbUtils` (db_utils.dfy): SortOrder, ItemNotFoundError, and WHERE / ORDER BY /
  OFFSET / LIMIT / COUNT.
- `SortParam` (sort_param.dfy): the `sort` loop shared by both `find`
  endpoints.
- `Http` (http.dfy): responses, plus the `ge=0` and `max_length` checks.
- `PrinterDb` (printer_db.dfy), `CostDb` (cost_db.dfy): the tables.
- `PrinterApi` (printer_api.dfy), `CostApi` (cost_api.dfy): the handlers.

## Model

| member | source | states |
|---|---|---|
| CostApi.ParseIntCsv | spoolman/api/v1/cost.py:57-60 | `None` gives `None`. A string parses exactly when it matches the query pattern `^-?\d+(,-?\d+)*$`, and then yields a list. |
| CostApi.ParseInts | spoolman/api/v1/cost.py:60 | The list comprehension of `int(v)` succeeds exactly when every piece is an integer literal. It then has one value per piece, each what `int` reads. A failure names a piece `int` rejects. |
| CostApi.ParseIntCsvSpec | spoolman/api/v1/cost.py:60 | For a string the pattern admits: one int per comma-separated piece, in order, and the count is the number of commas plus one. |
| CostApi.ParseIntCsvRoundTrip | spoolman/api/v1/cost.py:57-60 | Joining a non-empty int list with "," gives a string the pattern admits. Parsing it gives the same list back. |
| CostApi.QueryErrors | spoolman/api/v1/cost.py:79-96 | `printer_id`/`filament_id` are rejected with 422 exactly when given and not matching the pattern, with one error per bad parameter. |
| CostApi.BodyErrors | spoolman/api/v1/cost.py:30-50 | No errors exactly when every `ge=0` field is absent or non-negative, currency is at most 8 characters, item_names at most 512 and notes at most 1024. Each broken constraint has its own error. |
| CostApi.PersistedFieldsSpec | spoolman/database/cost.py:57-76 | The stored values do not depend on `energy_cost_per_kwh`, `labor_cost_per_hour` or `item_names`. For a body that passes validation, no stored number is negative, currency fits String(8) and notes fit String(1024) (the columns of migrations/versions/2024_08_22_0000-1b23c4567abc_printers_and_costs.py:51-52). |
| CostApi.UnexpectedKeyword | spoolman/database/cost.py:26-46 | Python's keyword binding against a keyword-only signature: no error exactly when every passed name is declared. Otherwise the error names an undeclared passed name. |
| CostApi.AsWrittenCallsRejected | spoolman/api/v1/cost.py:219-241 | The create call (and likewise the update call at lines 267-290) passes `energy_cost_per_kwh`, which `cost_db.create`/`cost_db.update` do not declare, so binding fails there. |
| CostApi.PersistedCallsAccepted | spoolman/database/cost.py:144-165 | Passing only the declared fields binds, for create and for update (signature of create at lines 26-46). |
| CostApi.Find | spoolman/api/v1/cost.py:112-141 | 422 for a bad id list. A malformed sort raises (500). Otherwise 200 with the rows of `cost_db.find` for the parsed lists; each row is stored and passes both id filters; there are at most `limit` rows; `x-total-count` reads back as the number of matching rows. |
| CostApi.Get | spoolman/api/v1/cost.py:172-185 | The stored row, or 404 with "No cost calculation with ID {id} found.". |
| CostApi.CreateAsWritten | spoolman/api/v1/cost.py:214-251 | As written: 422 for an invalid body. Every valid body gets 500 and the table is unchanged. |
| CostApi.Create | spoolman/api/v1/cost.py:214-251 | Corrected call: 422; 404 for a given printer or filament that does not exist (the printer is checked first), table unchanged; else 201 and one new row under a fresh id holding the body's stored fields. |
| CostApi.UpdateAsWritten | spoolman/api/v1/cost.py:261-299 | As written: 422 for an invalid body. Every valid body gets 500, whatever the id, and the table is unchanged. |
| CostApi.Update | spoolman/api/v1/cost.py:261-299 | Corrected call: 422; 404 for an unknown calculation, then printer, then filament, with the table unchanged; else 200 and the coalesced row, with no other row changed. |
| CostApi.Delete | spoolman/api/v1/cost.py:308-319 | 404 with the message for an unknown id. Otherwise the row is gone, nothing else changes, and the answer is "Cost calculation deleted.". |
| CostApi.DeleteThenGet | spoolman/api/v1/cost.py:172-185 | After a delete, a get of the same id answers 404. |
| CostDb.Coalesced | spoolman/database/cost.py:176-194 | Each of the 13 numeric and 2 text columns becomes the argument when it is not None, else keeps its value. |
| CostDb.CoalescedSpec | spoolman/database/cost.py:176-194 | No update clears a column, `final_price` included. The all-None patch changes nothing. Applying a patch twice is applying it once. |
| CostDb.Updated | spoolman/database/cost.py:167-194 | Id and creation time are kept; the references coalesce like the columns. |
| CostDb.UpdatedIdempotent | spoolman/database/cost.py:167-197 | Updating twice with the same arguments equals updating once. |
| CostDb.CostTable.Create | spoolman/database/cost.py:26-81 | A given but unknown printer, then a given but unknown filament, raises not-found and adds nothing. Otherwise exactly one row is added, under a fresh id, holding the arguments and the time of the call. |
| CostDb.CostTable.GetById | spoolman/database/cost.py:84-96 | The stored row, or not-found with its message. |
| CostDb.CostTable.Update | spoolman/database/cost.py:144-197 | Not-found for an unknown id, then printer, then filament, and nothing changes on any failure. Otherwise the row becomes `Updated(...)` and no other row changes. |
| CostDb.CostTable.Delete | spoolman/database/cost.py:200-218 | Exactly that row is removed; an unknown id raises not-found. |
| CostDb.CostTable.Find | spoolman/database/cost.py:99-141 | The rows are the statement's result over the rows both filters keep. Each is stored and passes both filters. Sorted when the comparison is antisymmetric. Without a limit: all matches, and the total is the number returned. With a limit: at most `limit` rows, and the total counts every match regardless of offset. |
| CostDb.CostTable.FindFacts | spoolman/database/cost.py:118-141 | What the statement over the filtered rows yields, and that the filtered rows are as many as the matching ids. |
| PrinterDb.Patched | spoolman/database/printer.py:102-108 | Id and registration time are kept. |
| PrinterDb.PatchedSpec | spoolman/database/printer.py:103-108 | A given argument wins and an absent one keeps the column. The empty patch changes nothing. A patch is idempotent. Two updates in a row are one update whose later arguments win. |
| PrinterDb.NameFilterTerm | spoolman/api/v1/printer.py:84-86 | An unquoted comma-free term matches exactly the names that contain it as a part, ignoring case; its lower-cased form matches the same names. |
| PrinterDb.NameMatchesOwnName | spoolman/api/v1/printer.py:84-86 | With no filter every printer matches. A comma-free name finds its own printer unquoted (when not itself quoted) and quoted. |
| PrinterDb.PrinterTable.Create | spoolman/database/printer.py:21-41 | Exactly one new printer, under a fresh id, with the given fields and the time of the call. |
| PrinterDb.PrinterTable.GetById | spoolman/database/printer.py:44-53 | The stored printer, or not-found with "No printer with ID {id} found.". |
| PrinterDb.PrinterTable.Update | spoolman/database/printer.py:92-111 | Not-found and no change for an unknown id. Otherwise only that printer changes, to `Patched(old, patch)`. |
| PrinterDb.PrinterTable.Delete | spoolman/database/printer.py:114-124 | Exactly that printer is removed; an unknown id raises not-found. |
| PrinterDb.PrinterTable.Find | spoolman/database/printer.py:56-89 | The rows are the statement's result over the name-matching printers. Each is stored and matches the name filter. Sorted when the comparison is antisymmetric. Without a limit: all matches, and the total is the number returned. With a limit: at most `limit`, and the total counts all matches. |
| PrinterDb.PrinterTable.FindFacts | spoolman/database/printer.py:66-89 | What the statement over the filtered printers yields, and their number. |
| PrinterDb.PrinterTable.MatchingCount | spoolman/database/printer.py:70-74 | The filtered printers are as many as the ids of the matching printers (the COUNT(*) of the WHERE). |
| PrinterApi.CreateErrors | spoolman/api/v1/printer.py:30-49 | No errors exactly when `name` is a string, both numbers are absent or non-negative and the comment is at most 1024 characters. A missing name and a null name each give their error. |
| PrinterApi.UpdateErrors | spoolman/api/v1/printer.py:52-61 | No errors exactly when `name` is not an explicit null and the bounds hold. An explicit null gives "Value must not be None."; an absent name is accepted. |
| PrinterApi.UpdateBodyEffect | spoolman/api/v1/printer.py:231-238 | What an update body does to the stored printer, through `printer_db.update`: a sent field replaces its column; an absent one (and a null number or comment) keeps it. So no body clears a column, and id and registration time are kept. |
| PrinterApi.Find | spoolman/api/v1/printer.py:78-125 | A malformed sort raises (500). Otherwise 200 with the rows of `printer_db.find`: each stored and name-matching, at most `limit` of them, and `x-total-count` reading back as the number of matching printers. |
| PrinterApi.Get | spoolman/api/v1/printer.py:156-169 | The printer, or 404 with the not-found message. |
| PrinterApi.Create | spoolman/api/v1/printer.py:198-215 | 422 for an invalid body and no change. Otherwise always 201 and one new printer holding the body. |
| PrinterApi.Update | spoolman/api/v1/printer.py:225-247 | 422 for an invalid body. 404 for an unknown id. Otherwise 200 and the coalesced printer, the only row that changes. |
| PrinterApi.Delete | spoolman/api/v1/printer.py:256-267 | 404 for an unknown id. Otherwise the printer is gone and the answer is "Printer deleted.". |
| PrinterApi.DeleteThenGet | spoolman/api/v1/printer.py:156-169 | After a delete, a get of the same id answers 404. |
| PrinterApi.UpdateTwice | spoolman/api/v1/printer.py:225-247 | Sending the same update twice answers the same printer and leaves the table as one update does. |
| SortParam.ParseSort | spoolman/api/v1/printer.py:106-110 | The loop computes `SortSpec(sort)`. An absent sort gives the empty map. A result has no repeated field. |
| SortParam.SortSpecMeaning | spoolman/api/v1/cost.py:113-117 | A sort string succeeds exactly when every item parses. The dictionary then has each field once, in order of first appearance, with the direction of its last appearance. |
| SortParam.BuildKeys | spoolman/api/v1/cost.py:117 | Assigning into the dictionary: the keys are distinct, in order of first assignment, and the same set as the assigned fields. |
| SortParam.BuildLookup | spoolman/api/v1/cost.py:117 | A repeated field takes the direction of its last assignment. |
| SortParam.PutSpec | spoolman/api/v1/printer.py:110 | `sort_by[field] = order`: an existing key keeps its place and takes the new value; a new key goes last; nothing else changes. |
| SortParam.ParseItemsSpec | spoolman/api/v1/cost.py:115-117 | The items parse exactly when each does, one pair per item in order; the error raised is that of the first bad item. |
| SortParam.ParseItemNeedsOneColon | spoolman/api/v1/cost.py:116 | An item without exactly one ':' fails to unpack, naming the number of pieces. |
| SortParam.ParseItemRoundTrip | spoolman/api/v1/cost.py:116-117 | "field:direction" with a colon-free field and a known direction parses back to that pair. |
| SortParam.DirectionIgnoresCase | spoolman/api/v1/cost.py:117 | Lower- or upper-casing the direction does not change the parsed order. |
| DbUtils.ExecuteSpec | spoolman/database/printer.py:68-85 | The statement's rows are drawn from the matching rows and are sorted when the comparison is antisymmetric. Without a window: all of them. With OFFSET/LIMIT: at most `limit`. |
| DbUtils.RowsWhereMembers | spoolman/database/cost.py:118-119 | The WHERE result is exactly the stored rows the filter keeps, each under its own id, once each, by ascending id. |
| DbUtils.RowsWhereCountAll | spoolman/database/printer.py:71-72 | The WHERE result is as large as the set of matching ids. |
| DbUtils.OrderRowsIsSorted | spoolman/database/cost.py:127-133 | The ORDER BY clauses are respected: the first clause that tells two rows apart decides, and DESC reverses. |
| Http.NonNegativeErrors | spoolman/api/v1/cost.py:33-47 | One `ge=0` error per negative field and none otherwise. |
| Http.LengthErrors | spoolman/api/v1/cost.py:48-50 | One `max_length` error per over-long field and none otherwise. |
| Text.IntToStringRoundTrip | spoolman/api/v1/cost.py:140 | `int(str(n)) == n`, and `str(n)` holds no comma. |
| Text.ParseInt | spoolman/api/v1/cost.py:60 | `int(s)` succeeds exactly on an optionally negated run of decimal digits. |
| Text.SplitJoin | spoolman/api/v1/cost.py:115 | Splitting a join of separator-free pieces gives the pieces back. |
| Text.SplitCount | spoolman/api/v1/cost.py:115 | `split` yields one piece more than there are separators. |
| Wrappers.CoalesceSpec | spoolman/database/printer.py:103-108 | `x if x is not None else current` never clears a value. `None` changes nothing. The same argument applied twice is applied once. Two in a row equal one whose later argument wins. |

## Left out

- Websocket endpoints and change notifications: `cost_changed` and `printer_changed`, the event payloads, and the `notify` handlers.
- The session itself: commit and refresh, joinedload options, and response serialisation (`from_db`, `jsonable_encoder`, `exclude_none`). Handlers answer the stored records.
- The clock: `datetime.utcnow()` is a `Timestamp` parameter of create.
- Id allocation: the model hands out ascending ids and promises only that a new id is fresh. A database may reuse ids.
- spoolman/database/utils.py is not part of this model:
  - The name filter and the id filters follow the query parameters' documented meaning (printer.py:84-86, cost.py:83 and 92).
  - `parse_nested_field` and the column comparison are the parameter `cmp`.
  - SortOrder is taken to have exactly ASC and DESC.
- The filament table: the ids of existing filaments are a parameter.
- What deleting a printer does to the calculations that reference it: spoolman/database/models.py is not part of this model.
- Rows that compare equal under every ORDER BY clause come out in an order the model fixes. SQL leaves it unspecified.
- PrinterDb.PrinterTable.Find: `limit` and `offset` are natural numbers. A negative value, which the query accepts as an int, is not modelled.
- PrinterApi.Find: `limit` and `offset` are natural numbers, while the query parameters are Python ints. A negative value is not modelled.
- CostApi.Find: `limit` and `offset` are natural numbers, while the query parameters are Python ints. A negative value is not modelled.
- CostDb.CostTable.Find: `limit` and `offset` are natural numbers. A negative value is not modelled.
- Text.ParseInt: accepts only an optional '-' followed by ASCII digits. Python's `int()` also takes surrounding whitespace, '+' and underscores, which the query pattern rejects before `_parse_int_csv` runs. It also takes non-ASCII decimal digits (such as '١'). The pattern's Unicode-aware `\d` admits those too, so the source answers `printer_id=١` with 200. The model rejects such digits in both the pattern and the parse and answers 422.
- CostApi.MatchesIdPattern: `\d` is taken as ASCII digits, and `$` does not admit a final newline.
- SortParam.ParseDirection: upper-casing is exact for ASCII and for U+017F. Other characters whose Python upper case contains ASCII letters are kept unchanged, and so are rejected.
- Floats are reals: no NaN, infinity or rounding.
- The `printer.name` column's length limit (128) is not checked by the API and is not modelled.
- The three body fields `energy_cost_per_kwh`, `labor_cost_per_hour` and `item_names`:
  - They are validated.
  - They have columns since the 2025-02-12 migration, but the database layer does not store them.
  - How their columns would be filled is outside the core.

## Findings

| source | as written | input that shows it | evidently intended | confidence | as-written member | corrected member |
|---|---|---|---|---|---|---|
| spoolman/api/v1/cost.py:219-241 | `create` passes `energy_cost_per_kwh`, `labor_cost_per_hour` and `item_names` to `cost_db.create`, whose keyword-only signature (spoolman/database/cost.py:26-46) does not declare them, so the call raises TypeError and the endpoint answers 500 | `POST /cost` with the body `{}` | The call binds: a valid body is stored and answered with 201, or 404 for an unknown printer or filament | not executed | CostApi.CreateAsWritten (with CostApi.AsWrittenCallsRejected) | CostApi.Create |
| spoolman/api/v1/cost.py:267-290 | `update` passes the same three keywords to `cost_db.update` (spoolman/database/cost.py:144-165), which raises TypeError before the row is read, so every valid body is answered 500 | `PATCH /cost/1` with the body `{}` | The call binds: 404 for an unknown id, printer or filament, else the coalesced row | not executed | CostApi.UpdateAsWritten (with CostApi.AsWrittenCallsRejected) | CostApi.Update |

The corrected members pass exactly the parameters the database layer declares. A migration adds columns for the three fields. Storing them would also need `cost_db.create`/`update` and the table model (spoolman/database/models.py, not part of this model) to take them.
