# AFEMEC registration tool — a Dafny model

This project models the logic of the AFEMEC tournament registration tool and proves properties about it. The tool has three parts:

- **server.js**: an Express server over SQLite, or over Postgres when `DATABASE_URL` is set.
- **admin.js**: the browser script of the admin dashboard.
- **script.js**: the browser script of the public registration form.

The model covers these parts of the code:

- **Server persistence shim.** `mapPgRow` renames Postgres' lower-case column names to the camelCase names the front end expects, and turns `count`/`total` strings into numbers. `dbRun` and `dbAll` rewrite `?` placeholders to `$1, $2, …`. `dbRun` adds ` RETURNING id` to INSERT statements and reports `lastID`. `dbGet` returns the first row or nothing.
- **Server request handlers.** These work over an abstract players table (`Server.PlayerTable`: a row sequence, a `nextId`, and an insert the database may refuse):
  - registration;
  - the exact-match admin token check and login;
  - the player list;
  - the bulk import loop: one insert per record with defaults; the first failure stops it and earlier inserts stay committed;
  - deletion;
  - the `total` of the statistics.
- **Admin client.** The dashboard state (`allPlayers`) is a class, `AdminList.AdminPanel`. Modelled here:
  - the combined search/category/team filter shared by the table and the export;
  - the export workbook: one sheet per distinct category in order of first appearance, each sheet sorted by team;
  - the "top category" `reduce`;
  - the spreadsheet-import row mapping with its `||` fallbacks and defaults;
  - removal of a deleted id from the local list.
- **Registration form.** Also modelled:
  - WhatsApp phone normalisation;
  - the guarantor fields that the player type makes required;
  - the team-name display format;
  - the condition for the PDF authorization block and the PDF file name.

JavaScript semantics that matter here are modelled explicitly:

- truthiness and `||` chains (`JsValues.Or`, `JsValues.OrChain`);
- `Number()` on digit strings;
- plain objects as insertion-ordered key/value lists, where assigning an existing key keeps its position (`JsValues.Put`);
- the white-space class of `\s` and `trim()`;
- ASCII case mapping;
- `String.prototype.includes`.

Modules:

- `Wrappers`: `Option` and `Result`.
- `Text`: case mapping, white space and trimming, substring search, decimal numerals.
- `JsValues`: values, truthiness, `Number`, and objects.
- `Sequences`: `filter`, `new Set` de-duplication, grouping, stable sort, and `map` with a throwing callback.
- `PgRows`: `mapPgRow`.
- `SqlAdapter`: `dbRun`, `dbAll` and `dbGet`.
- `Server`: the route handlers and the players table.
- `AdminList`: the list, the export, the statistics and delete on the dashboard.
- `AdminImport`: the spreadsheet import mapping.
- `RegistrationForm`: the form helpers.

Effects outside the code become parameters of the model:

- Whether the database accepts a statement is a parameter: `accepted`, or `rejected`, the set of batch positions the database refuses.
- The rows a query returns are parameters too.
- `localeCompare` is a comparator parameter `le`, required to be a total preorder.

## Model

| member | source | states |
|---|---|---|
| Text.Lower | admin.js:87-89 | `toLowerCase` keeps the length and lower-cases each character |
| Text.Upper | admin.js:115 | `toUpperCase` keeps the length and upper-cases each character |
| Text.LowerIdempotent | admin.js:93-95 | lower-casing an already lower-cased string changes nothing |
| Text.UpperIdempotent | admin.js:103 | upper-casing an already upper-cased string changes nothing |
| Text.LowerUpper | admin.js:115-116 | an upper-cased column compares equal to the stored value ignoring case |
| Text.UnderscoresToSpaces | admin.js:103 | `replace(/_/g, ' ')` keeps the length, turns every `_` into a space, keeps every other character, and leaves no `_` |
| Text.FormatTeam | script.js:113 | the displayed team: underscores to spaces, then upper case; FormatTeamNoUnderscore and FormatTeamIdempotent state its properties |
| Text.FormatTeamNoUnderscore | script.js:113 | the displayed team name has the stored name's length and contains no `_` |
| Text.FormatTeamIdempotent | script.js:148 | formatting a displayed team name again gives the same text |
| Text.TrimStart | server.js:148 | the result is a suffix of the input, every dropped character is white space, and a non-empty result starts with a non-space |
| Text.TrimEnd | server.js:148 | the result is a prefix of the input, every dropped character is white space, and a non-empty result ends with a non-space |
| Text.TrimStartAppend | server.js:148-149 | text appended after a statement that is not all white space survives `trim` start unchanged |
| Text.TrimStartSkips | script.js:144 | trimming a run of white space followed by a non-space leaves exactly the rest |
| Text.ContainsIffOffset | admin.js:93 | `includes` holds exactly when the needle occurs at some offset of the haystack |
| Text.ContainsEmpty | admin.js:93 | every text includes the empty search string |
| Text.Decimal | server.js:145 | the numeral printed for `$k` is a non-empty string of digits |
| Text.DigitsValueDecimal | server.js:145 | reading back the printed numeral of `k` gives `k` |
| JsValues.OrChain | admin.js:281-288 | `a \|\| b \|\| …` returns one of its operands, a truthy one or else the last |
| JsValues.FirstTruthy | admin.js:281-288 | the index of the first truthy operand, all earlier ones falsy |
| JsValues.OrChainFirstTruthy | admin.js:281-288 | an `\|\|` chain returns its first truthy operand, or its last operand when all are falsy |
| JsValues.ToNumber | server.js:134 | `Number(v)` is always a number or NaN |
| JsValues.ToNumberIdempotent | server.js:134 | `Number(Number(v)) == Number(v)` |
| JsValues.Put | server.js:136 | `o[k] = v` appends a new key, keeps the length for an existing key, and afterwards `o[k]` is `v` |
| JsValues.PutKeys | server.js:136 | after `o[k] = v` the keys are those of `o` plus `k` |
| JsValues.PutOthers | server.js:136 | `o[k] = v` leaves every other property's value unchanged |
| JsValues.PutDistinct | server.js:136 | assignment keeps object keys distinct |
| JsValues.AssignKeys | server.js:117-137 | the object built by the assignments has exactly the assigned keys |
| JsValues.AssignKeysDistinct | server.js:117-137 | the object built by the assignments has no key twice, even when the assignments repeat a key |
| JsValues.AssignLastWins | server.js:117-137 | each key of the built object holds the value of its last assignment |
| JsValues.AssignDistinct | server.js:117-137 | assignments to distinct keys build exactly the list of assignments, in order |
| PgRows.Lookup | server.js:119-130 | the table lookup finds an entry with that key, or reports that no entry has it |
| PgRows.CamelTableRoundTrip | server.js:119-130 | each of the ten canonical names lower-cases back to its table key |
| PgRows.CamelKey | server.js:119-130 | a column whose lower-cased name is a table key comes out under that entry's camelCase name, which has the same lower-case form; any other column keeps its name verbatim |
| PgRows.CamelKeyRenamesTableEntry | server.js:119-130 | a column whose lower-cased name is the i-th table key comes out exactly as the i-th canonical name |
| PgRows.FullNameRenamed | server.js:120 | `fullname` and `FULLNAME` both come out as `fullName` |
| PgRows.CamelKeyAsWritten | server.js:119-130 | the lookup as written agrees with the corrected one on every table key |
| PgRows.ConstructorColumnRenamed | server.js:119-130 | a column named `constructor` is renamed to `function Object() { [native code] }` by the lookup as written, but kept by the corrected lookup |
| PgRows.CamelKeyIdempotent | server.js:119-130 | renaming a renamed key changes nothing |
| PgRows.CamelKeyInjectiveOnLowerCase | server.js:119-130 | two distinct lower-case column names never get the same output name |
| PgRows.MapPgRow | server.js:115-139 | the loop returns `null`/`undefined` input unchanged, and otherwise builds the object of the renamed keys with coerced `count`/`total` values; it renames through the corrected `CamelKey`, so on a `constructor` or `__proto__` column it differs from server.js (see Findings) |
| PgRows.Normalized | server.js:115-139 | `mapPgRow` as a value: absent exactly when the input row is absent, and otherwise a canonical row |
| PgRows.MapPgRowKeys | server.js:118-136 | the output keys are exactly the renamed input keys, each once |
| PgRows.MapPgRowValue | server.js:131-136 | each output key holds the value of the last column renamed to it, passed through `Number` under `count`/`total` (any case) and copied otherwise |
| PgRows.PostgresRowPointwise | server.js:115-139 | a row with distinct lower-case column names maps column by column, in order, with nothing merged |
| PgRows.MappedValueIdempotent | server.js:133-135 | coercing an already coerced value again changes nothing |
| PgRows.MapPgRowCanonical | server.js:115-139 | every mapped row is canonical: distinct keys that are their own renaming, and values that are their own coercion |
| PgRows.CanonicalFixed | server.js:115-139 | mapping a canonical row returns it unchanged |
| PgRows.MapPgRowIdempotent | server.js:115-139 | `mapPgRow(mapPgRow(r)) == mapPgRow(r)`, also for an absent row |
| PgRows.CountStringBecomesNumber | server.js:133-135 | a `count` column holding `"42"` comes out as the number 42 |
| SqlAdapter.SelectBackend | server.js:43 | Postgres is used exactly when `DATABASE_URL` is set and non-empty |
| SqlAdapter.RewritePlaceholders | server.js:144-145 | the counter loop produces the reference rewrite, numbered from 1 |
| SqlAdapter.PlaceholdersLeaveNoQuestionMark | server.js:145 | no `?` is left after the rewrite |
| SqlAdapter.PlaceholdersNone | server.js:145 | a statement without `?` is left unchanged |
| SqlAdapter.PlaceholdersAppend | server.js:144-145 | rewriting a concatenation continues the numbering where the first part stopped |
| SqlAdapter.Placeholders | server.js:144-145 | the rewrite with the counter starting at k: each `?` becomes `$` and the counter's numeral, other characters are kept; its properties are the Placeholders* lemmas |
| SqlAdapter.PlaceholdersNumbered | server.js:166-167 | in `s0 ? s1 ? … ? sm`, the j-th `?` becomes `$j` and every segment is kept verbatim, in order |
| SqlAdapter.IsInsertFirstWord | server.js:148 | the INSERT test holds exactly when, after the leading white space, the text starts with `insert` in any case |
| SqlAdapter.IsInsert | server.js:148 | `trim().toLowerCase().startsWith('insert')`; IsInsertFirstWord characterises it |
| SqlAdapter.WithReturning | server.js:148-150 | ` RETURNING id` is appended exactly when the statement is an INSERT; otherwise the statement is unchanged |
| SqlAdapter.WithReturningStillInsert | server.js:148-150 | the extended statement is an INSERT exactly when the original was |
| SqlAdapter.IsInsertAppend | server.js:148-149 | text appended to an INSERT statement leaves it an INSERT statement |
| SqlAdapter.PgRunStatement | server.js:144-150 | the statement `dbRun` sends to Postgres has no `?` left |
| SqlAdapter.PgRunStatementInsert | server.js:148-150 | the sent statement is an INSERT exactly when the rewritten one is, and a non-INSERT is sent as rewritten |
| SqlAdapter.LastId | server.js:153 | `lastID` is 0 when no row comes back; otherwise it is the truthy `id` of the first row, or 0 |
| SqlAdapter.LastIdOfReturnedRow | server.js:149-153 | the row `RETURNING id` yields reports the new id |
| SqlAdapter.NormalizedRows | server.js:169 | each row returned on Postgres is the `mapPgRow` of the corresponding raw row, in order |
| SqlAdapter.NormalizedRowsIdempotent | server.js:169 | normalising the returned rows twice is normalising them once |
| SqlAdapter.AllRows | server.js:164-178 | `dbAll` keeps the row count, and on SQLite returns the rows as they are |
| SqlAdapter.FirstRow | server.js:180-192 | `dbGet` is nothing exactly when no row comes back, and otherwise is the first row `dbAll` gives |
| Sequences.Filter | admin.js:92-98 | `filter` keeps exactly the elements that satisfy the predicate |
| Sequences.FilterIsSubsequence | admin.js:92-98 | `filter` keeps the survivors in their original order |
| Sequences.FilterAll | admin.js:92-98 | a predicate that accepts everything keeps the whole list |
| Sequences.FilterMultiset | admin.js:223 | `filter` keeps each surviving element as many times as the list holds it, and drops the rest |
| Sequences.FirstIndex | admin.js:220 | the position of the first occurrence of an element |
| Sequences.Dedup | admin.js:220 | `[...new Set(s)]` has the same elements as `s`, none twice |
| Sequences.DedupFirstSeenOrder | admin.js:220 | the distinct elements come in the order of their first appearance in `s` |
| Sequences.WithKey | admin.js:223 | the group of a key holds exactly the elements with that key |
| Sequences.GroupsCons | admin.js:222-223 | a new element joins exactly the group of its own key |
| Sequences.GroupsPartition | admin.js:222-223 | groups for distinct keys that cover every element partition the list, with multiplicity |
| Sequences.InsertBy | admin.js:224 | inserting adds exactly one element and keeps the rest |
| Sequences.SortBy | admin.js:224 | sorting gives a permutation of the input |
| Sequences.InsertBySorted | admin.js:224 | inserting into a sorted list keeps it sorted by key |
| Sequences.SortBySorted | admin.js:224 | the result of the sort is ordered by key under a total preorder |
| Sequences.MapAll | admin.js:280-289 | `map` with a throwing callback succeeds exactly when no element throws; it then maps every element in order, and otherwise reports the first element's error |
| Server.PlayerTable.constructor | server.js:58-75 | the table starts empty, and ids start at 1 |
| Server.PlayerTable.Insert | server.js:142-153 | an accepted insert appends the row under the next id and advances `nextId`; a refused insert changes nothing; ids stay increasing |
| Server.PlayerTable.Delete | server.js:282-289 | an accepted delete removes the rows with that id; a refused delete changes nothing |
| Server.RemoveStoredKeepsOrder | server.js:288 | deletion keeps the remaining rows in increasing id order, and keeps exactly the rows with other ids |
| Server.RemoveStoredCount | server.js:288 | deleting a present id removes exactly one row, deleting an absent id removes none, and afterwards the id is gone |
| Server.Status | server.js:217-220 | the status is 200 exactly for the success responses |
| Server.AdminAuthorizedExactly | server.js:225-232 | the admin check passes exactly for the header `Bearer admin123` |
| Server.AdminAuthorized | server.js:225-232 | the admin check, defined as equality of the header with `Bearer ` + the password; AdminAuthorizedExactly states it |
| Server.Login | server.js:234-241 | login returns the token `admin123` exactly when the password is the string `admin123`, and 401 otherwise |
| Server.LoginTokenAuthorizes | server.js:227-237 | the token login hands out, sent back as `Bearer <token>`, passes the admin check |
| Server.UploadPath | server.js:206-207 | an upload path is null exactly when no file came, and is the uploaded file's path when one came |
| Server.Inscribe | server.js:198-221 | an accepted registration stores the form row and both upload paths under the next id, advances `nextId` and reports that id; a refused one gives 500 and changes neither the rows nor `nextId` |
| Server.InscriptionRow | server.js:204-213 | the inserted row carries each of the eleven form fields as sent; an upload path is null exactly when that file did not come, and is that file's path when it came |
| Server.ListPlayers | server.js:243-250 | 401 without the token, 500 on a failed query; otherwise the list is exactly what `dbAll` hands back (AllRows: the rows as given on SQLite, mapped by `mapPgRow` on Postgres), one per returned row, each canonical on Postgres |
| Server.BulkRow | server.js:264-272 | name, id number, phone, email, team, category and jersey pass through as sent; a falsy `playerType` becomes `'socio'`; falsy guarantor fields become null; no upload paths; the type is always truthy |
| Server.FirstFailure | server.js:263-273 | the position of the first failing insert: every earlier record is present and accepted |
| Server.Committed | server.js:263-273 | the rows committed by the first k inserts: record j's BulkRow under id base + j, each with a non-empty type and no upload path |
| Server.InsertBatch | server.js:263-273 | the insert loop stops at the first record that is null or refused, and commits exactly the earlier records' rows under consecutive ids from `nextId`, advancing it by their number |
| Server.BulkImport | server.js:252-280 | see the bulk import note below the table |
| Server.DeletePlayer | server.js:282-295 | an authorized, accepted delete reports success whether or not the id existed, and removes the id's rows; 401 and 500 leave the rows unchanged; `nextId` never changes |
| Server.StatsTotal | server.js:309 | `total` is the row's `total`, or 0 when no row came |
| Server.StatsResponse | server.js:297-315 | 401 without the token, 500 when a query fails; otherwise the per-team and per-category lists as `dbAll` hands them back and the total of the first total row, 0 when that query returns no row |
| Server.PostgresTotalIsNumber | server.js:303-309 | on Postgres a `COUNT(*)` that arrives as a digit string is reported as that number |
| AdminList.FilteredSpec | admin.js:92-98 | see the filter note below the table |
| AdminList.Matches | admin.js:92-97 | the filter callback; FilteredSpec and FiltersIgnoreCase state what it accepts |
| AdminList.Filtered | admin.js:92-98 | `allPlayers.filter` with that callback; FilteredSpec states its result |
| AdminList.NoFiltersListAll | admin.js:87-98 | with the search box and both selects empty, every player is listed |
| AdminList.FiltersIgnoreCase | admin.js:87-95 | lower-casing the typed filters changes no result |
| AdminList.OrNA | admin.js:233-236 | `value \|\| 'N/A'` is never empty, keeps a non-empty value, and is `N/A` for an empty one |
| AdminList.RowOf | admin.js:100-128 | a table row shows the name, id number and id as stored; the team character by character as the stored team with `_` turned into a space and upper-cased; category and type in upper case and equal to the stored ones ignoring case |
| AdminList.ExportRowOf | admin.js:226-237 | an exported line keeps id number, phone and email; shows the team character by character as the stored team with `_` turned into a space and upper-cased; the name and the type (TIPO) in upper case and equal to the stored ones ignoring case; jersey, guarantor name and guarantor id as stored when non-empty and `N/A` otherwise |
| AdminList.SheetFor | admin.js:222-248 | a sheet is named by the upper-cased category and has one line per player of that category, in the order of the team sort |
| AdminList.Workbook | admin.js:222-249 | the export has exactly as many sheets as the filtered players have distinct categories |
| AdminList.SheetCategoriesSpec | admin.js:220 | the sheet names are the categories of the filtered players, none twice, in order of first appearance |
| AdminList.ExportPartition | admin.js:220-223 | the sheets together hold every filtered player exactly as often as the filtered list does |
| AdminList.SheetMembership | admin.js:223 | a player is in a category's sheet exactly when it is filtered and has that category, compared case-sensitively |
| AdminList.SheetSortedByTeam | admin.js:223-224 | each sheet is a permutation of its category's players and is sorted by team |
| AdminList.TopIndex | admin.js:57-59 | the `reduce` picks an entry of maximal count; on ties it picks the last such entry |
| AdminList.ShowStats | admin.js:44-61 | `total \|\| 0`; the team count when the list came; a top category exactly when `byCategory` is non-empty, which is then the upper-cased category of an entry of maximal count |
| AdminList.RemoveIdSpec | admin.js:329 | after removal no player has the id; every other player stays as many times as it was there, in order |
| AdminList.RemoveId | admin.js:329 | `allPlayers.filter(p => p.id != id)`; RemoveIdSpec states its result |
| AdminList.AdminPanel.constructor | admin.js:69 | the dashboard starts with an empty list |
| AdminList.AdminPanel.FetchPlayers | admin.js:71-81 | a list answer replaces the list; a 401/500 error body also replaces it, by an object that is not a list; only a request or parse that throws keeps the old list |
| AdminList.AdminPanel.RenderTable | admin.js:83-130 | the table is emptied and gets one row per filtered player, in list order; when the list was replaced by an error object the filter throws and the table stays empty |
| AdminList.AdminPanel.ExportToExcel | admin.js:194-252 | when the list was replaced by an error object the export throws; otherwise nothing is exported for an empty list or an empty filtered list, and else the workbook holds one sheet per category of the filtered players |
| AdminList.AdminPanel.DeletePlayer | admin.js:318-340 | the local list drops the id only when the delete is confirmed, the server reports success and the list is a list; otherwise, including when the filter throws on an error object, it is unchanged |
| AdminImport.LowerCaseOf | admin.js:286-287 | `.toLowerCase()` succeeds exactly on strings, and throws on any other value |
| AdminImport.Field | admin.js:281-288 | a field is truthy or else equal to its fallback |
| AdminImport.RecordFor | admin.js:280-289 | the record carries the lower-cased category and type; phone, email and jersey number are truthy or `""` |
| AdminImport.MapImportRow | admin.js:280-289 | a row maps exactly when its chosen category and type are strings, and then gives the record of those fields |
| AdminImport.FieldOfThree | admin.js:286-288 | a field with three headings is `row[h0] \|\| row[h1] \|\| row[h2] \|\| fallback` |
| AdminImport.TypeFieldFirstTruthy | admin.js:287 | the type is `TIPO \|\| TYPE \|\| playerType \|\| 'socio'` |
| AdminImport.ImportTypeNonEmpty | admin.js:287 | the imported type is lower case and never empty |
| AdminImport.ImportTypeDefault | admin.js:287 | with TIPO, TYPE and playerType all falsy, the type is `socio` |
| AdminImport.ImportTypeFromTipo | admin.js:287 | a truthy TIPO cell decides the type, lower-cased |
| AdminImport.ImportCategory | admin.js:286 | the category is lower case, and it is `""` when all three category cells are falsy |
| AdminImport.ImportSheet | admin.js:274-289 | a sheet without rows imports nothing; a non-empty sheet is sent exactly when every row maps, as the records of its rows in order; otherwise the error of the first row that throws is logged (admin.js:310) and a fixed alert is shown (admin.js:311) |
| AdminImport.ImportedTypeIsKept | server.js:266-271 | an imported record's type reaches the table as sent, and the guarantor name is stored as null |
| RegistrationForm.StripNonDigitsSpec | script.js:152 | `replace(/\D/g, '')` leaves only digits: every digit of the input, each as often as it occurs, in their order |
| RegistrationForm.StripNonDigits | script.js:152 | `replace(/\D/g, '')` as a filter on digits; StripNonDigitsSpec states its result |
| RegistrationForm.WithCountryCode | script.js:154-158 | the prefix rule on the stripped digits; WithCountryCodeSpec states its three cases |
| RegistrationForm.WithCountryCodeSpec | script.js:154-158 | see the phone note below the table |
| RegistrationForm.WhatsAppNumber | script.js:152-158 | the if/else on `playerPhone` computes the reference normalisation of the stripped digits |
| RegistrationForm.GuarantorSection.OnPlayerTypeChange | script.js:11-20 | the section is shown, and its four inputs are required, exactly when the type is `conyuge` or `adherente` |
| RegistrationForm.NeedsGuarantor | script.js:12 | the types `conyuge` and `adherente` |
| RegistrationForm.PdfHasAuthorization | script.js:126 | every player type but `socio` |
| RegistrationForm.GuarantorTypesGetAuthorization | script.js:126-137 | every type that needs a guarantor gets the authorization block on the PDF |
| RegistrationForm.AuthorizationWithoutGuarantor | script.js:126-133 | the PDF prints the guarantor's authorization without the form having required the guarantor fields exactly for the types other than `socio`, `conyuge` and `adherente` |
| RegistrationForm.CollapseWhitespace | script.js:144 | collapsing white space never lengthens the name |
| RegistrationForm.CollapseNoWhitespace | script.js:144 | the collapsed name has no white space |
| RegistrationForm.CollapseKeeps | script.js:144 | a name without white space is kept unchanged |
| RegistrationForm.CollapseIdempotent | script.js:144 | collapsing twice is collapsing once |
| RegistrationForm.CollapseRun | script.js:144 | a maximal run of white space becomes a single `_` |
| RegistrationForm.CollapseAppend | script.js:144 | text that ends in a non-space collapses independently of what follows it |
| RegistrationForm.PdfFileName | script.js:144 | the file name is `Inscripcion_`, then exactly the collapsed name, then `.pdf` |
| RegistrationForm.PdfFileNameSpec | script.js:144 | the file name has no white space, and a name without white space appears in it unchanged |

Notes on the three longest rows:

- **Server.BulkImport.** Without the token the answer is 401, and a non-array payload gets 400; in both cases neither the rows nor `nextId` change. Otherwise the records are inserted in order, with ids from `nextId` on, up to the first failure. A failure (a null record, or a refused insert) stops the loop with 500 and leaves the earlier inserts committed. With no failure the answer reports `players.length` records imported; an empty array is accepted, inserts nothing and reports 0.
- **AdminList.FilteredSpec.** A player passes exactly when all three hold:
  - the lower-cased `fullName dni teamName` contains the lower-cased search text;
  - a non-empty category select equals the category, case-insensitively;
  - a non-empty team select equals the team, case-insensitively.

  The result is an order-preserving subsequence of the list, and a passing player occurs in it as many times as in the list.
- **RegistrationForm.WithCountryCodeSpec.** A 9-digit number starting with `0` becomes `595` and its last 8 digits, 11 digits in all. Any other 9-digit number gets `595` in front, 12 digits in all. Every other length is kept unchanged. The result is all digits.

## Left out

- Database engines, connections, table creation and migrations (server.js:42-112): an insert is modelled as a success or a refusal of `Server.PlayerTable`, and a query as the rows it returns, or its failure.
- The raw Postgres delete (server.js:285-286): it has the same effect on the table as the SQLite path, so `Server.DeletePlayer` models both through `Server.PlayerTable.Delete`.
- Postgres `SERIAL` spends an id on a failed insert; the model gives each accepted insert the next id and spends none on a refused insert. Like the model, SQLite's `AUTOINCREMENT` neither reuses nor skips an id.
- `ORDER BY createdAt DESC` and the `createdAt` clock: the list handler takes the returned rows as given.
- `GROUP BY`/`COUNT(*)` are done by the database, and `Promise.all` is concurrency. The statistics handler takes the three query results as parameters.
- Express routing, body parsing, CORS, multer/Cloudinary storage and `app.listen`: uploads are modelled only as the path or null they produce.
- Browser I/O: the DOM, `innerHTML` markup, the details modal (`openModal`), `fetch`, `localStorage`, `alert`/`confirm`, `FileReader`, toasts and the form-reset timer. Confirmation and server success are parameters of `AdminList.AdminPanel.DeletePlayer`.
- The XLSX library (reading the first sheet, `json_to_sheet`, column widths, file name) and the jsPDF layout. The model stops at the rows and sheet names handed to the library.
- SheetJS rejects sheet names that are too long, duplicated after upper-casing, or that contain `: \ / ? * [ ]`. The model does not model that rejection.
- Dates and locales (`toLocaleDateString`, `toLocaleString`, the FECHA column); `localeCompare` is the comparator parameter `le`.
- Unicode case mapping: `toLowerCase`/`toUpperCase` are modelled over ASCII only.
- `Number()` on strings other than decimal digit strings, and floating point: such strings give `NaN`, and every number is an integer.
- In the admin client, text columns the database holds as NULL are modelled as the empty string. The model therefore does not capture that a NULL `teamName` makes `renderTable` throw at `replace` (admin.js:103), that a NULL `category` or `playerType` makes `renderTable` throw at `toUpperCase` (admin.js:115, admin.js:116), that a NULL `category` makes the filter throw at `toLowerCase` when a category is selected (admin.js:94), and that a NULL `teamName`, `fullName` or `playerType` makes `exportToExcel` throw at `localeCompare` or `toUpperCase` (admin.js:224, admin.js:229, admin.js:234). The spreadsheet import produces such rows when no name or team cell is truthy. A NULL `fullName` or `dni` is searched as the text `null` (admin.js:93), which the model searches as empty.
- The delete route's `:id` is a string compared to integer ids by the database. The model takes the id as a number.
- The submit handler of the registration form (script.js:38-85), `sendEmailNotification` and the WhatsApp message text. Only the phone normalisation and the PDF's authorization condition and file name are modelled.
- Object property order: JavaScript lists integer-like keys first in ascending order; `JsValues.Object` keeps insertion order for every key. The column names this model handles are never integer-like.
- Sequences.SortBy: proved sorted and a permutation, but its stability (equal teams keep their order) is not stated.

## Findings

| source | as written | input that shows it | evidently intended | confidence | as-written member | corrected member |
|---|---|---|---|---|---|---|
| server.js:119-130 | the rename table is an object literal indexed with the lower-cased column name, so the lookup also finds properties inherited from `Object.prototype` | a column named `constructor` (any case) is renamed to `function Object() { [native code] }` | only the ten table entries rename a column; every other column keeps its name | not executed | PgRows.CamelKeyAsWritten, PgRows.ConstructorColumnRenamed | PgRows.CamelKey |
