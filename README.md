# Accounting downloader: a Dafny model

The accounting downloader collects one month of bookkeeping documents. It reads the
month's registry items (invoices) from an Airtable base and joins each one onto its
partner and its document type. It then saves each item's Google Drive file under a
name built from the item's sequence number, its partner, its type and the month.
The repository holds two drafts of this program:

- `app/src/main/kotlin/com/moon42/accounting/` (the app draft): an `Airtable` object
  whose registry-item getters look the partner and the type up in tables loaded once,
  and a configurable target directory with two file-name layouts;
- `src/` (the src draft): an `AirtableData` class that loads the three tables and
  an `AirtableClient` class whose `fetch` assigns partner and type into each item in
  place, with a fixed target directory `accounting-files`.

The model covers, in one module each:

- `Text` (`text.dfy`): the Kotlin and Java text functions the program relies on,
  each with the inverse used by the proofs:
  - `isWhitespace`, `isBlank` and `trim`;
  - `"%0<w>d".format(n)` and `Int.toString()`, with a decimal parser;
  - `joinToString`, with splitting at a character.
- `Registry` (`registry.dfy`): documents, partners and registry items.
  - The app draft's first-id getters and the src draft's in-place assignment after
    fetching.
  - `RegistryItem.toString`.
- `FilterFormula` (`filter_formula.dfy`): the Airtable formula that selects one
  month's invoices of the ten document types, with the Gregorian month lengths of
  `YearMonth.atEndOfMonth`.
- `FilterFormulaReading` (`filter_formula_reading.dfy`): the formula read back at its
  double quotes. This shows that its bounds are the first and the last day of the
  month and that it determines the month.
- `AirtableHttp` (`airtable_http.dfy`): the Airtable client.
  - `buildAirtableRequest` builds the URI and query map. It is proved to read back
    as exactly the parameters given.
  - `fetchAirtableData` is a `while` loop over the server's pages. It is proved
    against a function that drains the pages.
  - `fetchInstanceMap` builds an id-to-fields map with `associate`.
- `AirtableData` (`airtable_data.dfy`):
  - the app draft's `fetchInvoicesOfMonth`;
  - the src draft's `AirtableData` constructor;
  - the src draft's `AirtableClient`, a class whose `fetch` method updates its
    `registryItems` field;
  - the agreement between the two drafts.
- `FileNaming` (`file_naming.dfy`):
  - the MIME table and `sanitizeFileName`;
  - the per-partner directory name;
  - the file name in both layouts of the app draft and the seq-first layout of the
    src draft;
  - the target path of both drafts' `downloadFile`.

The server is not called. Each table's answers are a sequence of pages, and the
i-th request is answered by the i-th page. `Terminates(pages)` says that some page
ends the loop, either with a status other than 200 or with a blank offset. Thrown
exceptions are `Failure` values carrying the exception's message or its cause.

## Model

| member | source | states |
|---|---|---|
| Text.TrimIsInfix | app/src/main/kotlin/com/moon42/accounting/AccountingDownloader.kt:92 | `trim()` keeps the infix of the name that starts where the leading whitespace ends, and what it cuts off at either end is whitespace only |
| Text.TrimEdges | app/src/main/kotlin/com/moon42/accounting/AccountingDownloader.kt:92 | a trimmed text neither starts nor ends with a whitespace character |
| Text.TrimBlank | app/src/main/kotlin/com/moon42/accounting/AccountingDownloader.kt:92 | trimming leaves the empty text exactly when the text is blank |
| Text.TrimKeepsCharacters | app/src/main/kotlin/com/moon42/accounting/AccountingDownloader.kt:92 | trimming never introduces a character |
| Text.TrimIdempotent | app/src/main/kotlin/com/moon42/accounting/AccountingDownloader.kt:92 | trimming a trimmed text changes nothing |
| Text.BlankPrefixSpans | app/src/main/kotlin/com/moon42/accounting/AccountingDownloader.kt:92 | the leading run `trim` skips is all whitespace and is followed by a non-whitespace character |
| Text.BlankSuffixSpans | app/src/main/kotlin/com/moon42/accounting/AccountingDownloader.kt:92 | the trailing run `trim` drops is all whitespace and is preceded by a non-whitespace character |
| Text.FormatIntRoundTrip | app/src/main/kotlin/com/moon42/accounting/AccountingDownloader.kt:99 | the text of `"%05d".format(seq)` (and of every width, negative numbers included, the sign counting toward the width) reads back as the number |
| Text.FormatIntInjective | app/src/main/kotlin/com/moon42/accounting/AccountingDownloader.kt:111 | different numbers are written differently at the same width |
| Text.FormatInt | app/src/main/kotlin/com/moon42/accounting/AccountingDownloader.kt:99 | the text of `"%0<width>d"` is exactly as long as the sign and the digits of the number's magnitude, or `width` characters when that is more; a non-negative number gives only digits, a negative one `-` and then digits |
| Text.FormatIntLayout | app/src/main/kotlin/com/moon42/accounting/AccountingDownloader.kt:99-111 | the text is the sign of a negative number, then only `0`s for the padding, then the digits of the magnitude without leading zeros |
| Text.FormatIntAlphabet | app/src/main/kotlin/com/moon42/accounting/AccountingDownloader.kt:111 | a formatted number holds only digits and `-` |
| Text.JoinExcludes | app/src/main/kotlin/com/moon42/accounting/AirtableClient.kt:30 | `joinToString` adds no character that is in neither the separator nor the parts |
| Text.SplitJoin | app/src/main/kotlin/com/moon42/accounting/AirtableClient.kt:51 | splitting a `joinToString(separator = "&")` text at the separator gives the parts back when none holds it |
| Registry.PartnerOfMeaning | app/src/main/kotlin/com/moon42/accounting/AirtableData.kt:14-15 | the `partner` getter gives the partner table's entry for the first assigned id, and null when the id list is null or empty or the id is not in the table |
| Registry.TypeOfMeaning | app/src/main/kotlin/com/moon42/accounting/AirtableData.kt:18-19 | the `type` getter gives the type table's entry for the first assigned id, and null otherwise |
| Registry.OnlyFirstIdMatters | app/src/main/kotlin/com/moon42/accounting/AirtableData.kt:14-19 | ids after the first never affect the lookup |
| Registry.ResolveInPlaceMatchesGetters | src/AirtableClient.kt:120-123 | on a freshly decoded item, the `onEach` assignment of type then partner gives exactly what the app draft's getters compute, and changes no other field |
| Registry.ResolveAll | src/AirtableClient.kt:120-123 | `onEach` keeps the number and the order of the items and resolves each one in place |
| Registry.ResolveAllJoins | src/AirtableClient.kt:120-123 | after the join, each item keeps its own fields and carries the partner and type of its first ids |
| Registry.SeqFromTextReadsLastValue | app/src/main/kotlin/com/moon42/accounting/AirtableData.kt:36 | whatever precedes the last `=` of a `...=<value>)` text, the value between it and the `)` is what is read |
| Registry.ToStringShowsSeq | app/src/main/kotlin/com/moon42/accounting/AirtableData.kt:35-37 | `toString` shows only name, notes, keywords, direction and seq, and the seq reads back from its end whatever the free-text fields hold |
| FilterFormula.DaysInMonth | app/src/main/kotlin/com/moon42/accounting/AirtableClient.kt:26 | the last day of a month is between 28 and 31 |
| FilterFormula.DaysInMonthFacts | app/src/main/kotlin/com/moon42/accounting/AirtableClient.kt:26 | February has 29 days exactly in Gregorian leap years, April, June, September and November 30, the others 31, and the year 365 or 366 |
| FilterFormula.DateLiteralParts | app/src/main/kotlin/com/moon42/accounting/AirtableClient.kt:25 | `"%02d/%02d/%02d".format(month, day, year)` cut at `/` gives the month, the day and the year as written |
| FilterFormula.DateLiteralRoundTrip | app/src/main/kotlin/com/moon42/accounting/AirtableClient.kt:25-26 | a date literal reads back as the date it was written from, month first |
| FilterFormula.DateLiteralHasNoQuote | app/src/main/kotlin/com/moon42/accounting/AirtableClient.kt:28-29 | a date literal cannot end the quoted string it is placed in |
| FilterFormulaReading.ConditionPieces | app/src/main/kotlin/com/moon42/accounting/AirtableClient.kt:30 | the pieces between the quotes of the type disjunction alternate label and separator, with every label at its place |
| FilterFormulaReading.SplitConditions | app/src/main/kotlin/com/moon42/accounting/AirtableClient.kt:30 | `types.joinToString(", ") { "type=\"$s\"" }` cut at its quotes gives the labels in order, separated by `, type=` |
| FilterFormulaReading.ShapePieces | app/src/main/kotlin/com/moon42/accounting/AirtableClient.kt:24-32 | a formula of this shape cut at its quotes gives both bounds twice and every label in order |
| FilterFormulaReading.FormulaPieces | app/src/main/kotlin/com/moon42/accounting/AirtableClient.kt:20-33 | the month's formula cut at its quotes gives the first day in the IS_SAME and IS_AFTER bounds, the last day in the IS_SAME and IS_BEFORE bounds, and the ten type labels in order |
| FilterFormulaReading.FormulaBounds | app/src/main/kotlin/com/moon42/accounting/AirtableClient.kt:25-29 | the formula admits the dates from the first to the last day of the month, both inclusive |
| FilterFormulaReading.FormulaDeterminesMonth | app/src/main/kotlin/com/moon42/accounting/AirtableClient.kt:20-33 | different months give different formulas |
| FilterFormulaReading.ShapeIsNotBlank | app/src/main/kotlin/com/moon42/accounting/AirtableClient.kt:27 | a formula of this shape is never blank, whatever its bounds and labels |
| AirtableHttp.QueryParams | app/src/main/kotlin/com/moon42/accounting/AirtableClient.kt:39-47 | the query map holds the offset exactly when it is neither null nor blank, and the filter formula likewise, each encoded, the offset first |
| AirtableHttp.ParamTextIsClean | app/src/main/kotlin/com/moon42/accounting/AirtableClient.kt:51 | a `name=value` parameter of clean parts holds neither `?` nor `&` and reads back as itself |
| AirtableHttp.QueryRoundTrip | app/src/main/kotlin/com/moon42/accounting/AirtableClient.kt:51 | clean parameters joined by `&` read back as themselves, in order |
| AirtableHttp.QueryParamsAreClean | app/src/main/kotlin/com/moon42/accounting/AirtableClient.kt:41-45 | with an encoder that escapes the delimiters, no parameter holds `?`, `&` or `=` |
| AirtableHttp.RequestUriRoundTrip | app/src/main/kotlin/com/moon42/accounting/AirtableClient.kt:48-53 | the request URI reads back as the table's path and exactly the query map |
| AirtableHttp.RequestUriCarries | app/src/main/kotlin/com/moon42/accounting/AirtableClient.kt:38-53 | a request carries the encoded offset exactly when one is given and not blank, likewise the formula, and has a `?` exactly when it carries a parameter |
| AirtableHttp.StopIndex | app/src/main/kotlin/com/moon42/accounting/AirtableClient.kt:70-77 | the loop stops at the first page with a status other than 200 or a blank offset, and at no page before it |
| AirtableHttp.FetchAirtableData | app/src/main/kotlin/com/moon42/accounting/AirtableClient.kt:62-80 | the do-while loop returns what draining the pages yields and sends one request per page read, each carrying the previous page's offset |
| AirtableHttp.FetchAllOutcome | app/src/main/kotlin/com/moon42/accounting/AirtableClient.kt:66-77 | the drain succeeds exactly when every page read has status 200, and then returns all their records in page order; otherwise it fails with `Error: <body>` of the first other page and returns nothing |
| AirtableHttp.RequestsFollowOffsets | app/src/main/kotlin/com/moon42/accounting/AirtableClient.kt:66-77 | the first request carries no offset, each later one the encoded offset of the page before, and all the same filter formula |
| AirtableHttp.FlattenAppend | app/src/main/kotlin/com/moon42/accounting/AirtableClient.kt:74 | `addAll` keeps the records in page order |
| AirtableHttp.FlattenCount | app/src/main/kotlin/com/moon42/accounting/AirtableClient.kt:78 | the number of records retrieved is the sum of the pages' record counts |
| AirtableHttp.LastPageOfPrefix | app/src/main/kotlin/com/moon42/accounting/AirtableClient.kt:74 | reading one more page appends exactly its records |
| AirtableHttp.AssociateKeys | app/src/main/kotlin/com/moon42/accounting/AirtableClient.kt:84 | the keys of the `associate` map are exactly the records' ids |
| AirtableHttp.AssociateLastWins | app/src/main/kotlin/com/moon42/accounting/AirtableClient.kt:84 | a record's fields are its id's entry unless a later record has the same id |
| AirtableHttp.FetchInstanceMap | app/src/main/kotlin/com/moon42/accounting/AirtableClient.kt:82-85 | the whole table is drained without a filter and mapped id to fields; a failed request fails the call |
| AirtableHttp.InstanceMapRequestsAreUnfiltered | app/src/main/kotlin/com/moon42/accounting/AirtableClient.kt:83 | no request of `fetchInstanceMap` carries a filter formula |
| AirtableData.MonthFormula | app/src/main/kotlin/com/moon42/accounting/AirtableData.kt:51 | building the formula succeeds exactly for months 1 to 12 and otherwise throws `YearMonth.of`'s message |
| AirtableData.FormulaIsNotBlank | app/src/main/kotlin/com/moon42/accounting/AirtableClient.kt:43-45 | the month's formula is never blank, so it is always sent as `filterByFormula` |
| AirtableData.FetchInvoicesOfMonth | app/src/main/kotlin/com/moon42/accounting/AirtableData.kt:60-62 | the month's invoices are the fields of the filtered drain's records, or the error; an invalid month throws before any request |
| AirtableData.InvoicesOfMonthRecords | app/src/main/kotlin/com/moon42/accounting/AirtableData.kt:60-62 | the invoices are returned exactly when the month is valid and every page read has status 200, and are then the fields of every record read, in order |
| AirtableData.FilteredRequests | app/src/main/kotlin/com/moon42/accounting/AirtableClient.kt:43-45 | every request of a drain with a non-blank filter carries that filter, encoded |
| AirtableData.InvoicesOfMonthRequests | app/src/main/kotlin/com/moon42/accounting/AirtableData.kt:60-61 | every request for the month's invoices carries the encoded formula whose bounds are the month's first and last day |
| AirtableData.LoadAirtableData | src/AirtableData.kt:36-43 | the type table, then the partner table, then the month's items are loaded, and the first exception ends the construction |
| AirtableData.TablesMeaning | src/AirtableData.kt:36-43 | a loaded `AirtableData` holds the whole type and partner tables keyed by id and exactly the fields of the month's records, in order and not joined |
| AirtableData.AirtableClient.constructor | src/AirtableClient.kt:48-50 | a client remembers its year and month, and its `registryItems` is unset |
| AirtableData.AirtableClient.Fetch | src/AirtableClient.kt:116-124 | `fetch` sets `registryItems` to the month's items joined onto the type and partner tables, and leaves it unchanged when a request fails |
| AirtableData.FetchedItemsJoin | src/AirtableClient.kt:120-123 | after `fetch`, item i is record i's fields with the type and partner of its first ids, null where a list is null or empty or the id is missing |
| AirtableData.FetchMatchesAppDraft | src/AirtableClient.kt:116-124 | the items `fetch` stores are the app draft's month invoices as its getters show them |
| AirtableData.LoadedItemsHaveNoPartner | src/AirtableData.kt:39-42 | every decoded item of `AirtableData` has no partner, so its target path fails with the missing-partner error |
| AirtableData.FetchedItemsFindTheirFiles | src/AirtableClient.kt:120-123 | with a known MIME type, an item stored by `fetch` has a target path exactly when its first partner id is in the partner table |
| FileNaming.ErrorMessageNames | app/src/main/kotlin/com/moon42/accounting/AccountingDownloader.kt:92 | the missing-partner message names the item's sequence number, and the missing-MIME message names the MIME type |
| FileNaming.ExtensionsHaveNoDot | app/src/main/kotlin/com/moon42/accounting/AccountingDownloader.kt:30-43 | every extension in the MIME table is non-empty and holds no dot |
| FileNaming.Sanitize | app/src/main/kotlin/com/moon42/accounting/AccountingDownloader.kt:87-89 | each of `< > : " / \ \| ? * .` becomes `_` and every other character stays, so the length is kept and none of them is left |
| FileNaming.SanitizeIdempotent | app/src/main/kotlin/com/moon42/accounting/AccountingDownloader.kt:87-89 | sanitising twice is sanitising once |
| FileNaming.SanitizeKeepsClean | app/src/main/kotlin/com/moon42/accounting/AccountingDownloader.kt:87-89 | a name without reserved characters is left unchanged |
| FileNaming.SanitizeKeepsBlank | app/src/main/kotlin/com/moon42/accounting/AccountingDownloader.kt:87-89 | sanitising neither makes nor unmakes a blank name |
| FileNaming.DirNameMeaning | app/src/main/kotlin/com/moon42/accounting/AccountingDownloader.kt:91-93 | the directory name exists exactly when the item has a partner, otherwise the error names the item. It holds no reserved character, has no surrounding whitespace, and is empty exactly when the partner's name is blank |
| FileNaming.FileNameExtension | app/src/main/kotlin/com/moon42/accounting/AccountingDownloader.kt:95-116 | naming fails exactly for a MIME type missing from the table, whatever the partner and type. Otherwise the name has exactly one dot, followed by the table's extension |
| FileNaming.SanitizeAppend | app/src/main/kotlin/com/moon42/accounting/AccountingDownloader.kt:87-89 | sanitising works character by character, so sanitising a concatenation concatenates the sanitised parts |
| FileNaming.SeparateLayoutExample | app/src/main/kotlin/com/moon42/accounting/AccountingDownloader.kt:95-116 | item 7 of March 2024, partner `Acme, Inc.`, type `Invoice`, a PDF, with separate partner directories, is named `00007_Acme, Inc__Invoice_202403.pdf` |
| FileNaming.FileNameLayouts | app/src/main/kotlin/com/moon42/accounting/AccountingDownloader.kt:98-107 | the two layouts hold the same segments with the sequence number and the partner swapped |
| FileNaming.SeqOfFileNameRoundTrip | app/src/main/kotlin/com/moon42/accounting/AccountingDownloader.kt:98-102 | the sequence number reads back from a seq-first name whatever the partner, type and extension |
| FileNaming.SeqFirstNamesDistinct | app/src/main/kotlin/com/moon42/accounting/AccountingDownloader.kt:98-102 | items with different sequence numbers get different seq-first names |
| FileNaming.FlatLayoutIsAmbiguous | app/src/main/kotlin/com/moon42/accounting/AccountingDownloader.kt:103-113 | in the partner-first layout two different items can get the same file name |
| FileNaming.PartnerSegmentIsNotTrimmed | app/src/main/kotlin/com/moon42/accounting/AccountingDownloader.kt:91-101 | the file name keeps the whitespace around a partner's name that the directory name trims |
| FileNaming.SrcFileNameIsSeqFirst | src/AccountingDownloader.kt:109-123 | the src draft names files as the app draft does with separate partner directories |
| FileNaming.TargetPathOutcome | app/src/main/kotlin/com/moon42/accounting/AccountingDownloader.kt:75-81 | a missing partner is fatal only with separate partner directories, and is reported before an unknown MIME type. An unknown MIME type is fatal in both layouts. A path that is found ends with the separator and the file name |
| FileNaming.SrcTargetPathOutcome | src/AccountingDownloader.kt:94-95 | in the src draft an item without a partner fails whatever its MIME type; otherwise only an unknown MIME type fails |
| FileNaming.SrcTargetPathMatchesApp | src/AccountingDownloader.kt:90-99 | both drafts put a file in the same place when the app draft uses `accounting-files` and separate partner directories |

## Left out

- Google Drive is not modelled: the OAuth credentials, the `files().get` calls and the
  download of each file's content. The MIME type of the Drive file is a parameter.
- The file system is not modelled: deleting and creating directories, writing the
  file, and `File.separator` and `absolutePath`. The separator and `absolutePath`
  are parameters.
- Concurrency is not modelled. `runBlocking`/`launch` download the files
  concurrently; the model names each file independently.
- Logging and the console output are not modelled.
- HTTP and JSON are not modelled: the client, the `Authorization` header, the status
  line and Gson's decoding. A page is given already decoded, as status, body, records
  and offset. `createdTime` and the fields the program never reads are left out of
  the records.
- A decoded name is never null in the model. Airtable leaves empty fields out of a
  record, so Gson can leave `Partner.name` or `DocumentType.name` null although
  their Kotlin type is non-null. Then `composeDirNameFor` reports "No partner found"
  for an item that has a partner
  (app/src/main/kotlin/com/moon42/accounting/AccountingDownloader.kt:92), and
  lines 101, 104 and 109 of that file throw inside `sanitizeFileName`. The model's
  `string` names cannot express that null.
- `URLEncoder.encode` is a parameter. The proofs about reading a URI back assume
  only that its output never holds `?`, `&` or `=` (`AirtableHttp.EscapesDelimiters`).
- `URI.create` is not modelled. A formula that is not a valid URI would make it
  throw, but an encoded formula always is one.
- The `Config` objects of both drafts are left out. The base id, the table ids, the
  target directory and `separatePartnerDirs` are parameters.
- AirtableHttp.FetchAirtableData: it needs `Terminates(pages)`. If the server
  never sent a last page, the loop would not end, and that run is not modelled.
- FilterFormula.ForInvoicesOfMonth: it needs a month from 1 to 12. For any other
  month `YearMonth.of` throws, and `AirtableData.MonthFormula` and the methods that
  use it model that exception.
- Text.IsWhitespace: only the characters Java's `Character.isWhitespace` and
  `isSpaceChar` accept are listed. No other Unicode data is modelled.
- Text.FormatInt: only ASCII digits are written. A default locale with other digits
  is not modelled.
- AirtableHttp.Associate has no `ensures` of its own. Its contract is stated by
  `AssociateKeys` and `AssociateLastWins`.
- Registry.ResolveInPlace: the src draft's `onEach` mutates the items of the list it
  returns. The model computes new item values, so aliasing of those objects is not
  captured.
- The app draft's `AirtableData.kt` builds its `Airtable` object from a
  `com.moon42.airtable.AirtableClient(baseId, token)`. That class is not part of this
  model. Its `fetchInstanceMap` and `fetchAirtableData` are modelled as those of the
  app draft's `AirtableClient.kt`, which take the same arguments apart from the
  credentials.
- `src/AirtableData.kt:41` calls `FilterFormulaBuilder.forRegistryItems(year, month)`,
  which the src draft does not define. It is modelled as the month formula of both
  drafts, which `AirtableClient.buildFilterFormula` builds in the src draft.
- `src/AirtableData.kt:37-41` calls `AirtableClient.fetchInstanceMap` and
  `AirtableClient.fetchAirtableData` as if `AirtableClient` were an object. In the src
  draft, `AirtableClient` is a class with a year and a month (src/AirtableClient.kt:48),
  and both functions are private members of it (src/AirtableClient.kt:91 and 111), so
  these calls do not resolve as written. `AirtableData.LoadAirtableData` reads them
  as the app draft's public `object AirtableClient` functions of the same names
  (app/src/main/kotlin/com/moon42/accounting/AirtableClient.kt:62-85). Their bodies
  are the same as those of the src draft's private members; only `private` differs.
- The src draft's `AirtableData.kt` declares `RegistryItem` a second time with other
  id-field names. Both declarations are the one `Registry.RegistryItem`.
- `Config.kt`, `CoroutineTest.kt`, the entry point and `getCredentials` are not part
  of this model.

## Findings

| source | as written | input that shows it | evidently intended | confidence | as-written member | corrected member |
|---|---|---|---|---|---|---|
| src/AirtableData.kt:39-42 | The registry items are the records' fields only. Their `@Transient` `partner` stays null, but `src/AccountingDownloader.kt:94` names every file's directory from it, so `composeDirNameFor` throws for every item. | any month with at least one invoice, e.g. one decoded item whose `partner` list holds an id of the partner table | join each item onto the type and partner tables before downloading, as `AirtableClient.fetch` does at src/AirtableClient.kt:120-123 | not executed; high | AirtableData.LoadedItemsHaveNoPartner | AirtableData.FetchedItemsFindTheirFiles |
