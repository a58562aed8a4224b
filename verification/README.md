# fabricator: spreadsheet checking and transformation

fabricator is a small web service for Islandora ingest spreadsheets. This project models its core in Dafny:

- **`CheckMyWork`** validates a spreadsheet, sent as a grid of strings, and answers with a map from cell address (`"B7"`) to the message for that cell.
  - Each cell is checked against the rules of its column: required fields, parent rules, integers, node existence, URLs, unique upload ids, known parent ids, EDTF dates, DOIs, contributors, files, Yes/No values, TGN places and title length.
  - Upload ids, checked TGN places and node-existence answers are remembered from cell to cell over the whole sheet.
- **`readCSVWithJSONTags`** turns the spreadsheet into workbench rows. Each non-empty cell of a column that the record type maps to a workbench column is split on `" ; "`. Each token is encoded for its column:
  - contributor term ids;
  - Yes/No as 1/0;
  - short ids;
  - weights without leading zeros;
  - TGN locations as JSON;
  - rights statement URIs;
  - `attr0`/`vid` JSON templates;
  - staging paths.

  The encoded tokens are joined with `|`.
- **The Drupal term resolver** turns a contributor `relator:scheme:vocabulary:name` into `relator:scheme:vocabulary:tid`. It looks the person or corporate body up by name, creates it when missing, and caches each success.
- **The TGN client** fetches a place record and walks its first `part_of` link to the root. It writes city, county, state and country by depth.

The model is written as pure functions:

- The world outside is passed in as oracles in an environment record: the HEAD request, the gazetteer, the EDTF parser, the URL parser, the file system, the JSON decoder and the term service.
- The HEAD requests, the term-service lookups and creates, and the top-level TGN lookups are logged in the threaded state, so "asked once" and "not asked again" can be stated for them. The parent fetches of the TGN walk (tgn.go:77-83) are not logged.

Modules:

| module | file | what |
|---|---|---|
| `Wrappers` | wrappers.dfy | `Option`, `Result`, `NoDuplicates` |
| `GoStrings` | gostrings.dfy | the `strings` functions the handlers call, and Go's byte length |
| `GoStrconv` | gostrconv.dfy | `Atoi` / `Itoa` on 64-bit `int` |
| `CellAddress` | celladdress.dfy | `numberToExcelColumn` and report addresses |
| `Contributors` | contributors.dfy | the contributor record and its name parts |
| `Tgn` | tgn.dfy | the TGN hierarchy walk |
| `JsonText` | jsontext.dfy | `encoding/json` string escaping, the Location encoding and its decoder, the transform's hand-rolled quoting |
| `TermResolver` | terms.dfy | the Drupal term resolver |
| `Columns` | columns.dfy | `strInSlice`, `IndexOf`, `ColumnValue` |
| `StagingPaths` | stagingpaths.dfy | where the checker and the transform look for an uploaded file |
| `Transform` | transform.dfy | `readCSVWithJSONTags` |
| `Check` | check.dfy | `CheckMyWork` |

Some behaviours of the code are easy to misread; the model keeps them as written:

- A catalog URL passes when it has a scheme *or* a host (check.go:133).
- Negative integers are accepted by the integer columns (check.go:113).
- A resolved contributor keeps its vocabulary: `relator:vocab:tid` (transform.go:367).
- A TGN record without parent is written as the *country*, not the city (tgn.go:71-74).

## Model

| member | source | states |
|---|---|---|
| GoStrings.TrimSpace | internal/handlers/check.go:105 | the result is the input with its leading and trailing white space removed: a slice of the input, everything cut off is space, and it neither starts nor ends with space |
| GoStrings.TrimLeftChar | internal/handlers/transform.go:191 | `strings.TrimLeft` with one character: the result is a suffix of the input, everything cut off is that character, and the result does not start with it |
| GoStrings.Split | internal/handlers/check.go:104 | `strings.Split` yields at least one piece; the pieces joined back with the separator are the input; `SplitLeftmost` and `SplitCharacterised` make the cuts the leftmost ones |
| GoStrings.SplitLeftmost | internal/handlers/check.go:104 | the cuts are leftmost (`LeftmostCuts`): no occurrence of the separator starts inside a piece the separator follows, and the last piece holds none |
| GoStrings.Join | internal/handlers/transform.go:298 | the length is the parts' lengths plus one separator between each two, and the first part is a prefix |
| GoStrings.SplitJoin | internal/handlers/transform.go:298 | splitting the join of parts free of the separator's first character gives the parts back |
| GoStrings.SplitJoinLeftmost | internal/handlers/transform.go:298 | splitting the join of any leftmost-cut parts gives the parts back |
| GoStrings.SplitCharacterised | internal/handlers/check.go:104 | the pieces of a split are exactly the non-empty sequences that join back to the input and are cut at leftmost occurrences |
| GoStrings.ReplaceAllPieces | internal/handlers/check.go:197 | for a pattern of any length, the result is the input's leftmost-cut pieces joined with the replacement |
| GoStrings.ReplaceLeading | internal/handlers/check.go:197 | a string that opens with the pattern and holds no other occurrence has the replacement in its place and keeps the rest |
| GoStrings.ReplaceAll | internal/handlers/check.go:189-197 | replacing a pattern by itself changes nothing; a one-character pattern is replaced character by character; `ReplaceAllPieces` states the result for any pattern |
| GoStrings.SplitAround | internal/handlers/transform.go:259 | splitting `a + sep + b`, where neither part holds the separator's first character, gives exactly `[a, b]` |
| GoStrings.MapCharAbsent | internal/handlers/check.go:189 | replacing a character that does not occur changes nothing |
| GoStrings.ReplaceAbsentChar | internal/handlers/check.go:189 | `strings.ReplaceAll` of a character that does not occur changes nothing |
| GoStrings.MapCharAppend | internal/handlers/transform.go:260-261 | replacing characters distributes over concatenation |
| GoStrings.Utf8Len | internal/handlers/check.go:216 | Go's `len` counts UTF-8 bytes: at least the number of characters, equal to it for ASCII; `Utf8LenAppend` and `Utf8LenIsEncodedLength` make it the length of the concatenated per-character encodings |
| GoStrings.Utf8EncodeRune | internal/handlers/check.go:216 | a code point takes one to four bytes by its range (section 3 of RFC 3629), its lead byte tells how many, and the bytes decode back to it |
| GoStrings.Utf8LenAppend | internal/handlers/check.go:216 | the byte length of a concatenation is the sum of the byte lengths |
| GoStrings.Utf8LenIsEncodedLength | internal/handlers/check.go:216 | the byte length is the length of the string's UTF-8 encoding |
| GoStrings.ToLower | internal/handlers/transform.go:424 | each letter A to Z becomes the letter 32 code points later (a to z), every other character is kept; the length and the white-space positions are unchanged |
| GoStrings.TrimSpaceLower | internal/handlers/transform.go:424 | trimming and lower-casing commute |
| GoStrings.TrimSpaceIdempotent | internal/handlers/transform.go:291 | trimming twice trims nothing more |
| GoStrings.ToLowerIdempotent | internal/handlers/transform.go:424 | lower-casing twice changes nothing more |
| GoStrconv.Itoa | internal/handlers/check.go:74 | a decimal rendering: digits only for a non-negative number, a minus sign and digits otherwise |
| GoStrconv.Atoi | internal/handlers/check.go:113 | an optional sign and at least one digit, and the value fits in 64 bits; a negative value had a minus sign; a plain digit string reads as its value exactly when that fits |
| GoStrconv.DigitsBelowPow10 | internal/handlers/transform.go:186-187 | `n` digits are worth less than ten to the `n` |
| GoStrconv.AtoiItoa | internal/handlers/check.go:113-121 | `Atoi` reads back what `Itoa` writes, for every 64-bit integer |
| GoStrconv.ItoaInjective | internal/handlers/check.go:121 | distinct ids are rendered differently in the messages |
| GoStrconv.StripZerosKeepsValue | internal/handlers/transform.go:191 | dropping leading zeros keeps a digit string's value |
| CellAddress.NumberToExcelColumn | internal/handlers/check.go:248-259 | the column name is a non-empty run of the letters A to Z |
| CellAddress.ColumnRoundTrip | internal/handlers/check.go:248-259 | reading a column name as a bijective base-26 numeral gives back its index |
| CellAddress.ColumnRoundTripBack | internal/handlers/check.go:248-259 | every letter string is the name of the column it decodes to |
| CellAddress.ColumnInjective | internal/handlers/check.go:248-259 | distinct column indexes get distinct names |
| CellAddress.FirstColumns | internal/handlers/check.go:248-259 | the first 26 columns are single letters; after "Z" comes "AA" |
| CellAddress.LettersDigitsSplit | internal/handlers/check.go:73-74 | letters followed by digits split in only one way |
| CellAddress.AddressInjective | internal/handlers/check.go:73-74 | distinct data cells get distinct report keys |
| CellAddress.HeaderKeyIsNoAddress | internal/handlers/check.go:51-53 | the "no rows" key "A" is never the key of a data cell |
| CellAddress.AddressExamples | internal/handlers/check.go:73-74 | the first data row of columns 1, 4 and 27 is "A2", "D2" and "AA2" |
| Contributors.NameRebuilt | internal/handlers/transform.go:342-349 | relator, vocabulary and display name joined with ':' give back the name |
| Columns.StrInSlice | internal/handlers/check.go:239-246 | true exactly when the string is in the slice |
| Columns.IndexOf | internal/handlers/check.go:338-345 | -1 exactly when the value is absent; otherwise the position of its first occurrence |
| Columns.ColumnValue | internal/handlers/check.go:347-354 | "" for a column the header lacks, otherwise the row's cell under that column |
| Columns.FirstColumnWins | internal/handlers/check.go:347-354 | a duplicated header column always reads the leftmost cell |
| Tgn.Ancestry | internal/tgn/tgn.go:69-84 | the labels from a place to the root of its first-parent chain, starting with the place itself |
| Tgn.ResolveHierarchy | internal/tgn/tgn.go:69-99 | a parentless place is written as country and nothing else changes; otherwise the place's label is written at the field for its depth (up to 3), and the fields of the depths before it are kept; a failed fetch names a `.json` record |
| Tgn.GetLocationFromTGN | internal/tgn/tgn.go:30-66 | a failed first fetch is the error; a parentless record gives a Location with only the country; otherwise the fetched record is the city |
| Tgn.ResolveIsPlaced | internal/tgn/tgn.go:69-99 | the recursive walk fails exactly when the chain fails; otherwise it writes each label of the chain at the field for its depth, and the root as country |
| Tgn.GetLocationIsPlaced | internal/tgn/tgn.go:30-66 | a failed first fetch is the lookup's error; otherwise the result is the chain of the fetched record placed into an empty Location |
| Tgn.ParentlessIsCountry | internal/tgn/tgn.go:71-74 | a parentless record is the country and nothing else |
| Tgn.FourLevelChain | internal/tgn/tgn.go:86-96 | a chain of four places fills city, county, state and country |
| Tgn.ThreeLevelChain | internal/tgn/tgn.go:86-96 | in a chain of three places the state stays empty and the root is the country |
| Tgn.LongChainCountry | internal/tgn/tgn.go:94-96 | in a chain of more than four places the place at depth 3 overwrites the root as country |
| Tgn.FailurePropagates | internal/tgn/tgn.go:77-83 | a failure anywhere along the chain is the failure of the whole lookup |
| Tgn.BethlehemExample | internal/tgn/tgn.go:30-99 | Bethlehem, Northampton County, Pennsylvania, United States resolve to city, county, state and country |
| Tgn.OnlyFirstParent | internal/tgn/tgn.go:77 | only the first `part_of` link is followed |
| Tgn.AncestryFuelMonotone | internal/tgn/tgn.go:81 | a walk that finishes within the depth bound gives the same answer under any larger bound |
| JsonText.UnicodeEscape | internal/handlers/transform.go:203 | a `\u` escape is six characters |
| JsonText.Escape | internal/handlers/transform.go:203 | escaped text holds no control character and nothing that needs a `\u` escape, and is never shorter than the input |
| JsonText.MarshalLocation | internal/handlers/transform.go:203-208 | the encoding is a braced object holding no unescaped control character |
| JsonText.UnicodeEscapeRead | internal/handlers/transform.go:203 | a `\u` escape decodes back to its character |
| JsonText.EscapeCharRead | internal/handlers/transform.go:203 | the escape of any one character decodes back to it |
| JsonText.ReadEscaped | internal/handlers/transform.go:203 | decoding an escaped string and its closing quote gives back the string and what follows |
| JsonText.QuoteInjective | internal/handlers/transform.go:203 | distinct strings are written as distinct literals |
| JsonText.ReadMembers | internal/handlers/transform.go:203 | reading a member list yields one value per key |
| JsonText.ReadMemberOf | internal/handlers/transform.go:203 | one written member reads back as its value |
| JsonText.ReadWrittenMembers | internal/handlers/transform.go:203 | a written member list reads back as the values it was written from |
| JsonText.ParseMarshalLocation | internal/handlers/transform.go:203-208 | the JSON of a Location parses back to the same Location |
| JsonText.MarshalLocationInjective | internal/handlers/transform.go:203-208 | distinct Locations are encoded as distinct texts |
| JsonText.SlashQuoteIsPerChar | internal/handlers/transform.go:260-261 | the two `ReplaceAll` passes (backslashes, then quotes) act like one per-character substitution |
| JsonText.ReadSlashQuoted | internal/handlers/transform.go:260-267 | without control characters, the hand-quoted value reads back exactly |
| JsonText.SlashQuoteKeepsLineBreak | internal/handlers/transform.go:260-261 | a line break is not escaped, so the template's string does not decode |
| TermResolver.TermIdFromEntry | internal/handlers/transform.go:562-571 | no tid means "not found"; otherwise the first tid must parse, and the result is its value |
| TermResolver.GetTermIdFromBody | internal/handlers/transform.go:542-560 | an array is read through its first term, and an empty array means not found; a single term is read directly; anything else is an error |
| TermResolver.TermIdRoundTrip | internal/handlers/transform.go:542-571 | a term id written in decimal reads back, in either body shape |
| TermResolver.LookupTerm | internal/handlers/transform.go:450-475 | one request is logged; the answer is a term id exactly when the reply is 2xx and its body decodes |
| TermResolver.Payload | internal/handlers/transform.go:482-497 | e-mail and ORCID are sent only when non-empty, the employer only when its id is positive |
| TermResolver.CreateTerm | internal/handlers/transform.go:477-534 | without a password nothing is sent and it fails; otherwise one create request is logged, and a success carries the tid of a 2xx reply |
| TermResolver.FindOrCreateInstitution | internal/handlers/transform.go:429-447 | the corporate-body lookup is the first request; only the request log changes; without a password that lookup is the only request; a found term gives its tid, a miss the tid the creation returns, and no other tid is returned |
| TermResolver.EnsureInstitution | internal/handlers/transform.go:423-448 | a cached key answers without a request; on a miss the corporate-body lookup comes first and the tid is the one the site gives (found or created); only a success is cached; caches only grow |
| TermResolver.PersonDiscriminator | internal/handlers/transform.go:385-397 | the lookup is narrowed by e-mail, else ORCID, else the institution |
| TermResolver.LookupOrCreatePerson | internal/handlers/transform.go:399-420 | the first request is the person lookup with its discriminator; a found term gives its tid after that one request; a new person is created with the institution id passed in, or else the one cached for its institution; `LookupOrCreatePersonComplete`: whenever the site gives a tid for that lookup and creation, that tid is the result |
| TermResolver.CreatePerson | internal/handlers/transform.go:408-420 | the person's employer is the institution id passed in, or else the one `EnsureInstitution` caches; a success carries the tid of the create reply, and with a password any tid the reply carries is the result |
| TermResolver.LookupOrCreatePersonComplete | internal/handlers/transform.go:399-420 | a found tid, or, on a miss with a password, the created tid, is the result; with no institution id passed in and an institution named, the employer is the id `EnsureInstitution` gives |
| TermResolver.EnsurePerson | internal/handlers/transform.go:370-421 | a cached key answers without a request; on a miss the tid is the one the site gives for the person lookup or creation with the cached institution id, and a found term's tid when not narrowed by institution; only a success is cached, under the person key; `EnsurePersonComplete`: on a miss, whenever the site gives a tid for the person's lookup and creation, that tid is the result |
| TermResolver.EnsurePersonComplete | internal/handlers/transform.go:370-421 | on a cache miss, a tid the site gives is the result: narrowed by the institution's id when only the institution is known, created with that id as employer |
| TermResolver.ResolveContributor | internal/handlers/transform.go:341-368 | fewer than four name parts is the poorly-formatted error, and that is the only way to get it; another vocabulary passes the name through untouched; a person or body becomes relator, vocabulary and the decimal tid of `EnsurePerson` or `EnsureInstitution`, failing exactly when that does |
| TermResolver.InstitutionKeyNormalises | internal/handlers/transform.go:424 | the institution key ignores ASCII case and surrounding white space |
| TermResolver.BarePersonKey | internal/handlers/transform.go:371-376 | a person without attributes is keyed by the left-trimmed, lower-cased name followed by "\|\|\|" |
| TermResolver.ResolveTwice | internal/handlers/transform.go:377-379 | resolving a resolved contributor again gives the same answer and sends nothing |
| TermResolver.EmailTakesPrecedence | internal/handlers/transform.go:386-387 | with an e-mail, the first request is the lookup by e-mail |
| TermResolver.OrcidNext | internal/handlers/transform.go:388-389 | without e-mail, the ORCID narrows the first lookup |
| TermResolver.InstitutionFirst | internal/handlers/transform.go:390-399 | with only an institution, the institution is resolved first; its failure is the person's failure, and otherwise the person lookup is narrowed by its id |
| TermResolver.NoPasswordNoCreate | internal/handlers/transform.go:478-480 | without a password, resolving an institution sends lookups only |
| TermResolver.ResolvedShape | internal/handlers/transform.go:367 | a resolved person or body is `relator:vocab:` followed by the id now cached for it, and when it was not cached before, the site gave that id |
| Transform.GetJSONFieldName | internal/handlers/transform.go:107-112 | the tag's prefix up to, not including, its first comma |
| Transform.YesNo | internal/handlers/transform.go:173-181 | accepts exactly "Yes" and "No", and gives "1" exactly for "Yes" |
| Transform.Lookup2 | internal/handlers/transform.go:210-238 | none exactly when no entry has the key; otherwise the value of an entry with that key |
| Transform.FindPair | internal/handlers/transform.go:239-273 | none exactly when no pair spells the column; otherwise a pair that does |
| Transform.PairsDotFree | internal/handlers/transform.go:239-273 | no field or value of the attr0 and vid tables contains a '.' |
| Transform.ComponentsOfPair | internal/handlers/transform.go:259 | splitting a table column name at its separator gives back its pair |
| Transform.VidColumn | internal/handlers/transform.go:269-273 | every vid column is a templated column written under its field as "vocabulary:token", never failing |
| Transform.RelatedItemColumns | internal/handlers/transform.go:274-279 | the related-item title and ISSN columns are both written under `field_related_item`, each with its own JSON template |
| Transform.RelatedItemNotPaired | internal/handlers/transform.go:274-279 | the related-item columns are in neither the attr0 nor the vid table, nor among the plain columns |
| Transform.NoPairColumn | internal/handlers/transform.go:239-273 | a column with no '.' before the separator position is no pair's column |
| Transform.TargetColumn | internal/handlers/transform.go:262-279 | an attr0 or vid column is written under the field its pair names; both related-item columns are written under `field_related_item`; every other column under its own name |
| Transform.EncodeTgn | internal/handlers/transform.go:192-208 | a cached token answers from the cache with nothing fetched; otherwise it succeeds exactly when the gazetteer does, and the value parses back to the gazetteer's Location; the cache stays sound |
| Transform.EncodeValue | internal/handlers/transform.go:173-191 | an id passes unchanged exactly when it is short; a weight or node id passes exactly when `Atoi` accepts it and loses only its leading '0' characters, so a signed token keeps its sign; every failure names the column and token |
| Transform.EncodeInteger | internal/handlers/transform.go:186-191 | a weight or node id passes exactly when `Atoi` accepts it; what is cut off is only '0' characters and the rest does not start with '0'; a failure names the column and token |
| Transform.IntegerKeepsValue | internal/handlers/transform.go:186-191 | a digit string keeps its value (all zeros become empty), a signed integer is written unchanged, and a non-empty result reads back through `Atoi` as the same integer |
| Transform.ShortIdValue | internal/handlers/transform.go:182-185 | a short id is below 10000 and parses with `Atoi` to its digits' value |
| Transform.MemoSoundAdd | internal/handlers/transform.go:198-207 | storing a fresh token's marshalled location in the TGN cache keeps every cached value equal to the gazetteer's answer and the list of fetched tokens duplicate-free and in step with the cache |
| Transform.CachedParses | internal/handlers/transform.go:193-195 | a cached TGN value parses back to the gazetteer's location |
| Transform.EncodeContributor | internal/handlers/transform.go:162-171 | a token that does not decode is an error and nothing is resolved; otherwise the result and resolver state are those of `ResolveContributor` on the decoded record, its failure wrapped as an unresolved contributor; the TGN cache is untouched |
| Transform.EncodePlain | internal/handlers/transform.go:161-238 | a contributor column is `EncodeContributor`, the geographic column `EncodeTgn`, every other plain column the state-free `EncodeValue`; only a contributor touches the resolver and only a TGN token the TGN cache; caches only grow |
| Transform.EncodeTemplated | internal/handlers/transform.go:239-289 | an attr0 column fills its pair's JSON template; a vid column writes "vocabulary:token"; the related-item title and ISSN fill their templates; a file column gets its staging path; every other column passes the token through |
| Transform.EncodeRaw | internal/handlers/transform.go:161-289 | a plain column is encoded by `EncodePlain`, any other by its template, without failing or touching state |
| Transform.ResolvingColumns | internal/handlers/transform.go:162-207 | whatever the tag, a contributor cell is resolved through the term service and a geographic cell through the gazetteer |
| Transform.EncodeToken | internal/handlers/transform.go:291 | the encoded token has no surrounding white space; `EncodeTokenTrimsRaw`: it fails exactly when the column's encoding does, with the same error and state, and is otherwise that encoding trimmed |
| Transform.EncodeTokenTrimsRaw | internal/handlers/transform.go:291 | the token's encoding fails exactly when its column's does, with the same error and state, and is otherwise that encoding trimmed |
| Transform.EncodeTokens | internal/handlers/transform.go:160-293 | on success, one value per token; `EncodeTokensAt`: value `i` is token `i` encoded in the state the tokens before it leave, and the first failing token ends the cell with its error |
| Transform.MapFoldAt | internal/handlers/transform.go:159-293 | element `i` of a successful fail-fast fold is the step on element `i` in the state the elements before it leave |
| Transform.MapFoldStop | internal/handlers/transform.go:159-293 | the first failing element ends the fold with that step's error and state |
| Transform.EncodeTokensIsFold | internal/handlers/transform.go:159-293 | a cell's tokens are encoded as the fail-fast fold of `EncodeToken` |
| Transform.EncodeTokensAt | internal/handlers/transform.go:159-293 | token `i` is encoded in the state the tokens before it leave and is value `i`; the first failing token ends the cell with its error and state |
| Transform.AppendCell | internal/handlers/transform.go:298 | the cell is appended to its column's list; other columns are untouched |
| Transform.AddCell | internal/handlers/transform.go:295-298 | the column written is recorded among the headers |
| Transform.WriteCell | internal/handlers/transform.go:159-298 | a cell's tokens encoded, joined with '\|' and appended under the column's target column; a failing token is the cell's failure, with its state |
| Transform.ApplyField | internal/handlers/transform.go:140-299 | an empty cell, another field's column or a field that is not settable changes nothing; a field without a csv name is an unknown-column error; otherwise the cell's tokens are encoded and, joined with '\|', appended under the column's target column, and a failing token is the field's failure |
| Transform.ApplyFields | internal/handlers/transform.go:140-299 | earlier cells are kept and every column written is among the headers; a column no field is named after changes nothing; `ApplyFieldsOnly`: a column named after one field is that field's alone |
| Transform.ApplyFieldsOnly | internal/handlers/transform.go:140-156 | when exactly one field is named after a column, that column is that field's alone |
| Transform.ApplyColumns | internal/handlers/transform.go:139-300 | earlier cells are kept and every column written is among the headers; `ApplyColumnsSnoc`: column `i` is applied to the row the columns before it leave |
| Transform.ThreadSplit | internal/handlers/transform.go:139-303 | a fail-fast fold is its prefix's fold continued over the rest |
| Transform.ThreadSnoc | internal/handlers/transform.go:139-303 | element `i` of a fail-fast fold is applied to what the elements before it leave |
| Transform.ApplyColumnsIsThread | internal/handlers/transform.go:139-300 | a record's columns are the fold, over its (header, cell) pairs, of applying every field |
| Transform.ApplyColumnsSnoc | internal/handlers/transform.go:139-300 | column `i` is applied to the row and state the columns before it leave |
| Transform.UsableRecords | internal/handlers/transform.go:129-133 | the records up to the first whose width differs from the header's |
| Transform.ApplyRecords | internal/handlers/transform.go:129-303 | one row per record after those already made, and the headers are exactly the columns of all rows; `ApplyRecordsAt`: row `i` is record `i`'s columns applied to an empty row |
| Transform.RecordStep | internal/handlers/transform.go:139-302 | one record becomes its columns applied to an empty row, appended to the rows, with the columns written added to the headers |
| Transform.ApplyRecordsIsThread | internal/handlers/transform.go:129-303 | the records are the fail-fast fold of `RecordStep` |
| Transform.ApplyRecordsSplit | internal/handlers/transform.go:129-303 | the records up to `i`, continued over the rest |
| Transform.ApplyRecordsSnoc | internal/handlers/transform.go:129-303 | record `i` is turned into a row with the headers and state the records before it leave |
| Transform.ApplyRecordsAt | internal/handlers/transform.go:129-303 | row `i` is record `i`'s columns applied to an empty row, after the rows before it, which are unchanged |
| Transform.ReadCsv | internal/handlers/transform.go:114-306 | no header is an error; on success, one row per usable record, the headers are exactly the columns written, and the TGN cache is sound; `ReadCsvRow`: row `i` is record `i + 1` with its columns applied |
| Transform.ReadCsvRow | internal/handlers/transform.go:114-306 | row `i` is record `i + 1` of the input with its columns applied, in the state the rows before it leave |
| Transform.TargetFile | internal/handlers/transform.go:37-39 | an update sheet exactly when a `node_id` column was written, a create sheet otherwise |
| Transform.UpdateSheetIffNodeIds | internal/handlers/transform.go:37-39 | the transform writes an update sheet exactly when some row has a node id |
| Transform.OutputRecordReadsBack | internal/handlers/transform.go:57-61 | each output cell splits at '\|' back into the cells of its column when no cell holds '\|'; a column the row lacks is written empty |
| Transform.RightsRoundTrip | internal/handlers/transform.go:210-238 | every accepted phrase is recovered from its URI |
| Transform.RightsUrisDistinct | internal/handlers/transform.go:210-238 | the twelve rights URIs are pairwise distinct |
| Transform.WeightKeepsValue | internal/handlers/transform.go:186-191 | dropping the leading zeros of a weight keeps its value; zero becomes "" |
| Transform.Attr0ValueReadsBack | internal/handlers/transform.go:259-268 | the `value` of an attr0 template reads back as the token, when the token has no control character |
| Transform.RelatedTitleUnescaped | internal/handlers/transform.go:274-276 | a related-item title with a quote ends the JSON string early |
| Transform.YesNoColumn | internal/handlers/transform.go:173-181 | Yes/No columns accept exactly "Yes" and "No", as 1 and 0, and reject everything else with the column's tag |
| Transform.WeightColumn | internal/handlers/transform.go:186-191 | a weight or node id must parse as an integer; leading zeros of a digit string are dropped without changing its value (all zeros become empty), a signed integer is written unchanged, and a non-empty result reads back through `Atoi` as the same integer |
| Transform.RightsColumn | internal/handlers/transform.go:210-238 | a rights column accepts exactly the twelve phrases, and the phrase is recoverable from the URI |
| Transform.NotPlainColumn | internal/handlers/transform.go:161-289 | a column name containing '.' is none of the plain columns |
| Transform.Attr0Column | internal/handlers/transform.go:239-268 | every attr0 column writes to its field, and its template's value reads back as the token |
| Transform.ShortIdExamples | internal/handlers/transform.go:182-185 | an id has one to four digits |
| Check.EmptyCellMessage | internal/handlers/check.go:75-101 | each empty-cell rule, column by column: a required field is missing exactly when the row has no Node ID; paged content needs a parent; a page needs a parent; a resource type is needed unless the row is a page; other columns pass |
| Check.NonEmpty | internal/handlers/check.go:106-108 | a token is kept exactly when it is non-empty, as often as it occurs; `NonEmptyAppend`: dropping empty tokens distributes over concatenation, so the order is kept |
| Check.NonEmptyAppend | internal/handlers/check.go:104-108 | dropping empty tokens distributes over concatenation, so the order is kept |
| Check.NonEmptySingle | internal/handlers/check.go:106-108 | a single token is kept exactly when it is non-empty |
| Check.Tokens | internal/handlers/check.go:104-108 | the tokens are the cell's " ; " pieces, trimmed, with the empty ones dropped and every other kept as often as it occurs; each is non-empty and trimmed |
| Check.TokensOfParts | internal/handlers/check.go:104-108 | the tokens of pieces in order are the tokens of each run of pieces in turn |
| Check.CheckUrl | internal/handlers/check.go:356-375 | a remembered URL is answered from memory; otherwise one HEAD request is logged; the answer is the oracle's |
| Check.NodeUrl | internal/handlers/check.go:119-125 | a node URL starts with the site URL and "/node/" |
| Check.NodeUrlInjective | internal/handlers/check.go:119-128 | distinct node ids are asked about at distinct URLs |
| Check.IntegerRule | internal/handlers/check.go:112-129 | a non-integer is reported; a PPI needs nothing more; a parent collection or node id passes exactly when its node URL answers 200, and the message names the id |
| Check.UrlRule | internal/handlers/check.go:131-135 | a URL is invalid exactly when it does not parse or has neither scheme nor host |
| Check.LeadingDigits | internal/handlers/check.go:60 | the length of the run of digits a string starts with |
| Check.DateRule | internal/handlers/check.go:143-147 | a date passes exactly when it matches the date pattern or is valid EDTF |
| Check.ParentIdRule | internal/handlers/check.go:154-162 | a parent id is unknown exactly when no earlier upload id had its value; equal to its own row's upload id exactly when refused for that; accepted otherwise |
| Check.ContributorRule | internal/handlers/check.go:163-185 | a short name is always reported; otherwise accepted exactly when it decoded, its extra fields are a person's, its vocabulary is person or corporate_body and its relator is known; the messages overwrite in source order: relator over vocabulary over extra fields over the decode error |
| StagingPaths.StagingPath | internal/handlers/transform.go:280-288 | a staging path has no backslash; one that starts with a slash is under /home/ or /mnt/islandora_staging/, and under the latter no second slash follows |
| StagingPaths.CheckStagedPath | internal/handlers/check.go:188-196 | a path over seven bytes under /home/ is skipped, and only that; a path of at most three bytes is checked as written; a longer checked path that starts with a slash is under /mnt/islandora_staging/, with no second slash after it |
| StagingPaths.RelativePathsAgree | internal/handlers/check.go:188-196 | for a path without a leading slash, the checker looks where the transform points |
| StagingPaths.AbsolutePathsDiverge | internal/handlers/check.go:193-195 | the checker places "/mnt/a" under the staging area, but the transform leaves it as "mnt/a" |
| StagingPaths.ShortPathsDiverge | internal/handlers/check.go:193 | the checker keeps the slash of "/ab", but the transform drops it |
| Check.CheckedPath | internal/handlers/check.go:189-198 | a path is checked exactly when its staging path is; it is the staging path's leftmost-cut pieces around the staging root joined with the data mount, and under the default mount it is that staging path |
| Check.CheckedPathMount | internal/handlers/check.go:193-197 | a staging path that opens with the staging root, and holds it nowhere else, is checked under the data mount with the rest kept |
| Check.FileRule | internal/handlers/check.go:188-201 | reported exactly when a staged path is checked and no file exists there |
| Check.TgnRule | internal/handlers/check.go:206-214 | a place seen before is passed without a lookup; otherwise it is looked up once and reported exactly when the lookup fails |
| Check.StatelessRule | internal/handlers/check.go:131-218 | the rules that keep no state, column by column: a DOI, Yes/No, title or date token fails exactly when it misses the DOI pattern, is not "Yes" or "No", is over 255 bytes, or neither matches the date pattern nor is valid EDTF; DOI, Yes/No, title and date failures carry their messages ("Invalid EDTF value" for a date); file columns are the file rule; a column without a rule passes; `StatelessRuleDispatch` names the URL, contributor and parent-id rules |
| Check.ValueRule | internal/handlers/check.go:143-218 | the token-only rules: a date token passes exactly when it matches the date pattern or is valid EDTF; a DOI exactly when it matches the DOI pattern; a Yes/No token exactly when it is "Yes" or "No"; a title exactly when it is at most 255 bytes; each failure carries its column's message, "Invalid EDTF value" for a date; file columns are the file rule; any other column passes |
| Check.StatelessRuleDispatch | internal/handlers/check.go:131-187 | the catalog URL column is `UrlRule`, the contributor column `ContributorRule` on the decoded cell, the parent id column `ParentIdRule` |
| Check.CheckToken | internal/handlers/check.go:110-219 | the integer columns go to `IntegerRule`, the TGN column to `TgnRule`, every column but those and Upload ID to `StatelessRule` with the state unchanged; only Upload ID tokens add upload ids (`UploadIdRule` gives their message), and only TGN tokens add TGN lookups; the memo stays sound |
| Check.CheckTokens | internal/handlers/check.go:104-220 | the upload ids added are the cell's tokens, for an Upload ID cell; a message once written is not cleared; `CheckTokensSnoc`: each failing token's message replaces the earlier one, so the last failing token's message is the cell's |
| Check.CheckTokensSnoc | internal/handlers/check.go:104-220 | one more token's message, if any, replaces the cell's message so far |
| Check.CellVerdict | internal/handlers/check.go:71-102 | an empty cell gets its empty-cell message and changes no state; a non-empty cell is its tokens checked in order; the upload ids grow by the cell's Upload ID tokens |
| Check.CheckCells | internal/handlers/check.go:71-221 | after the first cells of a row, the upload ids are the earlier ones plus those cells' tokens; the memo stays sound |
| Check.CheckRows | internal/handlers/check.go:70-222 | after the first rows, the upload ids are those rows' Upload ID tokens; the memo stays sound |
| Check.StateBefore | internal/handlers/check.go:70-72 | the memo is sound when the check reaches any cell |
| Check.ReadingOrder | internal/handlers/check.go:70-222 | each cell is checked in the state the cell before it leaves, the first of a row in the state the row before ends in, the first cell with nothing remembered |
| Check.FinalState | internal/handlers/check.go:70-222 | the memo is sound after the whole sheet |
| Check.Write | internal/handlers/check.go:78 | writing a message sets that key and no other |
| Check.CheckMyWork | internal/handlers/check.go:50-55 | a sheet with fewer than two records reports only "No rows in CSV to process" at "A" |
| Check.AddressesDiffer | internal/handlers/check.go:73-74 | the spreadsheet address gives distinct cells distinct report keys |
| Check.CellsKeepOthers | internal/handlers/check.go:71-74 | writing a row's cells leaves the other rows and the later cells alone |
| Check.CellsKeepEarlier | internal/handlers/check.go:71-74 | later cells of a row do not overwrite an earlier one |
| Check.RowsKeepLater | internal/handlers/check.go:70-74 | earlier rows write nothing in later rows |
| Check.RowsKeepEarlier | internal/handlers/check.go:70-74 | later rows do not overwrite an earlier row |
| Check.ReportOfAt | internal/handlers/check.go:70-222 | under any key that tells cells apart, the report holds at each cell's key exactly that cell's message, nothing when it has none, and no other key |
| Check.WriteCellsKeys | internal/handlers/check.go:71-78 | writing a row's cells adds only keys of cells with a message |
| Check.WriteRowsKeys | internal/handlers/check.go:70-78 | the rows written hold only keys of cells with a message |
| Check.ReportAtCell | internal/handlers/check.go:70-222 | `CheckMyWork` reports at each data cell's address exactly the message of that cell's verdict, and has no key but the addresses of cells with a message |
| Check.ReportOnlyCells | internal/handlers/check.go:70-222 | the report has no key but the addresses of data cells with a message |
| Check.UploadsBefore | internal/handlers/check.go:136-141 | when the check reaches a cell, the upload ids it knows are exactly the Upload ID tokens of the cells before it, in reading order |
| Check.UploadIdRule | internal/handlers/check.go:137-141 | an Upload ID token is a duplicate exactly when seen before, and is remembered either way |
| Check.ParentIdTokenRule | internal/handlers/check.go:154-162 | a parent id token changes no state and gets the parent-id rule's message |
| Check.DoiShapeSound | internal/handlers/check.go:60 | every DOI accepted is "10.", four to nine digits, a slash and allowed characters |
| Check.DoiShapeComplete | internal/handlers/check.go:60 | every string of that shape is accepted |
| Check.DoiShape | internal/handlers/check.go:60 | the DOI check accepts exactly that shape |
| Check.DigitRun | internal/handlers/check.go:60 | the digit run of digits followed by a non-digit is those digits |
| Check.YearMonthSound | internal/handlers/check.go:61 | every seven-character date accepted is a year and a month |
| Check.YearMonthComplete | internal/handlers/check.go:61 | every four digits, a dash and two digits are accepted |
| Check.YearMonthShape | internal/handlers/check.go:61 | a seven-character date passes exactly when it is year-month |
| Check.YearMonthDaySound | internal/handlers/check.go:61 | every ten-character date accepted is a year, a month and a day |
| Check.YearMonthDayComplete | internal/handlers/check.go:61 | every four digits, a dash, two digits, a dash and two digits are accepted |
| Check.YearMonthDayShape | internal/handlers/check.go:61 | a ten-character date passes exactly when it is year-month-day |
| Check.DateShape | internal/handlers/check.go:61 | the date pattern accepts exactly YYYY, YYYY-MM and YYYY-MM-DD |
| Check.YesNoAgrees | internal/handlers/check.go:202-205 | the checker accepts a Yes/No token exactly when the transform can encode it |
| Check.AcceptedContributorResolves | internal/handlers/check.go:163-185 | an accepted contributor:<br>- has four name parts;<br>- has a known relator;<br>- has vocabulary person or corporate_body;<br>- is never rejected by the transform as poorly formatted;<br>- if resolved, starts with its relator and vocabulary. |

## Left out

- Authentication (check.go:275-336): the shared secret and Google JWT validation are an access gate, not part of the checking.
- HTTP, CSV, JSON and ZIP framing. The handlers' request and response plumbing is left out: method checks, body decoding, `TransformCsv`'s file writing and zipping, and the `/tmp` file names. The checker receives the decoded grid and the transform the parsed records. CSV text parsing itself is not modelled, except that the reader stops at the first record whose width differs from the header's.
- Go map iteration order: `TransformCsv` writes its header row in map order, which Go randomises. `OutputRecord` takes the order as a parameter.
- Reflection over the record type: the struct's fields and tags are an input (`TransformEnv.fields`), not the go-islandora `SheetsCsv` type, which is not part of this model.
- Environment variables (`ISLE_SITE_URL`, `FABRICATOR_DATA_MOUNT`, the term service URL and credentials) are fields of the environment records.
- The EDTF parser, `url.ParseRequestURI`, `json.Unmarshal` of a contributor, `os.Stat`, and HTTP HEAD/GET are oracles. The model states what each rule does with their answers, not how they compute them. `json.Unmarshal`'s partly filled record on a type error is covered by the oracle returning the record with `ok = false`.
- `sync.Map` concurrency: the URL cache is used from one goroutine, so it is a plain map.
- Regular expressions: the DOI, date and id patterns are written as predicates, and `DoiShape`, `DateShape` and `IsShortId` relate them to the patterns' shapes.
- GoStrings.ToLower: lower-cases ASCII letters only; Go's Unicode case mapping is not modelled.
- JsonText.UnicodeEscapeRead: covers characters of the Basic Multilingual Plane that are not surrogates; `encoding/json` escapes nothing above it.
- Tgn.GetLocationFromTGN: the parent walk carries a depth bound (`Gazetteer.maxDepth`), while Go would recurse without end on a cyclic `part_of` chain. `AncestryFuelMonotone` shows the bound only cuts a walk short.
- Check.CheckMyWork: requires every data row to be no longer than the header, and to hold every column the rules may look up (`WellShaped`). The first half matches Go, which indexes `header[colIndex]` (check.go:73) and panics on a longer row; a panic is not modelled. The second half is stronger than Go needs: `ColumnValue` is only evaluated for an empty required, parent or resource cell (check.go:77, 81-96) and for a known parent id (check.go:159), so a short row such as `["x"]` under the header `["Title", "Node ID"]` gets an empty report from Go but is outside the model. Asking for it once per row keeps the lookups total without tying each rule to the branch that reaches it.
- Logging (`slog`) and error texts of the transform's failures are left out; failures are typed (`TransformError`).
- Where the repository's tests disagree with the code, the model follows the code:
  - check_test.go:98-106 expects "Missing value" for an empty Resource Type. The code writes "Must have a resource type".
  - check_test.go:138-146 expects "Missing source file", which the code never writes.
  - check_test.go:303-321 expect shorter parent messages than the code writes.
  - transform_test.go:59-77 expects a five-digit upload id to pass. The code's id pattern allows at most four digits (`ShortIdExamples`).
  - transform_test.go:195 expects a resolved contributor without its vocabulary. The code writes `relator:vocab:tid` (`ResolvedShape`).
