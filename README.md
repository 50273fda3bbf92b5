# Visibility filter and two-row-header CSV reader, in Dafny

This project models the two routines of `scripts/test_filters.cjs`. The first is
`readCsv`, which reads an export whose first line is a title row and whose second
line is the column header. The second is `applyVisibilityFilter`, which removes the
records whose disclosure-status field (`公開の有無`) is `"closed"`.

- `Records` holds the values. A field value is a string or the absent-value
  marker (`Value = Str(s) | Null`). A record is a `map<string, Value>`, and a key
  missing from the map is a field the record does not have as its own property.
  This keeps three cases apart: field absent, field null and field empty.
- `Seqs` models `Array.prototype.filter` once, generically. It proves that the
  result is the order-preserving subsequence at the kept positions, gives each
  value's multiplicity, and proves membership, the identity condition and
  idempotence.
- `TextLines` models `split('\n')`, `join('\n')` and `trim()`. `trim()` uses the
  full ECMAScript whitespace and line-terminator set. The module proves both
  split/join round trips and when a trimmed line is empty.
- `CsvReader` models the pure preprocessing (`NonBlankLines`, `ParserInput`) and
  the in-place rewrite of `"null"`/`"NULL"` to `null`. The rewrite is a method
  with a loop over the keys of a row (`NormalizeRow`) inside a loop that rewrites
  an array of rows in place (`NormalizeNulls`). `ReadCsv` is the whole routine.
  It takes the file contents as a string and the CSV parser as a
  function-typed parameter.
- `VisibilityFilter` models `applyVisibilityFilter` and its properties.

## Model

| member | source | states |
|---|---|---|
| `Seqs.Filter` | scripts/test_filters.cjs:38-43 | the filtered array is no longer than the input, every element in it passes the callback, and every element comes from the input |
| `Seqs.KeptIndicesFrom` | scripts/test_filters.cjs:38-43 | reference definition: the strictly increasing list of exactly those positions whose element passes the callback |
| `Seqs.FilterIsSubsequence` | scripts/test_filters.cjs:38-43 | the filter's result is the input read at exactly the kept positions, in increasing order, with each element copied unchanged |
| `Seqs.FilterMultiplicity` | scripts/test_filters.cjs:38-43 | a value occurs in the result as often as in the input if it passes the callback, otherwise not at all |
| `Seqs.FilterMembership` | scripts/test_filters.cjs:38-43 | a value is in the result if and only if it is in the input and passes the callback |
| `Seqs.FilterIdentity` | scripts/test_filters.cjs:38-43 | the result equals the input if and only if every input element passes the callback |
| `Seqs.FilterIdempotent` | scripts/test_filters.cjs:38-43 | filtering the result again with the same callback changes nothing |
| `TextLines.Split` | scripts/test_filters.cjs:10 | `split('\n')` yields at least one piece, and no piece contains a line feed |
| `TextLines.Join` | scripts/test_filters.cjs:16 | `join('\n')` of no pieces is the empty string; otherwise the result starts with the first piece and is one character per separator longer than the pieces together |
| `TextLines.JoinSplit` | scripts/test_filters.cjs:10 | joining the pieces of a split with line feeds gives back the original text |
| `TextLines.SplitJoin` | scripts/test_filters.cjs:16 | splitting a line-feed join of one or more line-feed-free pieces gives back the pieces |
| `TextLines.SplitAtFirstNewline` | scripts/test_filters.cjs:17 | the text `header + "\n" + data` splits into the header followed by the pieces of `data` |
| `TextLines.TrimStart` | scripts/test_filters.cjs:10 | the result is a suffix of the input, only whitespace was dropped, and it does not start with whitespace |
| `TextLines.TrimEnd` | scripts/test_filters.cjs:10 | the result is a prefix of the input, only whitespace was dropped, and it does not end with whitespace |
| `TextLines.Trim` | scripts/test_filters.cjs:10 | `line.trim()` is empty if and only if every character of the line is in the whitespace set |
| `CsvReader.IsNonBlank` | scripts/test_filters.cjs:10 | the callback `line.trim() !== ''` holds if and only if the line has a character outside the whitespace set |
| `CsvReader.NonBlankLines` | scripts/test_filters.cjs:10 | every remaining line is not blank after trimming |
| `CsvReader.NonBlankLinesSingleLine` | scripts/test_filters.cjs:10 | no remaining line contains a line feed |
| `CsvReader.NonBlankLinesHaveText` | scripts/test_filters.cjs:10 | every remaining line holds a character that is not whitespace |
| `CsvReader.ParserInput` | scripts/test_filters.cjs:10-17 | no parser input exists if and only if fewer than two non-blank lines remain |
| `CsvReader.HeaderAndDataLines` | scripts/test_filters.cjs:15-17 | the header, a line feed and the line-feed join of the data lines split back into the header and the data lines, or the header and one empty line when there is no data line |
| `CsvReader.ParserInputLines` | scripts/test_filters.cjs:15-17 | the parser's input splits into exactly the non-blank lines from the second one on (with one empty line after the header when only two remain); the title line is discarded |
| `CsvReader.ParserInputIgnoresTitle` | scripts/test_filters.cjs:15-16 | two contents whose non-blank lines agree from the second one on give the parser the same text, whatever their first line |
| `CsvReader.NormalizeValue` | scripts/test_filters.cjs:25-26 | the value after the test-and-assign is never `"null"` or `"NULL"`: such a literal becomes `null`, any other value is kept |
| `CsvReader.NormalizeRecord` | scripts/test_filters.cjs:24-28 | the rewritten row has the same keys, no value equal to `"null"` or `"NULL"`, `null` wherever such a literal stood, and every other value unchanged |
| `CsvReader.NormalizeRow` | scripts/test_filters.cjs:24-28 | the key-by-key loop over one row produces exactly the rewritten row |
| `CsvReader.NormalizeNulls` | scripts/test_filters.cjs:23-29 | after the pass over the array, each row has been replaced in place by its rewritten form |
| `CsvReader.ReadCsv` | scripts/test_filters.cjs:8-31 | data is always present. With fewer than two non-blank lines the result is no rows and the single error "CSV has less than 2 lines". Otherwise it is the parser's rows for the header-plus-data text, with null literals rewritten, and the parser's errors unchanged. No returned value is `"null"` or `"NULL"` |
| `VisibilityFilter.IsClosed` | scripts/test_filters.cjs:39 | a row without the field as its own property is never closed; the comparison is exact, so `"Closed"` or `" closed"` is not closed |
| `VisibilityFilter.IsVisible` | scripts/test_filters.cjs:38-43 | the callback keeps every row that lacks the field and every row whose field is `null` |
| `VisibilityFilter.FilterRows` | scripts/test_filters.cjs:38-43 | the `filter` call returns no more rows than it was given, all from the input and none closed |
| `VisibilityFilter.ApplyVisibilityFilter` | scripts/test_filters.cjs:34-44 | a missing argument or missing `data` gives `[]`. It throws the TypeError "item.hasOwnProperty is not a function" if and only if some row has its own `hasOwnProperty` key. Otherwise it returns the filtered rows, none of them closed |
| `VisibilityFilter.KeepIff` | scripts/test_filters.cjs:38-43 | a row is in the output if and only if it is in the input and lacks the field or holds a value other than the exact string "closed" |
| `VisibilityFilter.FilterKeepsOrder` | scripts/test_filters.cjs:38-43 | the output is the input at exactly the positions of the non-closed rows, in order, rows unchanged |
| `VisibilityFilter.FilterCounts` | scripts/test_filters.cjs:38-43 | a row occurs in the output as often as in the input unless it is closed, then not at all |
| `VisibilityFilter.FilterIdempotent` | scripts/test_filters.cjs:91-95 | no closed row survives, so filtering the output again changes nothing |
| `VisibilityFilter.FilterIdentityIff` | scripts/test_filters.cjs:38-43 | the output equals the input if and only if no input row is closed |
| `VisibilityFilter.MissingColumnKeepsAll` | scripts/test_filters.cjs:139-145 | when no row has the field, the output equals the input and has its length |
| `VisibilityFilter.AwardsFixture` | scripts/test_filters.cjs:84-126 | with rows 2 and 6 "closed" and the others "disclosed", "disclosed", "yes", "" and a non-closed seventh, the output is rows 1, 3, 4, 5, 7, each with its value unchanged |

## Left out

- The CSV parser (`Papa.parse` with `header: true` and `skipEmptyLines: true`, lines 17-20) is third-party code that is not part of this model. `ReadCsv` takes it as a function parameter. Nothing is assumed about its tokenising, quoting, empty-line skipping or errors, and the messages of its errors are passed through.
- CsvReader.ReadCsv: the parser's `meta` object and the `type`, `code` and `row` fields of its error objects are dropped. Only the rows and each error's message are carried through. Nothing in the routines reads them.
- Rows are maps, so a header cell named `__proto__` would be an ordinary key here. In JavaScript, assigning a string to that name creates no own property.
- Reading the file (`fs.readFileSync`, `path.join`) is I/O. `ReadCsv` takes the file contents as a string.
- The test harness is left out: the pass/fail counters, `assertEqual` (comparison through `JSON.stringify`), `assertCondition`, the console output, the summary and `process.exit`. Two fixture assertions are restated as lemmas (`AwardsFixture`, `MissingColumnKeepsAll`). The fixture files themselves are not part of this model, and the seventh award's value is not known, so it is a parameter.
- Records are unordered maps. JavaScript objects keep key insertion order, which matters only to `JSON.stringify` in the harness.
- Field values are strings or `null` only. The parser's `__parsed_extra` arrays for surplus columns are not modelled. The rewrite and the filter would leave such a value as it is.
- `!csvData` is true for every falsy JavaScript value. The model represents all of them as `None`, and a falsy `data` property as `data == None`.
- `NormalizeNulls` rewrites an array of map values. The source mutates the row objects that `parsedData.data` shares, so aliasing of those objects is not represented. `for...in` also visits inherited enumerable keys. Parsed rows have none, so the model visits a row's own keys in an unspecified order. The rewrite of one key does not depend on any other key, so order does not matter.
- The model splits on line feeds only, as the source does. A carriage return at the end of a non-blank line therefore stays in the line handed to the parser. A line made only of `"\r"` is blank, because `trim()` removes it.
