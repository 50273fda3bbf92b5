/** `readCsv`: the two-row-header convention and the null normalisation around
    an external CSV parser. Reading the file is left to the caller, which
    passes its contents; the parser (Papa.parse with `header: true` and
    `skipEmptyLines: true`) is a parameter whose behaviour is not modelled. */
module CsvReader {
  import opened Records
  import Seqs
  import opened TextLines

  const LessThanTwoLines: string := "CSV has less than 2 lines"

  /** The filter predicate of the line pass: `line.trim() !== ''`, which holds
      exactly when the line has a character that is not whitespace. */
  predicate IsNonBlank(line: string)
    ensures IsNonBlank(line) <==> exists i :: 0 <= i < |line| && !IsJsWhitespace(line[i])
  {
    Trim(line) != ""
  }

  /** The lines of the contents, split on line feeds, without the blank ones. */
  function NonBlankLines(csvContent: string): (lines: seq<string>)
    ensures forall i :: 0 <= i < |lines| ==> IsNonBlank(lines[i])
  {
    Seqs.Filter(Split(csvContent), IsNonBlank)
  }

  /** No remaining line contains a line feed. */
  lemma NonBlankLinesSingleLine(csvContent: string)
    ensures forall i :: 0 <= i < |NonBlankLines(csvContent)| ==> '\n' !in NonBlankLines(csvContent)[i]
  {
    var parts, lines := Split(csvContent), NonBlankLines(csvContent);
    Seqs.FilterIsSubsequence(parts, IsNonBlank);
    var idx := Seqs.KeptIndices(parts, IsNonBlank);
    forall i | 0 <= i < |lines|
      ensures '\n' !in lines[i]
    {
      assert lines[i] == parts[idx[i]];
    }
  }

  /** Every line that survives the blank-line pass has a character that is not
      whitespace. */
  lemma NonBlankLinesHaveText(csvContent: string, i: nat)
    requires i < |NonBlankLines(csvContent)|
    ensures exists j ::
      0 <= j < |NonBlankLines(csvContent)[i]| && !IsJsWhitespace(NonBlankLines(csvContent)[i][j])
  {
    var line := NonBlankLines(csvContent)[i];
    assert Trim(line) != "";
  }

  /** The text handed to the parser: the second non-blank line as the header,
      a line feed, then the third and later non-blank lines joined by line
      feeds. `None` when fewer than two non-blank lines remain. */
  function ParserInput(csvContent: string): (text: Option<string>)
    ensures text.None? <==> |NonBlankLines(csvContent)| < 2
  {
    var lines := NonBlankLines(csvContent);
    if |lines| < 2 then None
    else
      var header := lines[1];
      var data := Join(lines[2..]);
      Some(header + "\n" + data)
  }

  /** The header line, a line feed and the data lines joined by line feeds
      split back into the header and the data lines (or one empty line when
      there are none). */
  lemma {:induction false} HeaderAndDataLines(lines: seq<string>)
    requires |lines| >= 2
    requires forall i :: 0 <= i < |lines| ==> '\n' !in lines[i]
    ensures Split(lines[1] + "\n" + Join(lines[2..]))
      == if |lines| == 2 then [lines[1], ""] else lines[1..]
  {
    SplitAtFirstNewline(lines[1], Join(lines[2..]));
    if |lines| > 2 {
      SplitJoin(lines[2..]);
      assert [lines[1]] + lines[2..] == lines[1..];
    }
  }

  /** The lines of the parser's input are exactly the non-blank lines after the
      first; with only two non-blank lines the header is followed by one empty
      line. The first non-blank line (the title row) is not one of them. */
  lemma {:induction false} ParserInputLines(csvContent: string)
    requires |NonBlankLines(csvContent)| >= 2
    ensures var lines := NonBlankLines(csvContent);
      Split(ParserInput(csvContent).value)
        == if |lines| == 2 then [lines[1], ""] else lines[1..]
  {
    var lines := NonBlankLines(csvContent);
    NonBlankLinesSingleLine(csvContent);
    assert ParserInput(csvContent).value == lines[1] + "\n" + Join(lines[2..]);
    HeaderAndDataLines(lines);
  }

  /** The parser's input does not depend on the title row: two contents whose
      non-blank lines agree from the second one on give the same text. */
  lemma {:induction false} ParserInputIgnoresTitle(content1: string, content2: string)
    requires |NonBlankLines(content1)| >= 2 && |NonBlankLines(content2)| >= 1
    requires NonBlankLines(content1)[1..] == NonBlankLines(content2)[1..]
    ensures ParserInput(content1) == ParserInput(content2)
  {
    var l1, l2 := NonBlankLines(content1), NonBlankLines(content2);
    assert l1[1..][0] == l2[1..][0];
    assert l1[2..] == l1[1..][1..];
    assert l2[2..] == l2[1..][1..];
  }

  predicate IsNullLiteral(v: Value)
  {
    v == Str("null") || v == Str("NULL")
  }

  /** The value a field holds after the rewrite: never a null literal, and
      unchanged unless it was one. */
  function NormalizeValue(v: Value): (r: Value)
    ensures !IsNullLiteral(r)
    ensures IsNullLiteral(v) ==> r == Null
    ensures !IsNullLiteral(v) ==> r == v
  {
    if IsNullLiteral(v) then Null else v
  }

  /** A row after the rewrite: the same keys; `"null"` and `"NULL"` become the
      absent-value marker, every other value is kept. */
  function NormalizeRecord(row: Record): (r: Record)
    ensures r.Keys == row.Keys
    ensures forall k :: k in r ==> !IsNullLiteral(r[k])
    ensures forall k :: k in row && IsNullLiteral(row[k]) ==> r[k] == Null
    ensures forall k :: k in row && !IsNullLiteral(row[k]) ==> r[k] == row[k]
  {
    map k | k in row :: NormalizeValue(row[k])
  }

  function NormalizedRows(rows: seq<Record>): seq<Record>
  {
    seq(|rows|, i requires 0 <= i < |rows| => NormalizeRecord(rows[i]))
  }

  /** The inner `for (const key in row)` loop: rewrite the null literals of one
      row, key by key. */
  method NormalizeRow(row: Record) returns (r: Record)
    ensures r == NormalizeRecord(row)
  {
    r := row;
    var pending := row.Keys;
    while pending != {}
      invariant pending <= row.Keys && r.Keys == row.Keys
      invariant forall k :: k in row && k !in pending ==> r[k] == NormalizeValue(row[k])
      invariant forall k :: k in pending ==> r[k] == row[k]
      decreases pending
    {
      var key :| key in pending;
      if r[key] == Str("null") || r[key] == Str("NULL") {
        r := r[key := Null];
      }
      pending := pending - {key};
    }
  }

  /** The `forEach` over the parsed rows: each row is rewritten in place. */
  method NormalizeNulls(rows: array<Record>)
    modifies rows
    ensures rows[..] == NormalizedRows(old(rows[..]))
  {
    var i := 0;
    while i < rows.Length
      invariant 0 <= i <= rows.Length
      invariant forall j :: 0 <= j < i ==> rows[j] == NormalizeRecord(old(rows[j]))
      invariant forall j :: i <= j < rows.Length ==> rows[j] == old(rows[j])
    {
      var row := NormalizeRow(rows[i]);
      rows[i] := row;
      i := i + 1;
    }
  }

  /** `readCsv` on the contents of a file, with `parse` standing for the CSV
      parser. Fewer than two non-blank lines give no rows and the single error
      "CSV has less than 2 lines"; otherwise the parser's rows come back with
      every null literal rewritten and the parser's errors unchanged. */
  method ReadCsv(csvContent: string, parse: string -> ParseResult) returns (result: CsvData)
    ensures result.data.Some?
    ensures ParserInput(csvContent).None? ==>
      result == CsvData(Some([]), [ParseError(LessThanTwoLines)])
    ensures ParserInput(csvContent).Some? ==>
      var parsed := parse(ParserInput(csvContent).value);
      result == CsvData(Some(NormalizedRows(parsed.data)), parsed.errors)
    ensures forall i, k :: 0 <= i < |result.data.value| && k in result.data.value[i] ==>
      !IsNullLiteral(result.data.value[i][k])
  {
    var text := ParserInput(csvContent);
    if text.None? {
      return CsvData(Some([]), [ParseError(LessThanTwoLines)]);
    }
    var parsed := parse(text.value);
    var rows := new Record[|parsed.data|](i requires 0 <= i < |parsed.data| => parsed.data[i]);
    assert rows[..] == parsed.data;
    NormalizeNulls(rows);
    result := CsvData(Some(rows[..]), parsed.errors);
  }
}
