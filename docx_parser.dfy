/**
 * Word-document extraction: the stripped text of every non-blank paragraph,
 * then one line per table row holding its non-blank cells joined by " | ",
 * all joined by newlines. The document library is modelled by what it
 * exposes: the paragraph texts, and for each table the cell texts of each row.
 */
module DocxParser {
  import opened Outcomes
  import opened PyStrings
  import opened SeqFacts

  /** The cell texts of one table row, in order. */
  type Row = seq<string>

  /** The rows of one table, in order. */
  type Table = seq<Row>

  /** What `docx.Document(path)` gives: a document, or an exception while opening or reading it. */
  datatype DocxSource =
    | DocxFailed(reason: string)
    | Document(paragraphs: seq<string>, tables: seq<Table>)

  const ROW_SEPARATOR := " | "

  /**
   * The stripped texts of the non-blank entries among the first `n` of `xs`,
   * in order (used for paragraphs and for the cells of a row).
   */
  function StrippedNonBlank(xs: seq<string>, n: nat): seq<string>
    requires n <= |xs|
  {
    if n == 0 then []
    else
      var last := Strip(xs[n - 1]);
      StrippedNonBlank(xs, n - 1) + (if last != [] then [last] else [])
  }

  /** The text one table row contributes: its non-blank cells, stripped, joined by " | ". */
  function RowText(cells: Row): string {
    Join(ROW_SEPARATOR, StrippedNonBlank(cells, |cells|))
  }

  /** The parts the first `n` rows contribute, in order; a row whose text is empty is dropped. */
  function RowParts(rows: seq<Row>, n: nat): seq<string>
    requires n <= |rows|
  {
    if n == 0 then []
    else
      var text := RowText(rows[n - 1]);
      RowParts(rows, n - 1) + (if text != [] then [text] else [])
  }

  /** The parts the first `n` tables contribute, table by table. */
  function TableParts(tables: seq<Table>, n: nat): seq<string>
    requires n <= |tables|
  {
    if n == 0 then [] else TableParts(tables, n - 1) + RowParts(tables[n - 1], |tables[n - 1]|)
  }

  /** The extractor's `text_parts`: all paragraph parts, then all table-row parts. */
  function DocxParts(paragraphs: seq<string>, tables: seq<Table>): seq<string> {
    StrippedNonBlank(paragraphs, |paragraphs|) + TableParts(tables, |tables|)
  }

  /** The extractor's result. */
  function DocxText(path: string, src: DocxSource): Result<string> {
    match src
    case DocxFailed(_) => Err(Exc(RuntimeError, "Failed to parse DOCX: " + path))
    case Document(paragraphs, tables) =>
      var parts := DocxParts(paragraphs, tables);
      Ok(if parts == [] then "" else Join("\n", parts))
  }

  /** `extract_text_from_docx(path)`. */
  method ExtractTextFromDocx(path: string, src: DocxSource) returns (r: Result<string>)
    ensures r == DocxText(path, src)
  {
    match src {
      case DocxFailed(_) =>
        return Err(Exc(RuntimeError, "Failed to parse DOCX: " + path));
      case Document(paragraphs, tables) =>
        var textParts := ParagraphTexts(paragraphs);
        textParts := TableRowTexts(textParts, tables);
        if textParts == [] {
          return Ok("");
        }
        return Ok(Join("\n", textParts));
    }
  }

  /** The paragraph loop of the extractor: the stripped text of each non-blank paragraph, in order. */
  method ParagraphTexts(paragraphs: seq<string>) returns (textParts: seq<string>)
    ensures textParts == StrippedNonBlank(paragraphs, |paragraphs|)
  {
    textParts := [];
    for i := 0 to |paragraphs|
      invariant textParts == StrippedNonBlank(paragraphs, i)
    {
      var stripped := Strip(paragraphs[i]);
      if stripped != [] {
        textParts := textParts + [stripped];
      }
    }
  }

  /** The table loop of the extractor: append the row texts of each table in turn. */
  method TableRowTexts(textParts: seq<string>, tables: seq<Table>) returns (parts: seq<string>)
    ensures parts == textParts + TableParts(tables, |tables|)
  {
    parts := textParts;
    for t := 0 to |tables|
      invariant parts == textParts + TableParts(tables, t)
    {
      parts := AppendRowTexts(parts, tables[t]);
      ConcatAssoc(textParts, TableParts(tables, t), RowParts(tables[t], |tables[t]|));
    }
  }

  /** The row loop of the extractor: append the text of each row of one table that has any. */
  method AppendRowTexts(textParts: seq<string>, rows: seq<Row>) returns (parts: seq<string>)
    ensures parts == textParts + RowParts(rows, |rows|)
  {
    parts := textParts;
    for k := 0 to |rows|
      invariant parts == textParts + RowParts(rows, k)
    {
      var rowText := RowText(rows[k]);
      if rowText != [] {
        parts := parts + [rowText];
      }
    }
  }

  /** Every surviving entry is non-empty and has no whitespace at either end. */
  lemma {:induction false} StrippedWellFormed(xs: seq<string>, n: nat)
    requires n <= |xs|
    ensures forall k | 0 <= k < |StrippedNonBlank(xs, n)| :: StrippedNonBlank(xs, n)[k] != [] && Trimmed(StrippedNonBlank(xs, n)[k])
  {
    if n > 0 {
      StrippedWellFormed(xs, n - 1);
    }
  }

  /** No entry survives exactly when every one of the first `n` entries is blank. */
  lemma {:induction false} StrippedEmptyIff(xs: seq<string>, n: nat)
    requires n <= |xs|
    ensures StrippedNonBlank(xs, n) == [] <==> forall k | 0 <= k < n :: IsBlank(xs[k])
  {
    if n > 0 {
      StrippedEmptyIff(xs, n - 1);
      StripEmptyIff(xs[n - 1]);
    }
  }

  /** A row is dropped exactly when none of its cells has text; otherwise its text has no whitespace at either end. */
  lemma RowTextShape(cells: Row)
    ensures RowText(cells) == [] <==> forall k | 0 <= k < |cells| :: IsBlank(cells[k])
    ensures Trimmed(RowText(cells))
  {
    StrippedWellFormed(cells, |cells|);
    JoinTrimmed(ROW_SEPARATOR, StrippedNonBlank(cells, |cells|));
    StrippedEmptyIff(cells, |cells|);
  }

  /** Every row part is non-empty and has no whitespace at either end. */
  lemma {:induction false} RowPartsWellFormed(rows: seq<Row>, n: nat)
    requires n <= |rows|
    ensures forall k | 0 <= k < |RowParts(rows, n)| :: RowParts(rows, n)[k] != [] && Trimmed(RowParts(rows, n)[k])
  {
    if n > 0 {
      RowPartsWellFormed(rows, n - 1);
      RowTextShape(rows[n - 1]);
    }
  }

  /** Every table part is non-empty and has no whitespace at either end. */
  lemma {:induction false} TablePartsWellFormed(tables: seq<Table>, n: nat)
    requires n <= |tables|
    ensures forall k | 0 <= k < |TableParts(tables, n)| :: TableParts(tables, n)[k] != [] && Trimmed(TableParts(tables, n)[k])
  {
    if n > 0 {
      TablePartsWellFormed(tables, n - 1);
      RowPartsWellFormed(tables[n - 1], |tables[n - 1]|);
    }
  }

  /**
   * Every part of the output is non-empty and stripped, so a successful
   * result is either empty or has no whitespace at either end.
   */
  lemma DocxTextTrimmed(path: string, src: DocxSource)
    ensures src.Document? ==> forall k | 0 <= k < |DocxParts(src.paragraphs, src.tables)| ::
      DocxParts(src.paragraphs, src.tables)[k] != [] && Trimmed(DocxParts(src.paragraphs, src.tables)[k])
    ensures DocxText(path, src).Ok? ==> Trimmed(DocxText(path, src).value)
  {
    if src.Document? {
      StrippedWellFormed(src.paragraphs, |src.paragraphs|);
      TablePartsWellFormed(src.tables, |src.tables|);
      JoinTrimmed("\n", DocxParts(src.paragraphs, src.tables));
    }
  }

  /** Every cell of every row of the first `n` rows is blank. */
  ghost predicate RowsBlank(rows: seq<Row>, n: nat)
    requires n <= |rows|
  {
    forall k, c | 0 <= k < n && 0 <= c < |rows[k]| :: IsBlank(rows[k][c])
  }

  /** Every cell of every table among the first `n` is blank. */
  ghost predicate TablesBlank(tables: seq<Table>, n: nat)
    requires n <= |tables|
  {
    forall t | 0 <= t < n :: RowsBlank(tables[t], |tables[t]|)
  }

  lemma {:induction false} RowPartsEmptyIff(rows: seq<Row>, n: nat)
    requires n <= |rows|
    ensures RowParts(rows, n) == [] <==> RowsBlank(rows, n)
  {
    if n > 0 {
      RowPartsEmptyIff(rows, n - 1);
      RowTextShape(rows[n - 1]);
    }
  }

  lemma {:induction false} TablePartsEmptyIff(tables: seq<Table>, n: nat)
    requires n <= |tables|
    ensures TableParts(tables, n) == [] <==> TablesBlank(tables, n)
  {
    if n > 0 {
      var last := tables[n - 1];
      TablePartsEmptyIff(tables, n - 1);
      RowPartsEmptyIff(last, |last|);
      assert TableParts(tables, n) == TableParts(tables, n - 1) + RowParts(last, |last|);
      assert TablesBlank(tables, n) <==> TablesBlank(tables, n - 1) && RowsBlank(last, |last|);
    }
  }

  /** The text is empty exactly when every paragraph and every cell of every table is blank. */
  lemma DocxTextEmptyIff(path: string, paragraphs: seq<string>, tables: seq<Table>)
    ensures DocxText(path, Document(paragraphs, tables)) == Ok("") <==>
      (forall k | 0 <= k < |paragraphs| :: IsBlank(paragraphs[k])) && TablesBlank(tables, |tables|)
  {
    DocxTextTrimmed(path, Document(paragraphs, tables));
    JoinTrimmed("\n", DocxParts(paragraphs, tables));
    StrippedEmptyIff(paragraphs, |paragraphs|);
    TablePartsEmptyIff(tables, |tables|);
  }
}
