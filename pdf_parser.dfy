/**
 * PDF extraction: every page whose text is not blank contributes a header
 * naming its 1-based page number followed by its text; the accumulated text
 * is stripped, or is the empty string when it is blank. The PDF library is
 * modelled by the text it extracts from each page.
 */
module PdfParser {
  import opened Outcomes
  import opened PyStrings
  import opened SeqFacts

  /** What `pymupdf.open(path)` and `page.get_text("text")` give: the page texts, or an exception. */
  datatype PdfSource =
    | PdfFailed(reason: string)
    | Pdf(pages: seq<string>)

  /** The header written before page `n`. */
  function PageHeader(n: nat): string {
    "\n--- Page " + NatToString(n) + " ---\n"
  }

  /** What page number `n` adds to the accumulated text: nothing when the page is blank. */
  function PageContribution(n: nat, page: string): string {
    if !IsBlank(page) then PageHeader(n) + page else ""
  }

  /** The accumulated text after the first `n` pages. */
  function PagesText(pages: seq<string>, n: nat): string
    requires n <= |pages|
  {
    if n == 0 then "" else PagesText(pages, n - 1) + PageContribution(n, pages[n - 1])
  }

  /** The extractor's result. */
  function PdfText(path: string, src: PdfSource): Result<string> {
    match src
    case PdfFailed(_) => Err(Exc(RuntimeError, "Failed to parse PDF: " + path))
    case Pdf(pages) =>
      var text := PagesText(pages, |pages|);
      Ok(if Strip(text) == [] then "" else Strip(text))
  }

  /** `extract_text_from_pdf(path)`. */
  method ExtractTextFromPdf(path: string, src: PdfSource) returns (r: Result<string>)
    ensures r == PdfText(path, src)
  {
    if src.PdfFailed? {
      return Err(Exc(RuntimeError, "Failed to parse PDF: " + path));
    }
    var pages := src.pages;
    var text := "";
    for i := 0 to |pages|
      invariant text == PagesText(pages, i)
    {
      var pageNum := i + 1;
      var pageText := pages[i];
      StripEmptyIff(pageText);
      if Strip(pageText) != [] {
        ConcatAssoc(text, PageHeader(pageNum), pageText);
        text := text + PageHeader(pageNum);
        text := text + pageText;
      }
    }
    if Strip(text) == [] {
      return Ok("");
    }
    return Ok(Strip(text));
  }

  /** Text accumulated after fewer pages is a prefix of the text accumulated after more. */
  lemma {:induction false} PagesTextPrefix(pages: seq<string>, m: nat, n: nat)
    requires m <= n <= |pages|
    ensures PagesText(pages, m) <= PagesText(pages, n)
    decreases n
  {
    if m < n {
      PagesTextPrefix(pages, m, n - 1);
      var before, c := PagesText(pages, n - 1), PageContribution(n, pages[n - 1]);
      assert PagesText(pages, n) == before + c;
      PrefixExtends(PagesText(pages, m), before, c);
    }
  }

  /**
   * Page `i` (1-based) contributes its header and text, or nothing when it is
   * blank, at the place where the text of the pages before it ends.
   */
  lemma PageInPlace(pages: seq<string>, i: nat)
    requires 1 <= i <= |pages|
    ensures var text, at, c := PagesText(pages, |pages|), |PagesText(pages, i - 1)|, PageContribution(i, pages[i - 1]);
      at + |c| <= |text| && text[at..at + |c|] == c
  {
    var text, before, c := PagesText(pages, |pages|), PagesText(pages, i - 1), PageContribution(i, pages[i - 1]);
    var upto := PagesText(pages, i);
    assert upto == before + c;
    PagesTextPrefix(pages, i, |pages|);
    assert text[..|upto|] == upto;
    assert text[|before|..|before| + |c|] == upto[|before|..];
  }

  /** A concatenation is blank exactly when both of its parts are. */
  lemma BlankConcat(a: string, b: string)
    ensures IsBlank(a + b) <==> IsBlank(a) && IsBlank(b)
  {
    if IsBlank(a + b) {
      forall k | 0 <= k < |a| ensures IsSpace(a[k]) {
        assert a[k] == (a + b)[k];
      }
      forall k | 0 <= k < |b| ensures IsSpace(b[k]) {
        assert b[k] == (a + b)[|a| + k];
      }
    }
  }

  /** A page adds whitespace only exactly when it is blank, and then it adds nothing. */
  lemma ContributionBlankIff(n: nat, page: string)
    ensures IsBlank(PageContribution(n, page)) <==> IsBlank(page)
  {
    if !IsBlank(page) {
      var header := PageHeader(n);
      assert header[1] == '-';
      assert (header + page)[1] == header[1];
    }
  }

  /** The accumulated text is blank exactly when every page is blank. */
  lemma {:induction false} PagesTextBlankIff(pages: seq<string>, n: nat)
    requires n <= |pages|
    ensures IsBlank(PagesText(pages, n)) <==> forall k | 0 <= k < n :: IsBlank(pages[k])
  {
    if n > 0 {
      var before, c := PagesText(pages, n - 1), PageContribution(n, pages[n - 1]);
      assert PagesText(pages, n) == before + c;
      PagesTextBlankIff(pages, n - 1);
      ContributionBlankIff(n, pages[n - 1]);
      BlankConcat(before, c);
    }
  }

  /**
   * The extractor returns the empty string exactly when every page is blank;
   * otherwise its text has no whitespace at either end.
   */
  lemma PdfTextShape(path: string, pages: seq<string>)
    ensures PdfText(path, Pdf(pages)) == Ok("") <==> forall k | 0 <= k < |pages| :: IsBlank(pages[k])
    ensures Trimmed(PdfText(path, Pdf(pages)).value)
  {
    PagesTextBlankIff(pages, |pages|);
    StripEmptyIff(PagesText(pages, |pages|));
  }
}
