# Document summariser: a Dafny model of the batch pipeline

This project models the core of a small document-summarisation service.
The service lists the PDF, Word and plain-text files of a Google Drive
folder and downloads them. It extracts each file's text with a
format-specific extractor and asks a language model for a summary. It
returns one result record per file and can export the last results as CSV.

Each Python module of the core becomes one Dafny module:

- `DriveClient` (`app/clients/drive_client.py`): the MIME-type table and
  the listing query. The paginated listing loop (`ListFiles`) keeps
  requesting pages until a reply has no next-page token. The download
  loop (`DownloadAllFiles`) keeps exactly the files whose download
  succeeded. The Drive service is input data: the sequence of replies to
  the listing requests, and an outcome for downloading each listed file.
- `TextParser`, `DocxParser`, `PdfParser` (`app/parser/*_parser.py`): each
  extractor is a method with the source's loop. Each is proved equal to a
  specification function. The document libraries are input data. For text
  files that is what reading the file with each encoding gives. For Word
  files it is the paragraph texts and the cell texts of each table row.
  For PDF files it is the text of each page.
- `ParserFactory` (`app/parser/parser_factory.py`): `os.path.splitext`,
  lower-casing and lookup in the three-entry parser table.
- `AiSummarizer` (`app/summarizer/ai_summarizer.py`): the 12 000-character
  truncation, the prompt and the guard for blank text. The language model
  is a function from the request (system prompt, user prompt) to a reply
  or an exception.
- `PipelineService` (`app/services/pipeline.py`): class `Pipeline` with
  its folder id and download directory. `Run` has the loop that appends
  one record per fetched file. Parse and summarise failures are isolated
  per file; a fetch failure fails the run.
- `SummarizeRoutes` (`app/api/summarize_routes.py`): class `Routes` holds
  the process-wide `LAST_RESULTS`. `Summarize` computes the reply and the
  new stored results. `DownloadCsv` builds the CSV rows.
- Helpers: `PyStrings` (Python `str.isspace`, `strip`, `join`, `lower`,
  `str(n)`), `PyPaths` (`os.path.splitext`, `os.path.join`), `PyDicts`
  (constant dicts as ordered entry lists), `SeqFacts`, `Outcomes`
  (`Option`, `Result`, and exceptions as class and message; `str(e)` is
  the message).

Some behaviour of the code is easy to miss; the model keeps it as written:

- The summarise endpoint runs the pipeline twice and reports only the
  second run's results.
- The 400 for a missing folder id is raised inside the endpoint's `try`,
  so the caller sees a 500. Its detail is `"Pipeline failed: 400: Folder
  ID not provided and not set in config."`, because `str()` of an
  `HTTPException` is `"<code>: <detail>"`.
- The two per-file failure kinds give different records. Blank extracted
  text gives error `"Empty content after parsing."` and summary `"Could
  not extract any text from this document."`. An exception from the
  extractor or the language model gives error `str(e)` and summary
  `"Processing failed: " + str(e)`.
- `os.makedirs` in `download_file` is outside its `try`. An `OSError` from
  it therefore escapes `download_all_files` rather than skipping the file.
  The pipeline's fetch step then turns it into `"Drive fetch error: …"`.

## Model

| member | source | states |
|---|---|---|
| `PipelineService.Pipeline.Run` | app/services/pipeline.py:39-79 | the loop builds exactly the run's specification: the fetch error, `[]` for no files, else one record per fetched file in order |
| `PipelineService.RunOnePerFile` | app/services/pipeline.py:64-72 | after a successful fetch there is one record per fetched file, in fetch order, and record k depends only on file k, so one file's failure does not affect the others |
| `PipelineService.EmptyFetchProcessesNothing` | app/services/pipeline.py:59-63 | an empty fetch gives `[]` whatever the file system and the language model would do |
| `PipelineService.FetchFailureAbortsRun` | app/services/pipeline.py:82-97 | any exception of the Drive step fails the whole run with `RuntimeError("Drive fetch error: " + str(e))` |
| `PipelineService.ParseFileShape` | app/services/pipeline.py:101-120 | an exception of `parse_document` passes through unchanged; parsed text becomes `""` exactly when it is blank, and non-blank text is returned unchanged |
| `PipelineService.ProcessFileShape` | app/services/pipeline.py:144-184 | each record names its file; it is a success exactly when its error is `None`, and then its summary is the model's reply to the prompt for the parsed text; an error record is the empty-content record or repeats its error after `"Processing failed: "` |
| `PipelineService.ProcessFileOutcome` | app/services/pipeline.py:144-184 | a parse exception `e` gives `error = str(e)` and summary `"Processing failed: " + str(e)`; for non-empty text, the model's reply gives `success` with that reply and no error, and the model's exception gives the failure record for it |
| `PipelineService.BlankTextSkipsModel` | app/services/pipeline.py:157-165 | blank parsed text gives the fixed error record and the language model is not consulted |
| `PipelineService.EmptyPathRecord` | app/services/pipeline.py:177-184 | a parse of the empty path that raises the unsupported-extension `ValueError` becomes that file's error record |
| `PipelineService.MissingKeys` | app/services/pipeline.py:68-72 | a file without a name is reported as `"unknown"`; a file without a local path gets the `ValueError` record for the empty extension instead of failing the run |
| `PipelineService.DriveFilesProcessed` | app/services/pipeline.py:64-72 | when the files come from the Drive client, the run reports exactly the listed files whose download succeeded, in listing order, each parsed at `join(download_dir, name)` |
| `AiSummarizer.Truncate` | app/summarizer/ai_summarizer.py:91-97 | text of at most 12000 characters is unchanged; longer text is its first 12000 characters followed by the truncation note, and the result never exceeds 12000 plus the note's length |
| `AiSummarizer.TruncateIdempotent` | app/summarizer/ai_summarizer.py:91-97 | truncating an already truncated text changes nothing |
| `AiSummarizer.BuildPromptShape` | app/summarizer/ai_summarizer.py:74-79 | the prompt starts with the line naming the document in quotes and ends with `"Document Content:\n"` followed by the text |
| `AiSummarizer.BuildPromptInjective` | app/summarizer/ai_summarizer.py:74-79 | for the same document name, equal prompts come only from equal texts, so the text is recoverable as the prompt's suffix |
| `AiSummarizer.BlankNeedsNoModel` | app/summarizer/ai_summarizer.py:46-48 | empty or whitespace-only text is answered with `"No content available to summarize."` whatever the model |
| `AiSummarizer.ModelAskedOnce` | app/summarizer/ai_summarizer.py:50-60 | other text makes exactly one model request, with the system prompt and the prompt for the truncated text, and the model's reply or exception is the result unchanged |
| `ParserFactory.SupportedExtensions` | app/parser/parser_factory.py:9-13 | exactly `.pdf`, `.docx` and `.txt` are in the table, mapped to their extractors, and the key list joins to `".pdf, .docx, .txt"` |
| `ParserFactory.DispatchBySuffix` | app/parser/parser_factory.py:30-48 | a path `dir/name.suffix` goes to the extractor for its lower-cased suffix, and that extractor's result is returned unchanged; any other suffix raises the `ValueError` listing the supported types |
| `ParserFactory.LowerMatchesKey` | app/parser/parser_factory.py:31 | a string lower-cases to a key without upper-case letters exactly when it is that key with each letter in either case |
| `ParserFactory.CaseInsensitiveKeys` | app/parser/parser_factory.py:31-40 | an extension reaches the PDF, Word or text extractor exactly when it is `.pdf`, `.docx` or `.txt` with each letter in either case, so `A.PDF` is parsed as a PDF |
| `ParserFactory.UnsupportedMessageText` | app/parser/parser_factory.py:33-38 | the `ValueError` message quotes the extension and lists `.pdf, .docx, .txt` in table order |
| `ParserFactory.EmptyPathRejected` | app/parser/parser_factory.py:30-38 | the empty path has the empty extension and is rejected with a `ValueError` |
| `ParserFactory.ParseDocumentShape` | app/parser/parser_factory.py:16-48 | a successful parse has no whitespace at either end; a failure is a `ValueError`, `RuntimeError` or `FileNotFoundError` |
| `PyPaths.ExtensionOf` | app/parser/parser_factory.py:30 | `splitext` takes the extension from the last dot of the last path component, whatever directory precedes it |
| `PyPaths.LeadingDotsNoExtension` | app/parser/parser_factory.py:30 | leading dots of the last component do not start an extension, so `.pdf` alone has none |
| `TextParser.ExtractTextFromTxt` | app/parser/text_parser.py:8-42 | the encoding loop computes the specification of trying the encodings in order |
| `TextParser.FirstDecisiveWins` | app/parser/text_parser.py:20-31 | the first encoding that neither fails to decode nor decodes to blank text decides the result; every earlier one moved on |
| `TextParser.EmptyIffAllSkipped` | app/parser/text_parser.py:25-34 | the result is `""` exactly when every encoding failed to decode or decoded to blank text |
| `TextParser.ResultTrimmed` | app/parser/text_parser.py:25-27 | a successful result is stripped text |
| `TextParser.TxtErrors` | app/parser/text_parser.py:36-42 | failures are only `FileNotFoundError("File not found: <path>")` or `RuntimeError("Failed to parse TXT: <path>")`; a decoding error is never one |
| `DocxParser.ExtractTextFromDocx` | app/parser/docx_parser.py:7-45 | the nested loops compute the paragraph parts then the table-row parts, joined by newlines, or `""` when there are none; any library exception becomes `RuntimeError("Failed to parse DOCX: <path>")` |
| `DocxParser.ParagraphTexts` | app/parser/docx_parser.py:24-26 | the paragraph loop keeps the stripped text of each non-blank paragraph, in order |
| `DocxParser.TableRowTexts` | app/parser/docx_parser.py:28-34 | the table loop appends the row parts of every table, table by table, after the existing parts |
| `DocxParser.AppendRowTexts` | app/parser/docx_parser.py:29-34 | the row loop appends the text of each row that has any, in order |
| `DocxParser.RowTextShape` | app/parser/docx_parser.py:30-34 | a row is dropped exactly when all its cells are blank; a kept row text has no whitespace at either end |
| `DocxParser.DocxTextTrimmed` | app/parser/docx_parser.py:24-41 | every part is non-empty and stripped, so the joined text has no whitespace at either end |
| `DocxParser.DocxTextEmptyIff` | app/parser/docx_parser.py:36-41 | the text is `""` exactly when every paragraph and every cell is blank |
| `PdfParser.ExtractTextFromPdf` | app/parser/pdf_parser.py:7-40 | the page loop computes the page-numbered concatenation, stripped, or `""` when blank; any library exception becomes `RuntimeError("Failed to parse PDF: <path>")` |
| `PdfParser.PageInPlace` | app/parser/pdf_parser.py:23-27 | page n (1-based, counting skipped pages) contributes `"\n--- Page n ---\n"` and its text, or nothing when blank, right after the pages before it |
| `PdfParser.PagesTextBlankIff` | app/parser/pdf_parser.py:23-31 | the accumulated text is blank exactly when every page is blank |
| `PdfParser.PdfTextShape` | app/parser/pdf_parser.py:31-36 | the result is `""` exactly when every page is blank, and otherwise has no whitespace at either end |
| `DriveClient.MimeTable` | app/clients/drive_client.py:14-18 | exactly three MIME types map to an extension, to `.pdf`, `.docx` and `.txt`; any other maps to `""` |
| `DriveClient.MimeQueryText` | app/clients/drive_client.py:47-50 | the query selects the three MIME types in table order, joined by `" or "` |
| `DriveClient.ListFiles` | app/clients/drive_client.py:37-78 | the pagination loop returns the listing specification and sends one request per reply consumed, none after the reply that ends the listing |
| `DriveClient.AppendTagged` | app/clients/drive_client.py:64-66 | each file of a page is appended in order, tagged with its extension |
| `DriveClient.RequestsSentShape` | app/clients/drive_client.py:56-71 | every request carries the query; the first has no page token and each later one carries the previous reply's token |
| `DriveClient.PageFilesInPlace` | app/clients/drive_client.py:56-71 | the listing is the in-order concatenation of the pages: the files of page k follow those of the earlier pages |
| `DriveClient.ListedFilesTagged` | app/clients/drive_client.py:64-66 | every listed file carries the extension of its MIME type, or `""`, and no local path yet |
| `DriveClient.ListSpecShape` | app/clients/drive_client.py:55-78 | every request before the last got a page with a next-page token; the listing fails exactly when the last reply is an exception |
| `DriveClient.DownloadAllFiles` | app/clients/drive_client.py:120-152 | the download loop computes the specification: the listing error, `[]` for an empty listing, else the kept files |
| `DriveClient.DownloadedSubsequence` | app/clients/drive_client.py:138-149 | the kept files are the listed files whose download succeeded, in listing order, each with `local_path = join(download_dir, name)` |
| `DriveClient.SavedIndicesIncreasing` | app/clients/drive_client.py:139-147 | the kept files' listing positions strictly increase, so the listing order is preserved |
| `DriveClient.SavedIndicesComplete` | app/clients/drive_client.py:139-149 | every file whose download succeeded is kept |
| `DriveClient.DownloadedErrors` | app/clients/drive_client.py:138-149 | a failed transfer is skipped and never fails the loop; only the directory creation's `OSError` does |
| `DriveClient.AllSavedKeepsAll` | app/clients/drive_client.py:138-147 | when every download succeeds, every listed file is kept, in order, with its local path |
| `PyPaths.PathJoinEndsWith` | app/clients/drive_client.py:95 | the local path ends with the file's name |
| `SummarizeRoutes.Routes.Summarize` | app/api/summarize_routes.py:17-69 | the endpoint computes the reply and the new `LAST_RESULTS` its specification gives |
| `SummarizeRoutes.Routes.DownloadCsv` | app/api/summarize_routes.py:73-86 | the CSV loop writes the header and one row per stored result |
| `SummarizeRoutes.FolderFallback` | app/api/summarize_routes.py:27 | a non-empty request folder id wins; an absent or empty one falls back to the configured id |
| `SummarizeRoutes.MissingFolderIs500` | app/api/summarize_routes.py:28-32 | without any folder id the reply is a 500 whose detail is `"Pipeline failed: 400: …"`, and `LAST_RESULTS` is unchanged |
| `SummarizeRoutes.SecondRunReported` | app/api/summarize_routes.py:39-43 | a failing first run gives a 500; otherwise the reply and `LAST_RESULTS` come from the second run alone |
| `SummarizeRoutes.ShapeCounts` | app/api/summarize_routes.py:45-65 | no results give the reply without counts; otherwise the total is the number of results, the success count the number of positions with status `success`, the failure count the number with status `error`, and the two add up to the total |
| `SummarizeRoutes.StatusPartition` | app/api/summarize_routes.py:53-54 | the success list and the error list together hold each result exactly once (as multisets) |
| `SummarizeRoutes.StatusCountsAddUp` | app/api/summarize_routes.py:53-54 | each list holds only results of its status, and their lengths add up to the number of results |
| `SummarizeRoutes.WithStatusCount` | app/api/summarize_routes.py:53-54 | each list's length is the number of positions whose result has that status |
| `SummarizeRoutes.CsvShape` | app/api/summarize_routes.py:79-86 | the header, then one three-field row per result in order; the third field is the summary, else the error, else `""` |

## Left out

- Network and file access are replaced by input data:
  - the Drive listing calls and the chunked download and write;
  - `open()`, `pymupdf.open` and `docx.Document`;
  - the OpenAI call.
- Logging, the FastAPI wiring, the templates, `StreamingResponse` and
  CSV quoting are not modelled. CSV output is a sequence of rows of
  fields.
- Credential acquisition is not modelled. It appears only as the optional
  exception that constructing the pipeline's clients raises.
- The configuration module is not modelled. The configured folder id is a
  parameter.
- The language-model client's mapping of exceptions to messages is not
  modelled, because the pipeline treats every failure the same way.
- `DriveClient.ListFiles`: requires that some reply ends the listing. The
  source's `while True` would keep requesting pages from a service that
  always returns a next-page token.
- Listing replies are modelled with the requested fields always present.
  A reply missing `name` or `mimeType` raises a `KeyError` in the source,
  which is not modelled.
- `PyStrings.Lower` maps only ASCII letters. Python's `str.lower` also
  lower-cases other scripts, which no supported extension contains. The
  dispatch is therefore exact, but for an extension with non-ASCII
  upper-case letters (`.PDFÉ`) the quoted extension in the model's
  `ValueError` message differs from Python's.
- The file system and the language model (`World.fs`, `World.chat`) are
  fixed functions of the path and of the request. Equal requests always
  get equal outcomes. The model's non-determinism and any effect of
  earlier calls, such as rate limiting, are not captured. The statement
  that record k depends only on file k holds relative to this.
- `LAST_RESULTS` is not initialised at module level, so a CSV download
  before any summary raises `NameError`. The model stores an `Option` and
  returns that `NameError` for `None`. Sharing the results and the
  download directory across concurrent requests is not modelled.
- A request whose `download_dir` is explicitly `null` is not modelled.
  The download directory is always a string.
- Python strings are modelled as sequences of Unicode scalar values.
