/**
 * The summarise endpoint and the CSV download: choose the folder, run the
 * pipeline, remember the results for the download and shape the reply;
 * any exception, including the endpoint's own 400, is answered with a 500.
 * The CSV is modelled as its rows of fields.
 */
module SummarizeRoutes {
  import opened Outcomes
  import opened PyStrings
  import opened SeqFacts
  import opened PipelineService

  /** The request body; an absent or empty folder id falls back to the configured one. */
  datatype SummarizeRequest = SummarizeRequest(folderId: Option<string>, downloadDir: string)

  /** The JSON body of a successful reply. */
  datatype Response =
    | NoFiles  // {"status": "success", "message": NO_FILES_MESSAGE, "total": 0, "results": []}
    | Report(folderId: string, total: nat, successCount: nat, failedCount: nat, results: seq<ProcessingResult>)

  /** An `HTTPException`: its status code and its detail. */
  datatype HttpError = HttpError(statusCode: nat, detail: string)

  /** What the endpoint answers: a JSON body, or an HTTP error. */
  datatype Reply = Json(body: Response) | HttpFailure(error: HttpError)

  const NO_FILES_MESSAGE := "No supported files found in the specified folder."
  const MISSING_FOLDER := "Folder ID not provided and not set in config."
  const CSV_HEADER: seq<string> := ["File Name", "Status", "Summary"]

  /** `str(e)` for an `HTTPException`: the status code, a colon and the detail. */
  function HttpErrorText(h: HttpError): string {
    NatToString(h.statusCode) + ": " + h.detail
  }

  /** The 500 the broad handler raises for an exception whose `str` is `text`. */
  function Internal(text: string): Reply {
    HttpFailure(HttpError(500, "Pipeline failed: " + text))
  }

  /** `request.folder_id if request.folder_id else Config.DRIVE_FOLDER_ID`. */
  function ChosenFolder(request: SummarizeRequest, configFolderId: string): string {
    match request.folderId
    case Some(id) => if id != "" then id else configFolderId
    case None => configFolderId
  }

  /** `[r for r in results if r["status"] == status]`, over the first `n` results. */
  function WithStatus(results: seq<ProcessingResult>, status: Status, n: nat): seq<ProcessingResult>
    requires n <= |results|
  {
    FilterPrefix((r: ProcessingResult) => r.status == status, results, n)
  }

  /** The reply body for the results of a run. */
  function Shape(folderId: string, results: seq<ProcessingResult>): Response {
    if results == [] then NoFiles
    else Report(folderId, |results|, |WithStatus(results, Success, |results|)|, |WithStatus(results, Error, |results|)|, results)
  }

  /**
   * The reply of `summarize(request)` and what `LAST_RESULTS` holds after it,
   * given what it held before. `init` is the exception constructing the
   * Drive client or the summariser raises, if any; `first` and `second` are
   * the world as the two runs of the pipeline find it.
   */
  function SummarizeSpec(request: SummarizeRequest, configFolderId: string, init: Option<Exc>,
                         first: World, second: World, last: Option<seq<ProcessingResult>>): (Reply, Option<seq<ProcessingResult>>)
  {
    var folderId := ChosenFolder(request, configFolderId);
    if folderId == "" then (Internal(HttpErrorText(HttpError(400, MISSING_FOLDER))), last)
    else if init.Some? then (Internal(init.value.msg), last)
    else match RunSpec(folderId, request.downloadDir, first)
      case Err(e) => (Internal(e.msg), last)
      case Ok(_) =>
        match RunSpec(folderId, request.downloadDir, second)
        case Err(e) => (Internal(e.msg), last)
        case Ok(results) => (Json(Shape(folderId, results)), Some(results))
  }

  /** One CSV row for a result: the file name, the status, and the summary or else the error. */
  function CsvRow(r: ProcessingResult): seq<string> {
    [r.fileName,
     if r.status == Success then "success" else "error",
     if r.summary != "" then r.summary else match r.error case None => "" case Some(e) => e]
  }

  /** The rows `download_csv()` writes, or the `NameError` when nothing was stored yet. */
  function CsvSpec(last: Option<seq<ProcessingResult>>): Result<seq<seq<string>>> {
    match last
    case None => Err(Exc(NameError, "name 'LAST_RESULTS' is not defined"))
    case Some(results) => Ok([CSV_HEADER] + MapPrefix(CsvRow, results, |results|))
  }

  /** The endpoints, with the process-wide `LAST_RESULTS`. */
  class Routes {
    var lastResults: Option<seq<ProcessingResult>>

    constructor()
      ensures lastResults == None
    {
      lastResults := None;
    }

    /** `summarize(request)`. */
    method Summarize(request: SummarizeRequest, configFolderId: string, init: Option<Exc>, first: World, second: World)
      returns (reply: Reply)
      modifies this
      ensures (reply, lastResults) == SummarizeSpec(request, configFolderId, init, first, second, old(lastResults))
    {
      var folderId := ChosenFolder(request, configFolderId);
      if folderId == "" {
        return Internal(HttpErrorText(HttpError(400, MISSING_FOLDER)));
      }
      if init.Some? {
        return Internal(init.value.msg);
      }
      var pipeline := new Pipeline(folderId, request.downloadDir);
      var results := pipeline.Run(first);
      if results.Err? {
        return Internal(results.error.msg);
      }
      results := pipeline.Run(second);
      if results.Err? {
        return Internal(results.error.msg);
      }
      lastResults := Some(results.value);
      return Json(Shape(folderId, results.value));
    }

    /** `download_csv()`. */
    method DownloadCsv() returns (r: Result<seq<seq<string>>>)
      ensures r == CsvSpec(lastResults)
    {
      if lastResults.None? {
        return Err(Exc(NameError, "name 'LAST_RESULTS' is not defined"));
      }
      var results := lastResults.value;
      var rows := [CSV_HEADER];
      for i := 0 to |results|
        invariant rows == [CSV_HEADER] + MapPrefix(CsvRow, results, i)
      {
        rows := rows + [CsvRow(results[i])];
        ConcatAssoc([CSV_HEADER], MapPrefix(CsvRow, results, i), [CsvRow(results[i])]);
      }
      return Ok(rows);
    }
  }

  /**
   * The two status lists partition the results: together they hold each of
   * the first `n` results exactly once.
   */
  lemma StatusPartition(results: seq<ProcessingResult>, n: nat)
    requires n <= |results|
    ensures multiset(WithStatus(results, Success, n)) + multiset(WithStatus(results, Error, n)) == multiset(results[..n])
  {
    FilterPartition((r: ProcessingResult) => r.status == Success, (r: ProcessingResult) => r.status == Error, results, n);
  }

  /** Each status list holds only results of its status, and their lengths add up to `n`. */
  lemma {:induction false} StatusCountsAddUp(results: seq<ProcessingResult>, n: nat)
    requires n <= |results|
    ensures |WithStatus(results, Success, n)| + |WithStatus(results, Error, n)| == n
    ensures forall r | r in WithStatus(results, Success, n) :: r.status == Success && r in results
    ensures forall r | r in WithStatus(results, Error, n) :: r.status == Error && r in results
  {
    if n > 0 {
      StatusCountsAddUp(results, n - 1);
    }
  }

  /** The positions among the first `n` results whose status is `status`. */
  ghost function StatusPositions(results: seq<ProcessingResult>, status: Status, n: nat): set<nat>
    requires n <= |results|
  {
    set i: nat | i < n && results[i].status == status
  }

  /** Filtering by status keeps one result per position of that status. */
  lemma {:induction false} WithStatusCount(results: seq<ProcessingResult>, status: Status, n: nat)
    requires n <= |results|
    ensures |WithStatus(results, status, n)| == |StatusPositions(results, status, n)|
  {
    if n > 0 {
      WithStatusCount(results, status, n - 1);
      var before := StatusPositions(results, status, n - 1);
      assert n - 1 !in before;
      if results[n - 1].status == status {
        assert StatusPositions(results, status, n) == before + {n - 1};
      } else {
        assert StatusPositions(results, status, n) == before;
      }
    }
  }

  /**
   * A report counts every result once: the total is the number of results,
   * at least one; the success count is the number of results whose status
   * is `success` and the failure count the number whose status is `error`,
   * and these add up to the total. No results give the reply without counts.
   */
  lemma ShapeCounts(folderId: string, results: seq<ProcessingResult>)
    ensures results == [] <==> Shape(folderId, results) == NoFiles
    ensures var body := Shape(folderId, results);
      body.Report? ==>
        && body.total == |results| > 0
        && body.successCount == |StatusPositions(results, Success, |results|)|
        && body.failedCount == |StatusPositions(results, Error, |results|)|
        && body.total == body.successCount + body.failedCount
        && body.results == results
  {
    StatusCountsAddUp(results, |results|);
    WithStatusCount(results, Success, |results|);
    WithStatusCount(results, Error, |results|);
  }

  /**
   * Without a folder id in the request or the configuration the endpoint
   * answers 500, its detail quoting the 400 raised inside the handler, and
   * `LAST_RESULTS` keeps its value.
   */
  lemma MissingFolderIs500(request: SummarizeRequest, init: Option<Exc>, first: World, second: World, last: Option<seq<ProcessingResult>>)
    requires request.folderId.None? || request.folderId == Some("")
    ensures SummarizeSpec(request, "", init, first, second, last) == (Internal("400: " + MISSING_FOLDER), last)
  {
    BadRequestText(MISSING_FOLDER);
  }

  /** The text of a 400 is "400: " followed by its detail. */
  lemma BadRequestText(detail: string)
    ensures HttpErrorText(HttpError(400, detail)) == "400: " + detail
  {
    assert DigitChar(4) == '4' && DigitChar(0) == '0';
    assert NatToString(4) == "4";
    assert NatToString(40) == NatToString(4) + [DigitChar(0)] == "40";
    assert NatToString(400) == NatToString(40) + [DigitChar(0)] == "400";
    ConcatAssoc("400", ": ", detail);
  }

  /**
   * A request's non-empty folder id takes precedence over the configured
   * one, and an empty one counts as absent.
   */
  lemma FolderFallback(request: SummarizeRequest, configFolderId: string)
    ensures request.folderId.Some? && request.folderId.value != "" ==> ChosenFolder(request, configFolderId) == request.folderId.value
    ensures request.folderId.None? || request.folderId == Some("") ==> ChosenFolder(request, configFolderId) == configFolderId
  {
  }

  /**
   * The pipeline runs twice: a failure of the first run is answered with a
   * 500 and stores nothing; otherwise the reply and the stored results are
   * those of the second run alone, whatever the first returned.
   */
  lemma SecondRunReported(request: SummarizeRequest, configFolderId: string, first: World, other: World, second: World,
                          last: Option<seq<ProcessingResult>>)
    requires ChosenFolder(request, configFolderId) != ""
    ensures var folderId := ChosenFolder(request, configFolderId);
      RunSpec(folderId, request.downloadDir, first).Err? ==>
        SummarizeSpec(request, configFolderId, None, first, second, last)
          == (Internal(RunSpec(folderId, request.downloadDir, first).error.msg), last)
    ensures var folderId := ChosenFolder(request, configFolderId);
      RunSpec(folderId, request.downloadDir, first).Ok? && RunSpec(folderId, request.downloadDir, other).Ok? ==>
        SummarizeSpec(request, configFolderId, None, first, second, last)
          == SummarizeSpec(request, configFolderId, None, other, second, last)
    ensures var folderId := ChosenFolder(request, configFolderId);
      RunSpec(folderId, request.downloadDir, first).Ok? && RunSpec(folderId, request.downloadDir, second).Ok? ==>
        var results := RunSpec(folderId, request.downloadDir, second).value;
        SummarizeSpec(request, configFolderId, None, first, second, last) == (Json(Shape(folderId, results)), Some(results))
  {
  }

  /**
   * The CSV is the header and then one row per stored result, in order;
   * each row names the file and its status, and its third field is the
   * summary, or the error when the summary is empty, or else empty.
   */
  lemma CsvShape(results: seq<ProcessingResult>)
    ensures var rows := CsvSpec(Some(results)).value;
      && |rows| == |results| + 1
      && rows[0] == ["File Name", "Status", "Summary"]
      && forall k | 0 <= k < |results| ::
           && |rows[k + 1]| == 3
           && rows[k + 1][0] == results[k].fileName
           && rows[k + 1][1] == (if results[k].status == Success then "success" else "error")
           && rows[k + 1][2] == (if results[k].summary != "" then results[k].summary
                                 else if results[k].error.Some? then results[k].error.value else "")
  {
    MapPrefixAt(CsvRow, results, |results|);
    var rows := CsvSpec(Some(results)).value;
    forall k | 0 <= k < |results| ensures rows[k + 1] == CsvRow(results[k]) {
      assert rows[k + 1] == MapPrefix(CsvRow, results, |results|)[k];
    }
  }
}
