/**
 * The batch pipeline: fetch the folder's files, then parse and summarise
 * each one, turning every failure inside one file into an error record for
 * that file. A failure of the fetch itself ends the run.
 */
module PipelineService {
  import opened Outcomes
  import opened PyStrings
  import opened ParserFactory
  import opened AiSummarizer
  import opened SeqFacts
  import opened PyPaths
  import opened DriveClient

  /** A file as the Drive step hands it over; either key may be absent from the dict. */
  datatype FileRecord = FileRecord(name: Option<string>, localPath: Option<string>)

  datatype Status = Success | Error

  /** The dict `_process_file` returns. */
  datatype ProcessingResult = ProcessingResult(fileName: string, summary: string, status: Status, error: Option<string>)

  /** Everything outside the process that one run consults. */
  datatype World = World(
    fetch: (string, string) -> Result<seq<FileRecord>>,  // `download_all_files(folder_id, download_dir)`
    fs: string -> FileView,                              // what the document libraries see at a path
    chat: ChatRequest -> Result<string>)                 // the language model

  const EMPTY_SUMMARY := "Could not extract any text from this document."
  const EMPTY_ERROR := "Empty content after parsing."

  /** `file.get("name", "unknown")`. */
  function FileName(f: FileRecord): string {
    match f.name
    case None => "unknown"
    case Some(name) => name
  }

  /** `file.get("local_path", "")`. */
  function LocalPath(f: FileRecord): string {
    match f.localPath
    case None => ""
    case Some(path) => path
  }

  /** `_fetch_files()`: any exception of the Drive step becomes a `RuntimeError`. */
  function FetchFiles(folderId: string, downloadDir: string, world: World): Result<seq<FileRecord>> {
    match world.fetch(folderId, downloadDir)
    case Err(e) => Err(Exc(RuntimeError, "Drive fetch error: " + e.msg))
    case Ok(files) => Ok(files)
  }

  /** `_parse_file(file_name, local_path)`: blank text becomes the empty string. */
  function ParseFile(localPath: string, world: World): Result<string> {
    match ParseDocument(localPath, world.fs(localPath))
    case Err(e) => Err(e)
    case Ok(text) => Ok(if IsBlank(text) then "" else text)
  }

  /** The record for a file whose parse or summary raised `e`. */
  function Failed(fileName: string, e: Exc): ProcessingResult {
    ProcessingResult(fileName, "Processing failed: " + e.msg, Error, Some(e.msg))
  }

  /** `_process_file(file_name, local_path)`. */
  function ProcessFile(fileName: string, localPath: string, world: World): ProcessingResult {
    match ParseFile(localPath, world)
    case Err(e) => Failed(fileName, e)
    case Ok(text) =>
      if text == "" then ProcessingResult(fileName, EMPTY_SUMMARY, Error, Some(EMPTY_ERROR))
      else match Summarize(text, fileName, world.chat)
        case Ok(summary) => ProcessingResult(fileName, summary, Success, None)
        case Err(e) => Failed(fileName, e)
  }

  /** The record for one fetched file. */
  function ProcessRecord(f: FileRecord, world: World): ProcessingResult {
    ProcessFile(FileName(f), LocalPath(f), world)
  }

  /** The processing of one fetched file after another. */
  function Processor(world: World): FileRecord -> ProcessingResult {
    f => ProcessRecord(f, world)
  }

  /** The result of `run()`. */
  function RunSpec(folderId: string, downloadDir: string, world: World): Result<seq<ProcessingResult>> {
    match FetchFiles(folderId, downloadDir, world)
    case Err(e) => Err(e)
    case Ok(files) => Ok(if files == [] then [] else MapPrefix(Processor(world), files, |files|))
  }

  class Pipeline {
    const folderId: string
    const downloadDir: string

    constructor(folderId: string, downloadDir: string)
      ensures this.folderId == folderId && this.downloadDir == downloadDir
    {
      this.folderId := folderId;
      this.downloadDir := downloadDir;
    }

    /** `run()`. */
    method Run(world: World) returns (r: Result<seq<ProcessingResult>>)
      ensures r == RunSpec(folderId, downloadDir, world)
    {
      var results: seq<ProcessingResult> := [];
      var fetched := FetchFiles(folderId, downloadDir, world);
      if fetched.Err? {
        return Err(fetched.error);
      }
      var files := fetched.value;
      if files == [] {
        return Ok([]);
      }
      for i := 0 to |files|
        invariant results == MapPrefix(Processor(world), files, i)
      {
        var fileName := FileName(files[i]);
        var localPath := LocalPath(files[i]);
        var result := ProcessFile(fileName, localPath, world);
        results := results + [result];
      }
      return Ok(results);
    }
  }

  /**
   * When the fetch succeeds, the run gives one record per fetched file, in
   * fetch order, each named after its file and computed from that file
   * alone, so a failure in one file does not affect the others. No files
   * gives no records, whatever the files and the model would do.
   */
  lemma RunOnePerFile(folderId: string, downloadDir: string, world: World)
    requires world.fetch(folderId, downloadDir).Ok?
    ensures var files := world.fetch(folderId, downloadDir).value;
      && RunSpec(folderId, downloadDir, world).Ok?
      && |RunSpec(folderId, downloadDir, world).value| == |files|
      && forall k | 0 <= k < |files| ::
           RunSpec(folderId, downloadDir, world).value[k] == ProcessRecord(files[k], world)
  {
    var files := world.fetch(folderId, downloadDir).value;
    MapPrefixAt(Processor(world), files, |files|);
  }

  /** An empty fetch gives an empty run, without consulting the files or the model. */
  lemma EmptyFetchProcessesNothing(folderId: string, downloadDir: string, world: World,
                                   fs: string -> FileView, chat: ChatRequest -> Result<string>)
    requires world.fetch(folderId, downloadDir) == Ok([])
    ensures RunSpec(folderId, downloadDir, world) == RunSpec(folderId, downloadDir, World(world.fetch, fs, chat)) == Ok([])
  {
  }

  /** A failed fetch fails the whole run with a `RuntimeError` carrying its message. */
  lemma FetchFailureAbortsRun(folderId: string, downloadDir: string, world: World)
    requires world.fetch(folderId, downloadDir).Err?
    ensures RunSpec(folderId, downloadDir, world) == Err(Exc(RuntimeError, "Drive fetch error: " + world.fetch(folderId, downloadDir).error.msg))
  {
  }

  /**
   * A successful parse is the empty string exactly when the document's text
   * is blank, and otherwise the document's text itself.
   */
  lemma ParseFileShape(localPath: string, world: World)
    ensures var parsed := ParseDocument(localPath, world.fs(localPath));
      && (parsed.Err? <==> ParseFile(localPath, world).Err?)
      && (parsed.Err? ==> ParseFile(localPath, world) == parsed)
      && (parsed.Ok? ==> (ParseFile(localPath, world).value == "" <==> IsBlank(parsed.value)))
      && (parsed.Ok? && !IsBlank(parsed.value) ==> ParseFile(localPath, world).value == parsed.value)
  {
  }

  /**
   * Every record names its file; it is a success exactly when it carries no
   * error, and then its summary is the model's reply to the prompt built
   * from the parsed text; an error record either reports empty content or
   * repeats its error message in its summary.
   */
  lemma ProcessFileShape(fileName: string, localPath: string, world: World)
    ensures var r := ProcessFile(fileName, localPath, world);
      && r.fileName == fileName
      && (r.status == Success <==> r.error == None)
      && (r.status == Success ==>
            var text := ParseFile(localPath, world).value;
            !IsBlank(text) && world.chat(ChatRequest(SYSTEM_PROMPT, BuildPrompt(Truncate(text), fileName))) == Ok(r.summary))
      && (r.status == Error ==>
            (r.summary == EMPTY_SUMMARY && r.error == Some(EMPTY_ERROR))
            || (r.error.Some? && r.summary == "Processing failed: " + r.error.value))
  {
    var parsed := ParseFile(localPath, world);
    if parsed.Ok? && parsed.value != "" {
      assert !IsBlank(parsed.value);
    }
  }

  /**
   * The record follows from what happened to the file: an exception of the
   * parse, or of the model on non-empty text, gives the failure record
   * carrying that exception's message; a reply of the model gives a success
   * carrying that reply and no error.
   */
  lemma ProcessFileOutcome(fileName: string, localPath: string, world: World)
    ensures var parsed := ParseFile(localPath, world);
      parsed.Err? ==> ProcessFile(fileName, localPath, world) == Failed(fileName, parsed.error)
    ensures var parsed := ParseFile(localPath, world);
      parsed.Ok? && parsed.value != "" ==>
        var reply := world.chat(ChatRequest(SYSTEM_PROMPT, BuildPrompt(Truncate(parsed.value), fileName)));
        && (reply.Ok? ==> ProcessFile(fileName, localPath, world) == ProcessingResult(fileName, reply.value, Success, None))
        && (reply.Err? ==> ProcessFile(fileName, localPath, world) == Failed(fileName, reply.error))
    ensures var r := ProcessFile(fileName, localPath, world);
      r.status == Error && r.error != Some(EMPTY_ERROR) ==> r.summary == "Processing failed: " + r.error.value
  {
    var parsed := ParseFile(localPath, world);
    if parsed.Ok? && parsed.value != "" {
      assert !IsBlank(parsed.value);
    }
  }

  /** Blank parsed text gives the fixed empty-content record, whatever the model would say. */
  lemma BlankTextSkipsModel(fileName: string, localPath: string, world: World, chat: ChatRequest -> Result<string>)
    requires ParseFile(localPath, world) == Ok("")
    ensures ProcessFile(fileName, localPath, world) == ProcessFile(fileName, localPath, World(world.fetch, world.fs, chat))
      == ProcessingResult(fileName, EMPTY_SUMMARY, Error, Some(EMPTY_ERROR))
  {
  }

  /** The record for the empty path is the failure of its rejected extension. */
  lemma EmptyPathRecord(fileName: string, world: World)
    requires ParseDocument("", world.fs("")) == Err(Exc(ValueError, UnsupportedMessage("")))
    ensures ProcessFile(fileName, "", world) == Failed(fileName, Exc(ValueError, UnsupportedMessage("")))
  {
  }

  /**
   * A file without a name is reported as "unknown"; a file without a local
   * path is parsed at the empty path, whose empty extension is rejected, so
   * its record is an error rather than a failure of the run.
   */
  lemma MissingKeys(f: FileRecord, world: World)
    ensures f.name == None ==> ProcessRecord(f, world).fileName == "unknown"
    ensures f.localPath == None ==> ProcessRecord(f, world) == Failed(FileName(f), Exc(ValueError, UnsupportedMessage("")))
  {
    ProcessFileShape(FileName(f), LocalPath(f), world);
    if f.localPath == None {
      EmptyPathRejected(world.fs(""));
      EmptyPathRecord(FileName(f), world);
    }
  }

  /** A file as the Drive client hands it to the pipeline: its name, and its local path once downloaded. */
  function DriveRecord(f: DriveFile): FileRecord {
    FileRecord(Some(f.name), f.localPath)
  }

  /** `download_all_files(folder_id, download_dir)` as the pipeline's fetch step sees it. */
  function DriveFetch(downloadDir: string, replies: seq<ListReply>, download: nat -> DownloadOutcome): Result<seq<FileRecord>>
    requires EndsFrom(replies, 0)
  {
    match DownloadAllSpec(downloadDir, replies, download)
    case Err(e) => Err(e)
    case Ok(files) => Ok(MapPrefix(DriveRecord, files, |files|))
  }

  /**
   * When the files come from the Drive client, the run reports exactly the
   * listed files whose download succeeded, in listing order, each under its
   * own name and parsed at the download directory joined with that name.
   */
  lemma DriveFilesProcessed(folderId: string, downloadDir: string, world: World,
                            replies: seq<ListReply>, download: nat -> DownloadOutcome)
    requires EndsFrom(replies, 0)
    requires world.fetch(folderId, downloadDir) == DriveFetch(downloadDir, replies, download)
    requires DriveFetch(downloadDir, replies, download).Ok?
    ensures ListSpec(replies).Ok?
    ensures var listed := ListSpec(replies).value;
      var saved := SavedIndices(download, |listed|);
      && RunSpec(folderId, downloadDir, world).Ok?
      && |RunSpec(folderId, downloadDir, world).value| == |saved|
      && forall k | 0 <= k < |saved| ::
           && saved[k] < |listed|
           && RunSpec(folderId, downloadDir, world).value[k]
                == ProcessFile(listed[saved[k]].name, PathJoin(downloadDir, listed[saved[k]].name), world)
  {
    var listed := ListSpec(replies).value;
    var files := DownloadAllSpec(downloadDir, replies, download).value;
    var saved := SavedIndices(download, |listed|);
    if listed != [] {
      DownloadedSubsequence(listed, downloadDir, download, |listed|);
    }
    MapPrefixAt(DriveRecord, files, |files|);
    RunOnePerFile(folderId, downloadDir, world);
    var results := RunSpec(folderId, downloadDir, world).value;
    forall k | 0 <= k < |saved|
      ensures saved[k] < |listed|
      ensures results[k] == ProcessFile(listed[saved[k]].name, PathJoin(downloadDir, listed[saved[k]].name), world)
    {
      var f := files[k];
      assert f == WithPath(listed[saved[k]], downloadDir);
      assert results[k] == ProcessRecord(DriveRecord(f), world);
    }
  }
}
