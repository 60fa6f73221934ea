/**
 * The Google Drive client: list the supported files of a folder page by
 * page, tagging each with the extension its MIME type maps to, then
 * download them one by one, keeping those whose download succeeded. The
 * Drive service is modelled by its replies: the reply to each listing
 * request in turn, and the outcome of downloading each listed file.
 */
module DriveClient {
  import opened Outcomes
  import opened PyStrings
  import opened PyPaths
  import opened PyDicts
  import opened SeqFacts

  const PDF_MIME := "application/pdf"
  const DOCX_MIME := "application/vnd.openxmlformats-officedocument.wordprocessingml.document"
  const TXT_MIME := "text/plain"

  /** `SUPPORTED_MIME_TYPES`, in insertion order. */
  const SUPPORTED_MIME_TYPES: seq<(string, string)> := [(PDF_MIME, ".pdf"), (DOCX_MIME, ".docx"), (TXT_MIME, ".txt")]

  /** `SUPPORTED_MIME_TYPES.get(mime, "")`. */
  function MimeExtension(mime: string): string {
    match Get(SUPPORTED_MIME_TYPES, mime)
    case None => ""
    case Some(ext) => ext
  }

  /** The query clause selecting one MIME type. */
  function MimeClause(mime: string): string {
    "mimeType='" + mime + "'"
  }

  /** One clause per MIME type, in order. */
  function MimeClauses(mimes: seq<string>): (r: seq<string>)
    ensures |r| == |mimes| && forall i | 0 <= i < |r| :: r[i] == MimeClause(mimes[i])
  {
    if mimes == [] then [] else [MimeClause(mimes[0])] + MimeClauses(mimes[1..])
  }

  /** The clauses joined by " or ". */
  function MimeQuery(): string {
    Join(" or ", MimeClauses(Keys(SUPPORTED_MIME_TYPES)))
  }

  /** The listing query for a folder. */
  function Query(folderId: string): string {
    "'" + folderId + "' in parents and (" + MimeQuery() + ") and trashed=false"
  }

  /** A file as the listing reports it (the fields requested are `id`, `name` and `mimeType`). */
  datatype RawFile = RawFile(id: string, name: string, mimeType: string)

  /** A file as the client hands it on: tagged with its extension, and with its local path once downloaded. */
  datatype DriveFile = DriveFile(id: string, name: string, mimeType: string, extension: string, localPath: Option<string>)

  /** One listing request: the query and the page token. */
  datatype ListRequest = ListRequest(q: string, pageToken: Option<string>)

  /** The reply to one listing request: a page of files and the next page token, or an exception. */
  datatype ListReply =
    | Page(files: seq<RawFile>, nextPageToken: Option<string>)
    | ListFailed(reason: string)

  /** A reply after which no further page is requested. */
  predicate EndsListing(reply: ListReply) {
    reply.ListFailed? || reply.nextPageToken == None || reply.nextPageToken == Some("")
  }

  /** Some reply at or after `from` ends the listing. */
  predicate EndsFrom(replies: seq<ListReply>, from: nat) {
    exists k | from <= k < |replies| :: EndsListing(replies[k])
  }

  /** The index of the first reply at or after `from` that ends the listing. */
  function FirstEnd(replies: seq<ListReply>, from: nat): (k: nat)
    requires from <= |replies| && EndsFrom(replies, from)
    ensures from <= k < |replies| && EndsListing(replies[k])
    ensures forall j | from <= j < k :: !EndsListing(replies[j])
    decreases |replies| - from
  {
    if EndsListing(replies[from]) then from
    else
      assert EndsFrom(replies, from + 1) by {
        var k :| from <= k < |replies| && EndsListing(replies[k]);
        assert k != from;
      }
      FirstEnd(replies, from + 1)
  }

  /** The file tagged with the extension of its MIME type. */
  function Tag(f: RawFile): DriveFile {
    DriveFile(f.id, f.name, f.mimeType, MimeExtension(f.mimeType), None)
  }

  /** The first `n` files of a page, tagged, in order. */
  function Tagged(files: seq<RawFile>, n: nat): seq<DriveFile>
    requires n <= |files|
  {
    if n == 0 then [] else Tagged(files, n - 1) + [Tag(files[n - 1])]
  }

  /** The tagged files of one reply; an exception contributes none. */
  function PageFiles(reply: ListReply): seq<DriveFile> {
    match reply
    case Page(files, _) => Tagged(files, |files|)
    case ListFailed(_) => []
  }

  /** The tagged files of the first `n` replies, page after page. */
  function ListedFiles(replies: seq<ListReply>, n: nat): seq<DriveFile>
    requires n <= |replies|
  {
    if n == 0 then [] else ListedFiles(replies, n - 1) + PageFiles(replies[n - 1])
  }

  /** The result of `list_files`. */
  function ListSpec(replies: seq<ListReply>): Result<seq<DriveFile>>
    requires EndsFrom(replies, 0)
  {
    var last := FirstEnd(replies, 0);
    match replies[last]
    case ListFailed(reason) => Err(Exc(RuntimeError, "Failed to list files from Google Drive: " + reason))
    case Page(_, _) => Ok(ListedFiles(replies, last + 1))
  }

  /** The page token of the `k`-th listing request: none for the first, then the token of the reply before. */
  function TokenFor(replies: seq<ListReply>, k: nat): Option<string>
    requires k <= |replies|
  {
    if k == 0 || replies[k - 1].ListFailed? then None else replies[k - 1].nextPageToken
  }

  /** The first `n` listing requests, each with the query and its page token. */
  function RequestsSent(q: string, replies: seq<ListReply>, n: nat): seq<ListRequest>
    requires n <= |replies|
  {
    if n == 0 then [] else RequestsSent(q, replies, n - 1) + [ListRequest(q, TokenFor(replies, n - 1))]
  }

  /**
   * `list_files(folder_id)`: the listing, and the requests it sent. Every
   * request carries the query; the first has no page token and each later
   * one the token of the reply before it; none is sent after the reply
   * that ends the listing.
   */
  method ListFiles(folderId: string, replies: seq<ListReply>) returns (r: Result<seq<DriveFile>>, requests: seq<ListRequest>)
    requires EndsFrom(replies, 0)
    ensures r == ListSpec(replies)
    ensures requests == RequestsSent(Query(folderId), replies, FirstEnd(replies, 0) + 1)
  {
    var query := Query(folderId);
    var files: seq<DriveFile> := [];
    var pageToken: Option<string> := None;
    requests := [];
    ghost var last := FirstEnd(replies, 0);
    var i := 0;
    while true
      invariant 0 <= i <= last
      invariant files == ListedFiles(replies, i)
      invariant requests == RequestsSent(query, replies, i)
      invariant pageToken == TokenFor(replies, i)
      decreases last - i
    {
      requests := requests + [ListRequest(query, pageToken)];
      assert requests == RequestsSent(query, replies, i + 1);
      var response := replies[i];
      ListEndsAt(replies, i);
      if response.ListFailed? {
        r := Err(Exc(RuntimeError, "Failed to list files from Google Drive: " + response.reason));
        return;
      }
      files := AppendTagged(files, response.files);
      assert files == ListedFiles(replies, i + 1);
      pageToken := response.nextPageToken;
      if pageToken == None || pageToken == Some("") {
        r := Ok(files);
        return;
      }
      i := i + 1;
    }
  }

  /** A reply no later than the first one that ends the listing, and ending it, is that first one. */
  lemma ListEndsAt(replies: seq<ListReply>, i: nat)
    requires EndsFrom(replies, 0) && i <= FirstEnd(replies, 0)
    ensures EndsListing(replies[i]) ==> i == FirstEnd(replies, 0)
    ensures EndsListing(replies[i]) && replies[i].ListFailed? ==>
      ListSpec(replies) == Err(Exc(RuntimeError, "Failed to list files from Google Drive: " + replies[i].reason))
    ensures EndsListing(replies[i]) && replies[i].Page? ==> ListSpec(replies) == Ok(ListedFiles(replies, i + 1))
  {
  }

  /** The loop over one page's files: append each, tagged. */
  method AppendTagged(files: seq<DriveFile>, page: seq<RawFile>) returns (out: seq<DriveFile>)
    ensures out == files + Tagged(page, |page|)
  {
    out := files;
    for j := 0 to |page|
      invariant out == files + Tagged(page, j)
    {
      out := out + [Tag(page[j])];
      ConcatAssoc(files, Tagged(page, j), [Tag(page[j])]);
    }
  }

  /** What downloading one listed file does. */
  datatype DownloadOutcome =
    | Saved                      // the file was written to its local path
    | TransferFailed             // the transfer or the write raised, reported as a RuntimeError
    | MakeDirsFailed(reason: string)  // creating the download directory raised an OSError

  /** The file with its local path set to the download directory joined with its name. */
  function WithPath(f: DriveFile, downloadDir: string): DriveFile {
    f.(localPath := Some(PathJoin(downloadDir, f.name)))
  }

  /** The result of the download loop after the first `n` files; `download(k)` is what downloading file `k` does. */
  function Downloaded(files: seq<DriveFile>, downloadDir: string, download: nat -> DownloadOutcome, n: nat): Result<seq<DriveFile>>
    requires n <= |files|
  {
    if n == 0 then Ok([])
    else match Downloaded(files, downloadDir, download, n - 1)
      case Err(e) => Err(e)
      case Ok(done) =>
        match download(n - 1)
        case Saved => Ok(done + [WithPath(files[n - 1], downloadDir)])
        case TransferFailed => Ok(done)
        case MakeDirsFailed(reason) => Err(Exc(OSError, reason))
  }

  /** The result of `download_all_files`. */
  function DownloadAllSpec(downloadDir: string, replies: seq<ListReply>, download: nat -> DownloadOutcome): Result<seq<DriveFile>>
    requires EndsFrom(replies, 0)
  {
    match ListSpec(replies)
    case Err(e) => Err(e)
    case Ok(files) => if files == [] then Ok([]) else Downloaded(files, downloadDir, download, |files|)
  }

  /** `download_all_files(folder_id, download_dir)`. */
  method DownloadAllFiles(folderId: string, downloadDir: string, replies: seq<ListReply>, download: nat -> DownloadOutcome)
    returns (r: Result<seq<DriveFile>>)
    requires EndsFrom(replies, 0)
    ensures r == DownloadAllSpec(downloadDir, replies, download)
  {
    var listing, _ := ListFiles(folderId, replies);
    if listing.Err? {
      return Err(listing.error);
    }
    var files := listing.value;
    if files == [] {
      return Ok([]);
    }
    var downloaded: seq<DriveFile> := [];
    for i := 0 to |files|
      invariant Downloaded(files, downloadDir, download, i) == Ok(downloaded)
    {
      match download(i) {
        case Saved =>
          downloaded := downloaded + [WithPath(files[i], downloadDir)];
        case TransferFailed =>
        case MakeDirsFailed(reason) =>
          DownloadedErrorSticks(files, downloadDir, download, i + 1, |files|);
          return Err(Exc(OSError, reason));
      }
    }
    return Ok(downloaded);
  }

  /** Exactly three MIME types are supported, mapped to `.pdf`, `.docx` and `.txt`; any other maps to "". */
  lemma MimeTable(mime: string)
    ensures MimeExtension(PDF_MIME) == ".pdf"
    ensures MimeExtension(DOCX_MIME) == ".docx"
    ensures MimeExtension(TXT_MIME) == ".txt"
    ensures MimeExtension(mime) != "" <==> mime == PDF_MIME || mime == DOCX_MIME || mime == TXT_MIME
  {
    var table := SUPPORTED_MIME_TYPES;
    assert |PDF_MIME| != |DOCX_MIME| && |PDF_MIME| != |TXT_MIME| && |DOCX_MIME| != |TXT_MIME|;
    assert table[1..] == [(DOCX_MIME, ".docx"), (TXT_MIME, ".txt")];
    assert table[1..][1..] == [(TXT_MIME, ".txt")];
    assert Get(table, DOCX_MIME) == Get(table[1..], DOCX_MIME) == Some(".docx");
    assert Get(table, TXT_MIME) == Get(table[1..], TXT_MIME) == Get(table[1..][1..], TXT_MIME) == Some(".txt");
    GetSpec(table, mime);
  }

  /** The query selects the three MIME types in table order, joined by " or ". */
  lemma MimeQueryText()
    ensures MimeQuery() == MimeClause(PDF_MIME) + " or " + MimeClause(DOCX_MIME) + " or " + MimeClause(TXT_MIME)
  {
    var keys := Keys(SUPPORTED_MIME_TYPES);
    KeysAt(SUPPORTED_MIME_TYPES);
    assert keys == [PDF_MIME, DOCX_MIME, TXT_MIME];
    var clauses := MimeClauses(keys);
    assert clauses == [MimeClause(PDF_MIME), MimeClause(DOCX_MIME), MimeClause(TXT_MIME)];
    assert JoinPrefix(" or ", clauses, 2) == MimeClause(PDF_MIME) + " or " + MimeClause(DOCX_MIME);
  }

  /**
   * The requests sent: as many as replies consumed, all with the query, the
   * first without a page token and each later one with the token of the
   * reply before it.
   */
  lemma {:induction false} RequestsSentShape(q: string, replies: seq<ListReply>, n: nat)
    requires n <= |replies| && forall j | 0 <= j < n - 1 :: replies[j].Page?
    ensures var sent := RequestsSent(q, replies, n);
      && |sent| == n
      && (forall k | 0 <= k < n :: sent[k].q == q)
      && (n > 0 ==> sent[0].pageToken == None)
      && (forall k | 0 < k < n :: sent[k].pageToken == replies[k - 1].nextPageToken)
  {
    if n > 0 {
      RequestsSentShape(q, replies, n - 1);
    }
  }

  /** The listing of fewer replies is a prefix of the listing of more. */
  lemma {:induction false} ListedFilesPrefix(replies: seq<ListReply>, m: nat, n: nat)
    requires m <= n <= |replies|
    ensures ListedFiles(replies, m) <= ListedFiles(replies, n)
    decreases n
  {
    if m < n {
      ListedFilesPrefix(replies, m, n - 1);
      PrefixExtends(ListedFiles(replies, m), ListedFiles(replies, n - 1), PageFiles(replies[n - 1]));
    }
  }

  /** Tagging keeps the files' number and order. */
  lemma {:induction false} TaggedAt(files: seq<RawFile>, n: nat)
    requires n <= |files|
    ensures |Tagged(files, n)| == n
    ensures forall j | 0 <= j < n :: Tagged(files, n)[j] == Tag(files[j])
  {
    if n > 0 {
      TaggedAt(files, n - 1);
      var before := Tagged(files, n - 1);
      assert Tagged(files, n) == before + [Tag(files[n - 1])];
      forall j | 0 <= j < n
        ensures Tagged(files, n)[j] == Tag(files[j])
      {
        if j < n - 1 {
          assert Tagged(files, n)[j] == before[j];
        }
      }
    }
  }

  /** The files of page `k` follow the files of the pages before it, tagged and in order. */
  lemma PageFilesAfter(replies: seq<ListReply>, k: nat, j: nat)
    requires k < |replies| && replies[k].Page? && j < |replies[k].files|
    ensures var at := |ListedFiles(replies, k)| + j;
      at < |ListedFiles(replies, k + 1)| && ListedFiles(replies, k + 1)[at] == Tag(replies[k].files[j])
  {
    var files := replies[k].files;
    TaggedAt(files, |files|);
    assert ListedFiles(replies, k + 1) == ListedFiles(replies, k) + Tagged(files, |files|);
  }

  /**
   * Page `k` of the listing contributes its files, tagged and in order,
   * right after the files of the pages before it, whatever pages follow.
   */
  lemma PageFilesInPlace(replies: seq<ListReply>, n: nat, k: nat, j: nat)
    requires n <= |replies| && k < n && replies[k].Page? && j < |replies[k].files|
    ensures var at := |ListedFiles(replies, k)| + j;
      at < |ListedFiles(replies, n)| && ListedFiles(replies, n)[at] == Tag(replies[k].files[j])
  {
    PageFilesAfter(replies, k, j);
    ListedFilesPrefix(replies, k + 1, n);
    PrefixAt(ListedFiles(replies, k + 1), ListedFiles(replies, n), |ListedFiles(replies, k)| + j);
  }

  /** Every listed file carries the extension its MIME type maps to, and no local path yet. */
  lemma {:induction false} ListedFilesTagged(replies: seq<ListReply>, n: nat)
    requires n <= |replies|
    ensures forall f | f in ListedFiles(replies, n) :: f.extension == MimeExtension(f.mimeType) && f.localPath == None
  {
    if n > 0 {
      ListedFilesTagged(replies, n - 1);
      var page := PageFiles(replies[n - 1]);
      assert ListedFiles(replies, n) == ListedFiles(replies, n - 1) + page;
      if replies[n - 1].Page? {
        TaggedAt(replies[n - 1].files, |replies[n - 1].files|);
      }
      forall f | f in page
        ensures f.extension == MimeExtension(f.mimeType) && f.localPath == None
      {
        var j :| 0 <= j < |page| && page[j] == f;
      }
    }
  }

  /**
   * The listing fails exactly when the reply that ends it is an exception;
   * otherwise it holds the files of every page up to and including that one.
   */
  lemma ListSpecShape(replies: seq<ListReply>)
    requires EndsFrom(replies, 0)
    ensures var last := FirstEnd(replies, 0);
      && (forall k | 0 <= k < last :: replies[k].Page? && replies[k].nextPageToken !in {None, Some("")})
      && (ListSpec(replies).Err? <==> replies[last].ListFailed?)
      && (ListSpec(replies).Ok? ==> forall f | f in ListSpec(replies).value :: f.extension == MimeExtension(f.mimeType))
  {
    var last := FirstEnd(replies, 0);
    if replies[last].Page? {
      ListedFilesTagged(replies, last + 1);
    }
  }

  /** Once the download loop has failed, its result stays that failure. */
  lemma {:induction false} DownloadedErrorSticks(files: seq<DriveFile>, downloadDir: string, download: nat -> DownloadOutcome, m: nat, n: nat)
    requires m <= n <= |files|
    requires Downloaded(files, downloadDir, download, m).Err?
    ensures Downloaded(files, downloadDir, download, n) == Downloaded(files, downloadDir, download, m)
    decreases n
  {
    if m < n {
      DownloadedErrorSticks(files, downloadDir, download, m, n - 1);
    }
  }

  /** The download loop fails only with the `OSError` of creating the directory, at the first file where it happens. */
  lemma {:induction false} DownloadedErrors(files: seq<DriveFile>, downloadDir: string, download: nat -> DownloadOutcome, n: nat)
    requires n <= |files|
    ensures Downloaded(files, downloadDir, download, n).Ok? <==> forall k | 0 <= k < n :: !download(k).MakeDirsFailed?
    ensures Downloaded(files, downloadDir, download, n).Err? ==> Downloaded(files, downloadDir, download, n).error.kind == OSError
  {
    if n > 0 {
      DownloadedErrors(files, downloadDir, download, n - 1);
    }
  }

  /** The indices among the first `n` whose download succeeded, in increasing order. */
  function SavedIndices(download: nat -> DownloadOutcome, n: nat): seq<nat> {
    if n == 0 then [] else SavedIndices(download, n - 1) + (if download(n - 1) == Saved then [n - 1] else [])
  }

  /** Each saved index is below `n` and its download succeeded. */
  lemma {:induction false} SavedIndicesSaved(download: nat -> DownloadOutcome, n: nat)
    ensures forall j | 0 <= j < |SavedIndices(download, n)| ::
      SavedIndices(download, n)[j] < n && download(SavedIndices(download, n)[j]) == Saved
  {
    if n > 0 {
      SavedIndicesSaved(download, n - 1);
      var prev := SavedIndices(download, n - 1);
      if download(n - 1) == Saved {
        var idx := prev + [n - 1];
        assert SavedIndices(download, n) == idx;
        forall j | 0 <= j < |idx|
          ensures idx[j] < n && download(idx[j]) == Saved
        {
          if j < |prev| {
            assert idx[j] == prev[j];
          }
        }
      } else {
        assert SavedIndices(download, n) == prev;
      }
    }
  }

  /** The saved indices are strictly increasing. */
  lemma {:induction false} SavedIndicesIncreasing(download: nat -> DownloadOutcome, n: nat)
    ensures forall j1, j2 | 0 <= j1 < j2 < |SavedIndices(download, n)| ::
      SavedIndices(download, n)[j1] < SavedIndices(download, n)[j2]
  {
    if n > 0 {
      SavedIndicesIncreasing(download, n - 1);
      SavedIndicesSaved(download, n - 1);
      var prev := SavedIndices(download, n - 1);
      if download(n - 1) == Saved {
        var idx := prev + [n - 1];
        assert SavedIndices(download, n) == idx;
        forall j1, j2 | 0 <= j1 < j2 < |idx|
          ensures idx[j1] < idx[j2]
        {
          assert idx[j1] == prev[j1];
        }
      } else {
        assert SavedIndices(download, n) == prev;
      }
    }
  }

  /** Every index below `n` whose download succeeded is a saved index. */
  lemma {:induction false} SavedIndicesComplete(download: nat -> DownloadOutcome, n: nat)
    ensures forall k | 0 <= k < n && download(k) == Saved :: k in SavedIndices(download, n)
  {
    if n > 0 {
      SavedIndicesComplete(download, n - 1);
      var prev := SavedIndices(download, n - 1);
      if download(n - 1) == Saved {
        var idx := prev + [n - 1];
        assert SavedIndices(download, n) == idx;
        forall k | 0 <= k < n && download(k) == Saved
          ensures k in idx
        {
          if k < n - 1 {
            assert k in prev;
          } else {
            assert idx[|prev|] == k;
          }
        }
      } else {
        assert SavedIndices(download, n) == prev;
      }
    }
  }

  /**
   * A successful download loop keeps exactly the files whose download
   * succeeded, in listing order, each with its local path: the kept file at
   * position `j` is the listed file at the `j`-th saved index.
   */
  lemma {:induction false} DownloadedSubsequence(files: seq<DriveFile>, downloadDir: string, download: nat -> DownloadOutcome, n: nat)
    requires n <= |files|
    requires Downloaded(files, downloadDir, download, n).Ok?
    ensures |SavedIndices(download, n)| == |Downloaded(files, downloadDir, download, n).value|
    ensures forall j | 0 <= j < |SavedIndices(download, n)| ::
      && SavedIndices(download, n)[j] < n
      && Downloaded(files, downloadDir, download, n).value[j] == WithPath(files[SavedIndices(download, n)[j]], downloadDir)
  {
    if n > 0 {
      var previous := Downloaded(files, downloadDir, download, n - 1);
      assert previous.Ok?;
      DownloadedSubsequence(files, downloadDir, download, n - 1);
      var prev := SavedIndices(download, n - 1);
      if download(n - 1) == Saved {
        var kept := WithPath(files[n - 1], downloadDir);
        var done, idx := previous.value + [kept], prev + [n - 1];
        assert Downloaded(files, downloadDir, download, n) == Ok(done);
        assert SavedIndices(download, n) == idx;
        forall j | 0 <= j < |idx|
          ensures idx[j] < n && done[j] == WithPath(files[idx[j]], downloadDir)
        {
          if j < |prev| {
            assert idx[j] == prev[j] && done[j] == previous.value[j];
          } else {
            assert idx[j] == n - 1 && done[j] == kept;
          }
        }
      } else {
        assert Downloaded(files, downloadDir, download, n) == previous;
        assert SavedIndices(download, n) == prev;
      }
    }
  }

  /** When every download succeeds, every file is kept, in order, with its local path. */
  lemma {:induction false} AllSavedKeepsAll(files: seq<DriveFile>, downloadDir: string, download: nat -> DownloadOutcome, n: nat)
    requires n <= |files|
    requires forall k | 0 <= k < n :: download(k) == Saved
    ensures Downloaded(files, downloadDir, download, n).Ok?
    ensures |Downloaded(files, downloadDir, download, n).value| == n
    ensures forall k | 0 <= k < n :: Downloaded(files, downloadDir, download, n).value[k] == WithPath(files[k], downloadDir)
  {
    if n > 0 {
      AllSavedKeepsAll(files, downloadDir, download, n - 1);
      var previous := Downloaded(files, downloadDir, download, n - 1).value;
      var done := previous + [WithPath(files[n - 1], downloadDir)];
      assert download(n - 1) == Saved;
      assert Downloaded(files, downloadDir, download, n) == Ok(done);
      forall k | 0 <= k < n
        ensures done[k] == WithPath(files[k], downloadDir)
      {
        if k < n - 1 {
          assert done[k] == previous[k];
        }
      }
    }
  }
}
