/**
 * Dispatch of a document to the extractor for its file type: the extension
 * `os.path.splitext` gives, lower-cased, is looked up in a three-entry
 * table; any other extension is rejected with a `ValueError`.
 */
module ParserFactory {
  import opened Outcomes
  import opened PyStrings
  import opened PyPaths
  import opened PyDicts
  import opened TextParser
  import opened PdfParser
  import opened DocxParser

  datatype ParserKind = PdfKind | DocxKind | TxtKind

  /** `PARSER_MAP`, in its insertion order. */
  const PARSER_MAP: seq<(string, ParserKind)> := [(".pdf", PdfKind), (".docx", DocxKind), (".txt", TxtKind)]

  /** What the three document libraries see at one path; only the one the extension selects is consulted. */
  datatype FileView = FileView(pdf: PdfSource, docx: DocxSource, txt: Encoding -> ReadOutcome)

  /** The lower-cased extension of a path, as the dispatcher computes it. */
  function DispatchExtension(path: string): string {
    Lower(Extension(path))
  }

  /** The message of the `ValueError` for an unsupported extension. */
  function UnsupportedMessage(ext: string): string {
    "Unsupported file type: '" + ext + "'. Supported types are: " + Join(", ", Keys(PARSER_MAP))
  }

  /** `parse_document(path)`. */
  function ParseDocument(path: string, view: FileView): Result<string> {
    var ext := DispatchExtension(path);
    match Get<ParserKind>(PARSER_MAP, ext)
    case None => Err(Exc(ValueError, UnsupportedMessage(ext)))
    case Some(PdfKind) => PdfText(path, view.pdf)
    case Some(DocxKind) => DocxText(path, view.docx)
    case Some(TxtKind) => TryEncodings(path, view.txt, SUPPORTED_ENCODINGS)
  }

  /** Exactly `.pdf`, `.docx` and `.txt` are supported, and the message lists them in table order. */
  lemma SupportedExtensions(ext: string)
    ensures Get(PARSER_MAP, ext).Some? <==> ext == ".pdf" || ext == ".docx" || ext == ".txt"
    ensures Get(PARSER_MAP, ".pdf") == Some(PdfKind)
    ensures Get(PARSER_MAP, ".docx") == Some(DocxKind)
    ensures Get(PARSER_MAP, ".txt") == Some(TxtKind)
    ensures Join(", ", Keys(PARSER_MAP)) == ".pdf, .docx, .txt"
  {
    var keys := Keys(PARSER_MAP);
    KeysAt(PARSER_MAP);
    GetSpec(PARSER_MAP, ext);
    assert keys == [".pdf", ".docx", ".txt"];
    assert JoinPrefix(", ", keys, 2) == ".pdf, .docx";
  }

  /** The upper-case form of an ASCII letter; every other character is left as it is. */
  function UpperChar(c: char): char {
    if 'a' <= c <= 'z' then (c as int - 'a' as int + 'A' as int) as char else c
  }

  /**
   * A string lower-cases to a key without upper-case letters exactly when it
   * is that key with each letter written in either case.
   */
  lemma LowerMatchesKey(s: string, key: string)
    requires forall i | 0 <= i < |key| :: !('A' <= key[i] <= 'Z')
    ensures Lower(s) == key <==>
      |s| == |key| && forall i | 0 <= i < |s| :: s[i] == key[i] || s[i] == UpperChar(key[i])
  {
    if |s| == |key| && forall i | 0 <= i < |s| :: s[i] == key[i] || s[i] == UpperChar(key[i]) {
      forall i | 0 <= i < |s| ensures Lower(s)[i] == key[i] {
        assert Lower(s)[i] == LowerChar(s[i]);
      }
    }
    if Lower(s) == key {
      forall i | 0 <= i < |s| ensures s[i] == key[i] || s[i] == UpperChar(key[i]) {
        assert LowerChar(s[i]) == key[i];
      }
    }
  }

  /**
   * The extensions dispatched to each extractor are its key with every
   * letter in either case, so `.PDF` and `.Pdf` reach the PDF extractor.
   */
  lemma CaseInsensitiveKeys(ext: string)
    ensures Get(PARSER_MAP, Lower(ext)) == Some(PdfKind) <==>
      |ext| == 4 && forall i | 0 <= i < 4 :: ext[i] == ".pdf"[i] || ext[i] == ".PDF"[i]
    ensures Get(PARSER_MAP, Lower(ext)) == Some(DocxKind) <==>
      |ext| == 5 && forall i | 0 <= i < 5 :: ext[i] == ".docx"[i] || ext[i] == ".DOCX"[i]
    ensures Get(PARSER_MAP, Lower(ext)) == Some(TxtKind) <==>
      |ext| == 4 && forall i | 0 <= i < 4 :: ext[i] == ".txt"[i] || ext[i] == ".TXT"[i]
  {
    SupportedExtensions(Lower(ext));
    assert forall i | 0 <= i < 4 :: UpperChar(".pdf"[i]) == ".PDF"[i] && UpperChar(".txt"[i]) == ".TXT"[i];
    assert forall i | 0 <= i < 5 :: UpperChar(".docx"[i]) == ".DOCX"[i];
    LowerMatchesKey(ext, ".pdf");
    LowerMatchesKey(ext, ".docx");
    LowerMatchesKey(ext, ".txt");
  }

  /** The message of the `ValueError` names the extension and lists the supported ones in table order. */
  lemma UnsupportedMessageText(ext: string)
    ensures UnsupportedMessage(ext) == "Unsupported file type: '" + ext + "'. Supported types are: .pdf, .docx, .txt"
  {
    SupportedExtensions(ext);
  }

  /**
   * A file named `<name>.<suffix>` goes to the extractor its lower-cased
   * suffix names, in whatever case the suffix is written and whatever
   * directory it is in; any other suffix is a `ValueError` naming the
   * lower-cased extension and listing the supported ones.
   */
  lemma DispatchBySuffix(dir: string, name: string, suffix: string, view: FileView)
    requires forall k | 0 <= k < |name| :: name[k] != '/'
    requires exists k | 0 <= k < |name| :: name[k] != '.'
    requires forall k | 0 <= k < |suffix| :: suffix[k] != '.' && suffix[k] != '/'
    ensures var path, ext := dir + name + "." + suffix, Lower("." + suffix);
      && (ext == ".pdf" ==> ParseDocument(path, view) == PdfText(path, view.pdf))
      && (ext == ".docx" ==> ParseDocument(path, view) == DocxText(path, view.docx))
      && (ext == ".txt" ==> ParseDocument(path, view) == TryEncodings(path, view.txt, SUPPORTED_ENCODINGS))
      && (ext != ".pdf" && ext != ".docx" && ext != ".txt" ==>
            ParseDocument(path, view) == Err(Exc(ValueError, "Unsupported file type: '" + ext + "'. Supported types are: .pdf, .docx, .txt")))
  {
    var path, ext := dir + name + "." + suffix, Lower("." + suffix);
    ExtensionOf(dir, name, suffix);
    assert DispatchExtension(path) == ext;
    SupportedExtensions(ext);
    if ext != ".pdf" && ext != ".docx" && ext != ".txt" {
      UnsupportedMessageText(ext);
    }
  }

  /** An empty path has the empty extension, which is rejected with the message for `''`. */
  lemma EmptyPathRejected(view: FileView)
    ensures DispatchExtension("") == ""
    ensures ParseDocument("", view) == Err(Exc(ValueError, UnsupportedMessage("")))
  {
    assert Extension("") == "";
    SupportedExtensions("");
  }

  /**
   * A successful parse is the extractor's text unchanged, which is either
   * empty or has no whitespace at either end; a failure is a `ValueError`
   * for an unsupported extension or the extractor's own exception.
   */
  lemma ParseDocumentShape(path: string, view: FileView)
    ensures ParseDocument(path, view).Ok? ==> Trimmed(ParseDocument(path, view).value)
    ensures ParseDocument(path, view).Err? ==> ParseDocument(path, view).error.kind in {ValueError, RuntimeError, FileNotFoundError}
  {
    var ext := DispatchExtension(path);
    match Get<ParserKind>(PARSER_MAP, ext)
    case None =>
    case Some(PdfKind) =>
      if view.pdf.Pdf? {
        PdfTextShape(path, view.pdf.pages);
      }
    case Some(DocxKind) =>
      DocxTextTrimmed(path, view.docx);
    case Some(TxtKind) =>
      if ParseDocument(path, view).Ok? {
        ResultTrimmed(path, view.txt, SUPPORTED_ENCODINGS);
      } else {
        TxtErrors(path, view.txt, SUPPORTED_ENCODINGS);
      }
  }
}
