/**
 * Plain-text extraction: open the file with each supported encoding in turn
 * and keep the first decoding that is not blank, stripped. The file system
 * and the codecs are modelled by what one attempt to read the file with a
 * given encoding produces.
 */
module TextParser {
  import opened Outcomes
  import opened PyStrings

  datatype Encoding = Utf8 | Utf16 | Latin1 | Cp1252

  /** The encodings tried, in this order. */
  const SUPPORTED_ENCODINGS: seq<Encoding> := [Utf8, Utf16, Latin1, Cp1252]

  /** What `open(path, "r", encoding=e).read()` gives for one encoding. */
  datatype ReadOutcome =
    | Decoded(text: string)       // the whole file, decoded
    | DecodeFailed                // UnicodeDecodeError or UnicodeError
    | NotFound                    // FileNotFoundError
    | ReadFailed(reason: string)  // any other exception

  /** An attempt after which the next encoding is tried: a decoding error, or a blank decoding. */
  predicate Skipped(o: ReadOutcome) {
    o.DecodeFailed? || (o.Decoded? && IsBlank(o.text))
  }

  /** The result of the extractor once an attempt that is not skipped has been made. */
  function Decisive(path: string, o: ReadOutcome): Result<string>
    requires !Skipped(o)
  {
    match o
    case Decoded(text) => Ok(Strip(text))
    case NotFound => Err(Exc(FileNotFoundError, "File not found: " + path))
    case ReadFailed(_) => Err(Exc(RuntimeError, "Failed to parse TXT: " + path))
  }

  /** The extractor's result when the encodings `encs` remain to be tried. */
  function TryEncodings(path: string, read: Encoding -> ReadOutcome, encs: seq<Encoding>): Result<string>
  {
    if encs == [] then Ok("")
    else match read(encs[0])
      case Decoded(text) =>
        if Strip(text) != [] then Ok(Strip(text)) else TryEncodings(path, read, encs[1..])
      case DecodeFailed => TryEncodings(path, read, encs[1..])
      case NotFound => Err(Exc(FileNotFoundError, "File not found: " + path))
      case ReadFailed(_) => Err(Exc(RuntimeError, "Failed to parse TXT: " + path))
  }

  /** `extract_text_from_txt(path)`. */
  method ExtractTextFromTxt(path: string, read: Encoding -> ReadOutcome) returns (r: Result<string>)
    ensures r == TryEncodings(path, read, SUPPORTED_ENCODINGS)
  {
    for i := 0 to |SUPPORTED_ENCODINGS|
      invariant TryEncodings(path, read, SUPPORTED_ENCODINGS) == TryEncodings(path, read, SUPPORTED_ENCODINGS[i..])
    {
      var encoding := SUPPORTED_ENCODINGS[i];
      assert SUPPORTED_ENCODINGS[i..][1..] == SUPPORTED_ENCODINGS[i + 1..];
      match read(encoding) {
        case Decoded(text) =>
          var stripped := Strip(text);
          if stripped != [] {
            return Ok(stripped);
          }
        case DecodeFailed =>
        case NotFound =>
          return Err(Exc(FileNotFoundError, "File not found: " + path));
        case ReadFailed(_) =>
          return Err(Exc(RuntimeError, "Failed to parse TXT: " + path));
      }
    }
    return Ok("");
  }

  /** The first attempt that is not skipped decides the result; every earlier one moved on. */
  lemma {:induction false} FirstDecisiveWins(path: string, read: Encoding -> ReadOutcome, encs: seq<Encoding>, k: nat)
    requires k < |encs| && !Skipped(read(encs[k]))
    requires forall j | 0 <= j < k :: Skipped(read(encs[j]))
    ensures TryEncodings(path, read, encs) == Decisive(path, read(encs[k]))
    decreases k
  {
    var first := read(encs[0]);
    if first.Decoded? {
      StripEmptyIff(first.text);
    }
    if k > 0 {
      assert Skipped(first);
      forall j | 0 <= j < k - 1 ensures Skipped(read(encs[1..][j])) {
        assert encs[1..][j] == encs[j + 1];
      }
      assert encs[1..][k - 1] == encs[k];
      FirstDecisiveWins(path, read, encs[1..], k - 1);
    }
  }

  /** The result is the empty string exactly when every attempt was skipped. */
  lemma {:induction false} EmptyIffAllSkipped(path: string, read: Encoding -> ReadOutcome, encs: seq<Encoding>)
    ensures TryEncodings(path, read, encs) == Ok("") <==> forall j | 0 <= j < |encs| :: Skipped(read(encs[j]))
    decreases |encs|
  {
    if encs != [] {
      StripEmptyIff(if read(encs[0]).Decoded? then read(encs[0]).text else "");
      EmptyIffAllSkipped(path, read, encs[1..]);
      assert forall j | 1 <= j < |encs| :: encs[j] == encs[1..][j - 1];
    }
  }

  /** A successful result carries no whitespace at either end. */
  lemma {:induction false} ResultTrimmed(path: string, read: Encoding -> ReadOutcome, encs: seq<Encoding>)
    requires TryEncodings(path, read, encs).Ok?
    ensures Trimmed(TryEncodings(path, read, encs).value)
    decreases |encs|
  {
    if encs != [] && TryEncodings(path, read, encs) == TryEncodings(path, read, encs[1..]) {
      ResultTrimmed(path, read, encs[1..]);
    }
  }

  /** A failure is a `FileNotFoundError` for a missing file or a `RuntimeError` naming the path; a decoding problem never is one. */
  lemma {:induction false} TxtErrors(path: string, read: Encoding -> ReadOutcome, encs: seq<Encoding>)
    ensures TryEncodings(path, read, encs).Err? ==>
      TryEncodings(path, read, encs).error in {Exc(FileNotFoundError, "File not found: " + path), Exc(RuntimeError, "Failed to parse TXT: " + path)}
    decreases |encs|
  {
    if encs != [] {
      TxtErrors(path, read, encs[1..]);
    }
  }
}
