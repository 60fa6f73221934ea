/**
 * The summariser: blank text is answered without calling the language
 * model; other text is cut to a fixed budget, wrapped in a prompt naming
 * the document and sent to the model once, whose reply is returned as it
 * is. The model is a function from the request to a reply or an exception.
 */
module AiSummarizer {
  import opened Outcomes
  import opened PyStrings
  import opened SeqFacts

  /** The character budget for the document text. */
  const MAX_CHARS: nat := 12000

  /** Appended to text that was cut to the budget. */
  const TRUNCATION_NOTE := "\n\n[Note: Document was truncated due to length.]"

  const SYSTEM_PROMPT := "You are a professional document summarizer. "
    + "Your task is to read documents and produce clear, "
    + "concise, and accurate summaries in 5 to 10 sentences. "
    + "Focus on the main topics, key points, and conclusions."

  /** The answer for empty or whitespace-only text. */
  const NO_CONTENT := "No content available to summarize."

  /** One call of the language model: the system prompt and the user prompt. */
  datatype ChatRequest = ChatRequest(systemPrompt: string, userPrompt: string)

  /**
   * `_truncate(text)`: text within the budget is kept as it is; longer text
   * keeps exactly its first `MAX_CHARS` characters, followed by the note.
   */
  function Truncate(text: string): (r: string)
    ensures |text| <= MAX_CHARS ==> r == text
    ensures |text| > MAX_CHARS ==>
      (|r| == MAX_CHARS + |TRUNCATION_NOTE| && r[..MAX_CHARS] == text[..MAX_CHARS] && r[MAX_CHARS..] == TRUNCATION_NOTE)
    ensures |r| <= MAX_CHARS + |TRUNCATION_NOTE|
  {
    if |text| <= MAX_CHARS then text else text[..MAX_CHARS] + TRUNCATION_NOTE
  }

  /** The first line of the user prompt, naming the document in quotes. */
  function TitleLine(fileName: string): string {
    "Please summarize the following document titled '" + fileName + "'.\n"
  }

  const INSTRUCTIONS := "Provide a clear and concise summary in 5 to 10 sentences, "
    + "covering the main topics, key points, and conclusions.\n\n"

  /** The line right before the document text. */
  const CONTENT_LABEL := "Document Content:\n"

  /** The part of the user prompt before the document text. */
  function PromptHead(fileName: string): string {
    TitleLine(fileName) + INSTRUCTIONS + CONTENT_LABEL
  }

  /** `_build_prompt(text, file_name)`. */
  function BuildPrompt(text: string, fileName: string): string {
    PromptHead(fileName) + text
  }

  /** The model call `summarize` makes, or `None` when it answers without one. */
  function SummaryRequest(text: string, fileName: string): Option<ChatRequest> {
    if IsBlank(text) then None
    else Some(ChatRequest(SYSTEM_PROMPT, BuildPrompt(Truncate(text), fileName)))
  }

  /** `AISummarizer.summarize(text, file_name)` with the model `chat`. */
  function Summarize(text: string, fileName: string, chat: ChatRequest -> Result<string>): Result<string> {
    match SummaryRequest(text, fileName)
    case None => Ok(NO_CONTENT)
    case Some(request) => chat(request)
  }

  /** Truncating truncated text changes nothing. */
  lemma TruncateIdempotent(text: string)
    ensures Truncate(Truncate(text)) == Truncate(text)
  {
    if |text| > MAX_CHARS {
      var t := Truncate(text);
      assert t[..MAX_CHARS] == text[..MAX_CHARS];
    }
  }

  /**
   * The prompt starts with the line naming the document, ends with the
   * text, and the line before the text is "Document Content:".
   */
  lemma BuildPromptShape(text: string, fileName: string)
    ensures var p, title, tail := BuildPrompt(text, fileName), TitleLine(fileName), CONTENT_LABEL + text;
      && |title| + |tail| <= |p| && p[..|title|] == title && p[|p| - |tail|..] == tail
  {
    var title, tail := TitleLine(fileName), CONTENT_LABEL + text;
    ConcatAssoc(title + INSTRUCTIONS, CONTENT_LABEL, text);
    ConcatAssoc(title, INSTRUCTIONS, tail);
    ConcatHalves(title, INSTRUCTIONS + tail);
    ConcatHalves(INSTRUCTIONS, tail);
  }

  /** Prompts for the same document name are equal only for equal texts. */
  lemma BuildPromptInjective(t1: string, t2: string, fileName: string)
    requires BuildPrompt(t1, fileName) == BuildPrompt(t2, fileName)
    ensures t1 == t2
  {
    var head := PromptHead(fileName);
    assert t1 == BuildPrompt(t1, fileName)[|head|..];
    assert t2 == BuildPrompt(t2, fileName)[|head|..];
  }

  /** For empty or whitespace-only text the answer is fixed and the model is not consulted. */
  lemma BlankNeedsNoModel(text: string, fileName: string, chat1: ChatRequest -> Result<string>, chat2: ChatRequest -> Result<string>)
    requires IsBlank(text)
    ensures Summarize(text, fileName, chat1) == Summarize(text, fileName, chat2) == Ok(NO_CONTENT)
  {
  }

  /**
   * Otherwise the model is asked once, with the fixed system prompt and a
   * prompt that ends with the text cut to the budget, and its reply or its
   * exception is the result.
   */
  lemma ModelAskedOnce(text: string, fileName: string, chat: ChatRequest -> Result<string>)
    requires !IsBlank(text)
    ensures var request := SummaryRequest(text, fileName);
      && request.Some?
      && request.value.systemPrompt == SYSTEM_PROMPT
      && request.value.userPrompt == PromptHead(fileName) + Truncate(text)
      && (|text| <= MAX_CHARS ==> request.value.userPrompt[|PromptHead(fileName)|..] == text)
      && Summarize(text, fileName, chat) == chat(request.value)
  {
  }
}
