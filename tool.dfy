/** The `Tools` class of the Open WebUI MarkItDown tool: `convert_to_markdown`
    and its two wrappers `convert_webpage` and `extract_pdf_text`.
    The class has no fields, so each method is a function of its argument and of
    what the outside world does: whether `from markitdown import MarkItDown`
    succeeds, and what the conversion library answers for a URL. */
module MarkItDownTool {
  import opened PyText

  datatype Option<T> = None | Some(value: T)

  /** What the conversion library reports for one URL. */
  datatype Conversion =
    | Converted(text: string)   // `md.convert(url)` returned; "" stands for a falsy result or empty `text_content`
    | Raised(message: string)   // `MarkItDown()` or `md.convert(url)` raised; `message` is `str(e)`

  /** The world outside the tool: the outcome of importing the library (the
      exception's text when it fails) and the library's answer for each URL. */
  datatype Environment = Environment(importError: Option<string>, convert: string -> Conversion)

  const UsageText: string :=
    "Please provide a URL to convert. \n\n"
    + "Examples:\n- Convert https://github.com to markdown\n"
    + "- Convert https://example.com/document.pdf to markdown\n"
    + "- Convert example.com to markdown\n\n"
    + "You can provide any webpage URL, PDF link, or supported document URL."

  /** Inputs that are the command itself rather than a URL, compared after lower-casing. */
  const Placeholders: seq<string> := ["convert to markdown", "convert", "markdown", ""]

  const DefaultScheme: string := "https://"
  const MaxLength: nat := 10000
  const TruncationNotice: string := "\n\n... (content truncated)"
  const WebpagePrompt: string := "Please provide a webpage URL to convert."
  const PdfPrompt: string := "Please provide a PDF URL to extract text from."

  /** The advice that follows the quoted input in the parse-failure reply. */
  const ParseFailureAdvice: string :=
    "' as a valid URL. \n\n"
    + "Please provide a valid URL like:\n"
    + "- https://example.com\n"
    + "- example.com\n"
    + "- https://example.com/document.pdf"

  /** The refusal of an input that is neither a URL with a scheme nor a bare domain. */
  function ParseFailure(url: string): (r: string)
    ensures "I couldn't parse '" <= r && Contains(r, url)
  {
    ContainsInfix("I couldn't parse '", url, ParseFailureAdvice);
    "I couldn't parse '" + url + ParseFailureAdvice
  }

  /** The header put in front of the converted text. */
  function Attribution(url: string): (r: string)
    ensures "# Content from: " <= r && Contains(r, url)
    ensures |r| == |url| + 18 && r[|r| - 2..] == "\n\n"
  {
    ContainsInfix("# Content from: ", url, "\n\n");
    "# Content from: " + url + "\n\n"
  }

  const NoContentAdvice: string := "." + " The page might be empty or blocked."

  /** The reply when the library returns no text. */
  function NoContent(url: string): (r: string)
    ensures "Could not extract content from " <= r && Contains(r, url)
  {
    ContainsInfix("Could not extract content from ", url, NoContentAdvice);
    "Could not extract content from " + url + NoContentAdvice
  }

  /** The reply to an exception whose text mentions `404`. */
  function NotFound(url: string): (r: string)
    ensures "Error" <= r && Contains(r, url) && Contains(r, "not found (404 error)")
  {
    var head := "Error: The URL " + url + " was ";
    ContainsInfix("Error: The URL ", url, " was not found (404 error)");
    ContainsInfix(head, "not found (404 error)", "");
    assert head + "not found (404 error)" + "" == "Error: The URL " + url + " was not found (404 error)";
    "Error: The URL " + url + " was not found (404 error)"
  }

  const TimedOutAdvice: string := " timed out." + " The site might be slow or unreachable."

  /** The reply to an exception whose text mentions `timeout` in some letter case. */
  function TimedOut(url: string): (r: string)
    ensures "Error" <= r && Contains(r, url)
  {
    ContainsInfix("Error: The request to ", url, TimedOutAdvice);
    "Error: The request to " + url + TimedOutAdvice
  }

  /** The reply to any other exception: it passes the exception's text on. */
  function ConversionError(url: string, error: string): (r: string)
    ensures "Error" <= r && Contains(r, url) && Contains(r, error)
    ensures |error| < |r| && r[|r| - |error|..] == error
  {
    var head := "Error converting " + url + ": ";
    ContainsInfix("Error converting ", url, ": " + error);
    assert "Error converting " + url + (": " + error) == head + error;
    ContainsInfix(head, error, "");
    assert head + error + "" == head + error;
    head + error
  }

  /** The input is empty, or is the bare command in some letter case. */
  predicate IsPlaceholder(input: string) {
    input == "" || Lower(input) in Placeholders
  }

  /** The URL already names one of the schemes the tool passes through unchanged. */
  predicate HasScheme(url: string) {
    "http://" <= url || "https://" <= url || "file://" <= url
  }

  /** The scheme step on a stripped input: keep a URL with a scheme, give a bare
      domain (a dot and no space) the default scheme, reject anything else. */
  function Normalise(url: string): (r: Option<string>)
    ensures r.Some? <==> HasScheme(url) || ('.' in url && ' ' !in url)
    ensures r.Some? ==> HasScheme(r.value)
    ensures HasScheme(url) ==> r == Some(url)
    ensures !HasScheme(url) && '.' in url && ' ' !in url ==> r == Some(DefaultScheme + url)
  {
    if HasScheme(url) then Some(url)
    else if '.' in url && ' ' !in url then Some(DefaultScheme + url)
    else None
  }

  /** The answer of the `except` handler for an exception whose text is `error`. */
  function ErrorReply(url: string, error: string): (r: string)
    ensures "Error" <= r
    ensures Contains(r, url)
    ensures Contains(error, "404") ==> Contains(r, "not found (404 error)")
  {
    if Contains(error, "404") then NotFound(url)
    else if Contains(Lower(error), "timeout") then TimedOut(url)
    else ConversionError(url, error)
  }

  /** Cut a result longer than `MaxLength` characters and say that it was cut. */
  function Truncate(s: string): (r: string)
    ensures |r| <= MaxLength + |TruncationNotice|
    ensures |s| <= MaxLength ==> r == s
    ensures |s| > MaxLength ==> s[..MaxLength] <= r && r[MaxLength..] == TruncationNotice
  {
    if |s| > MaxLength then s[..MaxLength] + TruncationNotice else s
  }

  /** Everything `convert_to_markdown` does before it asks the library to convert. */
  datatype Step =
    | Answer(reply: string)   // the method returns `reply` without consulting the converter
    | Fetch(url: string)      // the method hands `url` to `md.convert`

  function Prepare(input: string, importError: Option<string>): (s: Step)
    ensures IsPlaceholder(input) ==> s == Answer(UsageText)
    ensures s.Answer? ==> s.reply != ""
    ensures s.Fetch? ==> importError.None? && !IsPlaceholder(input) && HasScheme(s.url)
    ensures s.Fetch? ==> Normalise(Strip(input)) == Some(s.url)
  {
    if IsPlaceholder(input) then Answer(UsageText)
    // the import fails before `url` is rebound, so the reply names the raw input
    else if importError.Some? then Answer(ErrorReply(input, importError.value))
    else
      var url := Strip(input);
      match Normalise(url)
      case Some(normalised) => Fetch(normalised)
      case None => Answer(ParseFailure(url))
  }

  /** What `convert_to_markdown` makes of the library's answer for `url`. */
  function Finish(url: string, outcome: Conversion): (r: string)
    ensures outcome.Converted? && outcome.text != "" ==>
      "# Content from: " <= r && |r| <= MaxLength + |TruncationNotice|
    ensures outcome == Converted("") ==> r == NoContent(url)
    ensures outcome.Raised? ==> "Error" <= r && Contains(r, url)
  {
    match outcome
    case Converted(text) =>
      if text != "" then
        var whole := Attribution(url) + text;
        assert whole[..16] == "# Content from: ";
        Truncate(whole)
      else NoContent(url)
    case Raised(error) => ErrorReply(url, error)
  }

  /** `Tools.convert_to_markdown(url)`. */
  function ConvertToMarkdown(input: string, env: Environment): (r: string)
    ensures r != ""
  {
    match Prepare(input, env.importError)
    case Answer(reply) => reply
    case Fetch(url) => Finish(url, env.convert(url))
  }

  /** `Tools.convert_webpage(url)`. */
  function ConvertWebpage(input: string, env: Environment): (r: string)
    ensures input == "" ==> r == WebpagePrompt
    ensures input != "" ==> r == ConvertToMarkdown(input, env)
  {
    if input == "" then WebpagePrompt else ConvertToMarkdown(input, env)
  }

  /** `Tools.extract_pdf_text(pdf_url)`. */
  function ExtractPdfText(input: string, env: Environment): (r: string)
    ensures input == "" ==> r == PdfPrompt
    ensures input != "" ==> r == ConvertToMarkdown(input, env)
  {
    if input == "" then PdfPrompt else ConvertToMarkdown(input, env)
  }
}
