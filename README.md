# MarkItDown tool for Open WebUI, modelled in Dafny

This project models the `Tools` class of `tools/openwebui-markitdown-tool-fixed.py`,
a tool that an Open WebUI agent calls with a URL and that answers with the document
at that URL as Markdown, or with a guidance or error message. The class exposes
`convert_to_markdown` and two wrappers, `convert_webpage` and `extract_pdf_text`.

`convert_to_markdown` works in this order:

1. It answers with the usage instructions when the input is empty or, once lower-cased,
   is exactly `convert to markdown`, `convert` or `markdown`. This test runs on the raw
   input, before any trimming.
2. It imports the MarkItDown library. If the import fails, the `except` handler answers,
   naming the raw input.
3. It strips surrounding whitespace from the input.
4. It keeps an input starting with `http://`, `https://` or `file://` as it is. It puts
   `https://` in front of an input that contains a `.` and no space character. Any other
   input is refused with a "couldn't parse" message that quotes the stripped input.
5. It hands the URL to the library. Non-empty text gets a `# Content from: <url>` header.
   The whole is cut to 10,000 characters, and the notice `\n\n... (content truncated)` is
   appended when it was cut. Empty text gets a "could not extract content" message.
6. When the library raises, the handler checks the error text. It looks for `"404"`
   first, then for `"timeout"` in any letter case. Otherwise it passes the error text on
   in a generic message.

The wrappers answer an empty input with their own prompt and otherwise delegate.

The model is pure, like the source: the class has no fields, and each method only
rebinds its local `url`. Three modules:

- `PyText` (`pytext.dfy`) models the Python `str` operations the tool uses.
  `strip()` is the forward and backward whitespace scans over Python's whitespace set.
  `lower()` works character by character. `sub in s` is a recursive search, proved equal
  to "occurs at some index".
- `MarkItDownTool` (`tool.dfy`) holds the messages and constants and the methods.
  `convert_to_markdown` is split at the library call. `Prepare` covers everything before
  the call: it either answers at once or names the URL to fetch. `Finish` shapes the
  library's answer. The world outside the tool is an `Environment`. It holds the import
  outcome and the library as a function from URL to `Converted(text) | Raised(message)`.
- `ToolProperties` (`properties.dfy`) holds the lemmas about the whole pipeline.

Three consequences of the code's order and tests are easy to miss. The model follows
the code in each:

- Only the space character disqualifies a bare domain, so a tab inside one is accepted
  (`ToolProperties.TabInBareDomainAccepted`).
- Every reply built after the scheme step names the URL after normalisation, for example
  `https://example.com` for the input `example.com`, the 404 reply included.
- A failed import answers before stripping. That answer therefore names the untrimmed
  input and pre-empts the parse-failure message (`ToolProperties.ImportFailureNamesRawInput`).

## Model

| member | source | states |
|---|---|---|
| PyText.ContainsIff | tools/openwebui-markitdown-tool-fixed.py:73-75 | the substring test used for `"404" in error_msg` and `"timeout" in error_msg.lower()` holds exactly when the needle occurs at some index of the text |
| PyText.PieceHas | tools/openwebui-markitdown-tool-fixed.py:39 | a character of a contiguous piece of a string, such as its stripped form, is a character of the string |
| PyText.ContainsInfix | tools/openwebui-markitdown-tool-fixed.py:74-78 | a string built as prefix + piece + suffix contains the piece (how every message embeds the URL) |
| PyText.SkipSpace | tools/openwebui-markitdown-tool-fixed.py:39 | the forward scan of `strip()`: every character it passes is whitespace and it stops on a non-space or at the end |
| PyText.SkipSpaceBack | tools/openwebui-markitdown-tool-fixed.py:39 | the backward scan of `strip()`: every character it drops is whitespace and what remains ends on a non-space or is empty |
| PyText.Strip | tools/openwebui-markitdown-tool-fixed.py:39 | `url.strip()` is a contiguous piece of the input, starts and ends on a non-space, and is empty exactly when the input is all whitespace |
| PyText.StripPadded | tools/openwebui-markitdown-tool-fixed.py:39 | stripping whitespace-only padding from both sides of a core that starts and ends on a non-space gives back exactly that core |
| PyText.StripIdempotent | tools/openwebui-markitdown-tool-fixed.py:39 | stripping an already stripped string changes nothing |
| PyText.IsSpace | tools/openwebui-markitdown-tool-fixed.py:39 | the characters `strip()` removes: Python's whitespace set, ASCII tab to carriage return, the four separators U+1C-U+1F, space, and the Unicode spaces and line separators |
| PyText.Contains | tools/openwebui-markitdown-tool-fixed.py:73-75 | Python's `sub in s` on strings, as a search from each starting position (its meaning is stated by `PyText.ContainsIff`) |
| PyText.LowerChar | tools/openwebui-markitdown-tool-fixed.py:26 | `c.lower()` maps `A`-`Z` to `a`-`z`, the Kelvin sign to `k`, the capital I with dot above to `i` plus the combining dot above, and leaves every other character alone |
| PyText.Lower | tools/openwebui-markitdown-tool-fixed.py:26 | `url.lower()` lower-cases character by character; the result is at least as long as the input and at most twice as long |
| PyText.LowerAppend | tools/openwebui-markitdown-tool-fixed.py:26 | lower-casing a concatenation is the concatenation of the lower-cased parts |
| PyText.LowerCharLower | tools/openwebui-markitdown-tool-fixed.py:26 | the lower case of any character is already lower case |
| PyText.LowerIdempotent | tools/openwebui-markitdown-tool-fixed.py:26 | lower-casing twice is lower-casing once, so the comparisons on lines 26 and 75 see text that no further lower-casing changes |
| PyText.LowerKeeps | tools/openwebui-markitdown-tool-fixed.py:26 | a character `lower()` leaves alone, such as `.`, survives lower-casing of any string holding it |
| MarkItDownTool.IsPlaceholder | tools/openwebui-markitdown-tool-fixed.py:26 | the input is empty or its lower-cased form is `convert to markdown`, `convert`, `markdown` or empty |
| MarkItDownTool.HasScheme | tools/openwebui-markitdown-tool-fixed.py:42 | the URL starts with `http://`, `https://` or `file://` |
| MarkItDownTool.Normalise | tools/openwebui-markitdown-tool-fixed.py:41-51 | a URL is produced exactly when the stripped input has an accepted scheme, or has a dot and no space; an input with a scheme is kept as it is, a bare domain gets `https://` in front, and the URL produced always has an accepted scheme |
| MarkItDownTool.ErrorReply | tools/openwebui-markitdown-tool-fixed.py:71-78 | every exception reply starts with `Error` and names the URL; when the error text contains `404` the reply says `not found (404 error)` |
| MarkItDownTool.ParseFailure | tools/openwebui-markitdown-tool-fixed.py:46-51 | the refusal starts with `I couldn't parse '` and quotes the URL it refuses |
| MarkItDownTool.Attribution | tools/openwebui-markitdown-tool-fixed.py:61 | the header starts with `# Content from: `, names the URL and ends with a blank line, 18 characters longer than the URL |
| MarkItDownTool.NoContent | tools/openwebui-markitdown-tool-fixed.py:69 | the reply to an empty result starts with `Could not extract content from ` and names the URL |
| MarkItDownTool.NotFound | tools/openwebui-markitdown-tool-fixed.py:74 | the 404 reply starts with `Error`, names the URL and says `not found (404 error)` |
| MarkItDownTool.TimedOut | tools/openwebui-markitdown-tool-fixed.py:76 | the timeout reply starts with `Error` and names the URL |
| MarkItDownTool.ConversionError | tools/openwebui-markitdown-tool-fixed.py:78 | the generic reply starts with `Error`, names the URL and ends with the exception's text verbatim |
| MarkItDownTool.Truncate | tools/openwebui-markitdown-tool-fixed.py:63-65 | the result is at most 10,000 characters plus the notice; text of at most 10,000 characters is left alone; longer text keeps its first 10,000 characters followed by the notice |
| MarkItDownTool.Prepare | tools/openwebui-markitdown-tool-fixed.py:24-51 | placeholders get the usage text; a URL is handed to the converter only when the import succeeded and the input is not a placeholder; that URL has an accepted scheme and is what normalising the stripped input gives; every immediate reply is non-empty |
| MarkItDownTool.Finish | tools/openwebui-markitdown-tool-fixed.py:57-78 | non-empty text gives a reply that starts with `# Content from: ` and is within the length bound; empty text gives the "could not extract content" message; an exception gives a reply that starts with `Error` and names the URL |
| MarkItDownTool.ConvertToMarkdown | tools/openwebui-markitdown-tool-fixed.py:17-78 | `convert_to_markdown` never answers with an empty string |
| MarkItDownTool.ConvertWebpage | tools/openwebui-markitdown-tool-fixed.py:80-89 | empty input gets the webpage prompt; any other input gets exactly the answer of `convert_to_markdown` |
| MarkItDownTool.ExtractPdfText | tools/openwebui-markitdown-tool-fixed.py:91-100 | empty input gets the PDF prompt; any other input gets exactly the answer of `convert_to_markdown` |
| ToolProperties.AnswerWithoutConverter | tools/openwebui-markitdown-tool-fixed.py:26-51 | when the tool answers before the library call, the answer is the same whatever the library would have returned |
| ToolProperties.FinishInitial | tools/openwebui-markitdown-tool-fixed.py:59-78 | every reply after the library call is non-empty and starts with `#`, `C` or `E` |
| ToolProperties.ReplyInitial | tools/openwebui-markitdown-tool-fixed.py:36-78 | every reply to a non-placeholder input starts with `#`, `C`, `E` or `I` |
| ToolProperties.UsageExactlyForPlaceholders | tools/openwebui-markitdown-tool-fixed.py:26-34 | the usage text is the answer if and only if the input is empty or a placeholder, whatever the environment does |
| ToolProperties.SchemeKept | tools/openwebui-markitdown-tool-fixed.py:39-42 | every input whose stripped form has an accepted scheme is handed to the converter exactly as stripped; such an input is never a placeholder |
| ToolProperties.BareDomain | tools/openwebui-markitdown-tool-fixed.py:42-44 | every input whose stripped form has no scheme, holds a dot and holds no space is handed over as `https://` + stripped input; such an input is never a placeholder |
| ToolProperties.NotAUrl | tools/openwebui-markitdown-tool-fixed.py:45-51 | any other stripped input gets the parse-failure reply, which quotes it, and the converter is not consulted |
| ToolProperties.ImportFailureNamesRawInput | tools/openwebui-markitdown-tool-fixed.py:36 | a failed import of the library gets the exception reply, built from the untrimmed input, which it names |
| ToolProperties.NotPlaceholderByInitial | tools/openwebui-markitdown-tool-fixed.py:26 | an input whose lower-cased first character is neither `c` nor `m` is not a placeholder |
| ToolProperties.ColonNotPlaceholder | tools/openwebui-markitdown-tool-fixed.py:26 | an input holding a colon, as every URL with a scheme does, is never a placeholder |
| ToolProperties.DotNotPlaceholder | tools/openwebui-markitdown-tool-fixed.py:26 | an input holding a dot is never a placeholder |
| ToolProperties.PlaceholderIgnoresCase | tools/openwebui-markitdown-tool-fixed.py:26 | the placeholder test gives the same answer for a string and for its lower-cased form |
| ToolProperties.SchemeNotPlaceholder | tools/openwebui-markitdown-tool-fixed.py:26 | an input that starts with an accepted scheme is never a placeholder |
| ToolProperties.NormalisedUnpadded | tools/openwebui-markitdown-tool-fixed.py:39-44 | normalising a string with no surrounding whitespace gives a URL with nothing to strip |
| ToolProperties.PrepareIdempotent | tools/openwebui-markitdown-tool-fixed.py:26-44 | the URL handed to the converter is a fixed point: preparing it again hands over the same URL |
| ToolProperties.ContentShaped | tools/openwebui-markitdown-tool-fixed.py:59-67 | the reply to non-empty text is header + text when that fits in 10,000 characters, and otherwise its first 10,000 characters + the notice; it always starts with `# Content from: ` and is at most 10,000 characters plus the notice long |
| ToolProperties.ContentRecoverable | tools/openwebui-markitdown-tool-fixed.py:61-67 | when nothing is cut, the converted text is exactly what follows the header in the reply |
| ToolProperties.ErrorClassified | tools/openwebui-markitdown-tool-fixed.py:71-78 | the 404 reply wins whenever `404` occurs, even alongside `timeout`; otherwise `timeout` in any letter case gives the timeout reply; otherwise the reply quotes the error text verbatim |
| ToolProperties.WrappersDelegate | tools/openwebui-markitdown-tool-fixed.py:80-100 | each wrapper gives the same answer as `convert_to_markdown` if and only if the input is non-empty |
| ToolProperties.WhitespaceOnlyRefused | tools/openwebui-markitdown-tool-fixed.py:26-51 | a non-empty all-whitespace input is not a placeholder; it strips to the empty string and gets the parse-failure reply for `''` |
| ToolProperties.PaddedCommandRefused | tools/openwebui-markitdown-tool-fixed.py:26-51 | a placeholder command with whitespace in front is not recognised; it gets the parse-failure reply quoting the bare command |
| ToolProperties.BareDomainVerbatim | tools/openwebui-markitdown-tool-fixed.py:39-44 | any bare domain with nothing to strip, `cnn.com` or `Microsoft.com` as much as any other, is handed over as `https://` + input |
| ToolProperties.TabInBareDomainAccepted | tools/openwebui-markitdown-tool-fixed.py:43 | `example<TAB>.com` is accepted as a bare domain, because only the space character disqualifies one |
| ToolProperties.ExampleDomain | tools/openwebui-markitdown-tool-fixed.py:42-44 | `example.com` is handed over as `https://example.com` |

## Left out

- `Tools.__init__` (lines 10-15) installs the library with a `pip` subprocess when it is missing. This is process-level I/O with no result the methods use, so it is not modelled.
- The MarkItDown library is an oracle, `Environment.convert`. It fetches over the network, and its behaviour is not modelled. A failure of the `MarkItDown()` constructor is folded into that oracle's `Raised` answer, because the source handles it in the same `except` branch with the same `url`.
- The result object of `md.convert` is reduced to its text. A falsy result, or a `text_content` that is `None` or empty, is `Converted("")`. `str(e)` is the message the oracle reports.
- The model only covers `str` arguments. A `None` argument, which `not url` would also treat as empty, is outside the declared `str` type.
- `BaseException`s that `except Exception` does not catch, such as `KeyboardInterrupt`, are not modelled.
- `PyText.LowerChar`: it does not model Python's full Unicode `lower()`. It maps `A`-`Z`, the Kelvin sign U+212A (which Python lower-cases to `k`) and U+0130 (which Python lower-cases to `i` followed by U+0307). Every other character is left unchanged, including those Python maps to other non-ASCII characters. Those stay one non-ASCII character either way, so they cannot take part in a match with the placeholders or `timeout`, which are plain ASCII.
- Python strings can hold lone surrogates, for example from JSON input, and Dafny's `char` cannot. Surrogates are neither whitespace nor letters, so no test or branch of the tool depends on them.
- `deck/R/generate_figures.py`, `deck/R/generate_tables.py` and `check_specs.py` are not part of this model. They are plotting, file writing and OS queries, with no logic of their own.
