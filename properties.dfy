/** What `convert_to_markdown` and its wrappers promise, stated over the model
    of `MarkItDownTool` for every input and every behaviour of the library. */
module ToolProperties {
  import opened PyText
  import opened MarkItDownTool

  /** The converter is consulted only when the preparation ends in `Fetch`:
      otherwise the reply is the same whatever the library would answer. */
  lemma AnswerWithoutConverter(input: string, env: Environment, other: string -> Conversion)
    requires Prepare(input, env.importError).Answer?
    ensures ConvertToMarkdown(input, env) == ConvertToMarkdown(input, env.(convert := other))
    ensures ConvertToMarkdown(input, env) == Prepare(input, env.importError).reply
  {
  }

  /** The first character of every reply other than the usage text. */
  lemma FinishInitial(url: string, outcome: Conversion)
    ensures |Finish(url, outcome)| > 0 && Finish(url, outcome)[0] in "#CE"
  {
    var r := Finish(url, outcome);
    match outcome
    case Converted(text) =>
      if text != "" {
        assert "# Content from: " <= r;
      }
    case Raised(_) =>
      assert "Error" <= r;
  }

  /** Every reply to a non-placeholder input starts with one of `#`, `C`, `E` or `I`. */
  lemma ReplyInitial(input: string, env: Environment)
    requires !IsPlaceholder(input)
    ensures ConvertToMarkdown(input, env)[0] in "#CEI"
  {
    match Prepare(input, env.importError)
    case Fetch(url) =>
      FinishInitial(url, env.convert(url));
    case Answer(reply) =>
      if env.importError.None? {
        assert reply == ParseFailure(Strip(input));
      }
  }

  /** The usage text comes back exactly for the placeholder inputs, whatever
      the environment does. */
  lemma UsageExactlyForPlaceholders(input: string, env: Environment)
    ensures ConvertToMarkdown(input, env) == UsageText <==> IsPlaceholder(input)
  {
    if !IsPlaceholder(input) {
      ReplyInitial(input, env);
      assert UsageText[0] == 'P';
    }
  }

  /** A stripped input that already has a scheme reaches the converter unchanged. */
  lemma SchemeKept(input: string)
    requires HasScheme(Strip(input))
    ensures Prepare(input, None) == Fetch(Strip(input))
  {
    var t := Strip(input);
    assert ':' in t by {
      if "file://" <= t { assert t[4] == ':'; }
      else if "http://" <= t { assert t[4] == ':'; }
      else { assert t[5] == ':'; }
    }
    PieceHas(input, t, ':');
    ColonNotPlaceholder(input);
  }

  /** A stripped input without a scheme, with a dot and without a space, reaches
      the converter with `https://` in front. */
  lemma BareDomain(input: string)
    requires !HasScheme(Strip(input)) && '.' in Strip(input) && ' ' !in Strip(input)
    ensures Prepare(input, None) == Fetch(DefaultScheme + Strip(input))
  {
    PieceHas(input, Strip(input), '.');
    DotNotPlaceholder(input);
  }

  /** Any other stripped input is refused with a message quoting it, and the
      converter is not consulted. */
  lemma NotAUrl(input: string)
    requires !IsPlaceholder(input)
    requires !HasScheme(Strip(input)) && ('.' !in Strip(input) || ' ' in Strip(input))
    ensures Prepare(input, None) == Answer(ParseFailure(Strip(input)))
    ensures Contains(ParseFailure(Strip(input)), Strip(input))
  {
    ContainsInfix("I couldn't parse '", Strip(input), ParseFailureAdvice);
  }

  /** When the library cannot be imported, the reply explains the import error
      and names the input as given, before any stripping. */
  lemma ImportFailureNamesRawInput(input: string, error: string)
    requires !IsPlaceholder(input)
    ensures Prepare(input, Some(error)) == Answer(ErrorReply(input, error))
    ensures Contains(ErrorReply(input, error), input)
  {
  }

  /** Every placeholder starts with `c` or `m` once lower-cased, so a string
      whose first character does not lower-case to either is not one. */
  lemma NotPlaceholderByInitial(s: string)
    requires s != [] && LowerChar(s[0])[0] != 'c' && LowerChar(s[0])[0] != 'm'
    ensures !IsPlaceholder(s)
  {
    var l := Lower(s);
    assert l[0] == LowerChar(s[0])[0];
    forall p | p in Placeholders ensures l != p {
      assert p == "" || p[0] == 'c' || p[0] == 'm';
    }
  }

  /** No placeholder holds a dot, and lower-casing keeps every dot, so a string
      with a dot in it is never taken for the bare command. */
  lemma DotNotPlaceholder(s: string)
    requires '.' in s
    ensures !IsPlaceholder(s)
  {
    LowerKeeps(s, '.');
    var l := Lower(s);
    forall p | p in Placeholders ensures l != p {
      assert '.' !in p;
    }
  }

  /** No placeholder holds a colon, and lower-casing keeps every colon, so a
      string with a colon in it is never taken for the bare command. */
  lemma ColonNotPlaceholder(s: string)
    requires ':' in s
    ensures !IsPlaceholder(s)
  {
    LowerKeeps(s, ':');
    var l := Lower(s);
    forall p | p in Placeholders ensures l != p {
      assert ':' !in p;
    }
  }

  /** The placeholder test ignores letter case: a string and its lower-cased
      form are placeholders alike. */
  lemma PlaceholderIgnoresCase(s: string)
    ensures IsPlaceholder(Lower(s)) <==> IsPlaceholder(s)
  {
    LowerIdempotent(s);
  }

  /** A string that starts with a scheme is never taken for the bare command. */
  lemma SchemeNotPlaceholder(url: string)
    requires HasScheme(url)
    ensures !IsPlaceholder(url)
  {
    assert url[0] == 'h' || url[0] == 'f';
    assert LowerChar(url[0]) == [url[0]];
    NotPlaceholderByInitial(url);
  }

  /** Normalising a string without surrounding whitespace yields a URL without
      surrounding whitespace. */
  lemma NormalisedUnpadded(t: string)
    requires t == [] || (!IsSpace(t[0]) && !IsSpace(t[|t| - 1]))
    requires Normalise(t).Some?
    ensures Strip(Normalise(t).value) == Normalise(t).value
  {
    var u := Normalise(t).value;
    assert u != [] && !IsSpace(u[0]) && !IsSpace(u[|u| - 1]) by {
      if HasScheme(t) {
        assert u == t && (t[0] == 'h' || t[0] == 'f');
      } else {
        assert u == DefaultScheme + t && '.' in t;
        assert u[0] == 'h' && u[|u| - 1] == t[|t| - 1];
      }
    }
    assert u == [] + u + [];
    StripPadded([], u, []);
  }

  /** A URL the converter receives is already normalised: running the
      preparation on it again changes nothing. */
  lemma PrepareIdempotent(input: string)
    requires Prepare(input, None).Fetch?
    ensures Prepare(Prepare(input, None).url, None) == Prepare(input, None)
  {
    var u := Prepare(input, None).url;
    NormalisedUnpadded(Strip(input));
    SchemeNotPlaceholder(u);
    SchemeKept(u);
  }

  /** A successful conversion with text: the attribution header goes in front,
      and the whole is cut to `MaxLength` characters plus a notice when longer. */
  lemma ContentShaped(url: string, text: string)
    requires text != ""
    ensures var whole := Attribution(url) + text;
      && (|whole| <= MaxLength ==> Finish(url, Converted(text)) == whole)
      && (|whole| > MaxLength ==> Finish(url, Converted(text)) == whole[..MaxLength] + TruncationNotice)
    ensures "# Content from: " <= Finish(url, Converted(text))
    ensures |Finish(url, Converted(text))| <= MaxLength + |TruncationNotice|
  {
  }

  /** An untruncated reply gives back the converted text after the header. */
  lemma ContentRecoverable(url: string, text: string)
    requires text != "" && |Attribution(url)| + |text| <= MaxLength
    ensures Finish(url, Converted(text))[|Attribution(url)|..] == text
  {
    assert (Attribution(url) + text)[|Attribution(url)|..] == text;
  }

  /** Error classification: "404" wins over "timeout"; "timeout" is matched in
      any letter case; otherwise the exception's text is passed on verbatim. */
  lemma ErrorClassified(url: string, error: string)
    ensures Contains(error, "404") ==> Finish(url, Raised(error)) == NotFound(url)
    ensures !Contains(error, "404") && Contains(Lower(error), "timeout") ==>
      Finish(url, Raised(error)) == TimedOut(url)
    ensures !Contains(error, "404") && !Contains(Lower(error), "timeout") ==>
      Finish(url, Raised(error)) == ConversionError(url, error)
  {
  }

  /** Each wrapper agrees with `convert_to_markdown` exactly on non-empty input;
      on the empty input it gives its own prompt instead of the usage text. */
  lemma WrappersDelegate(input: string, env: Environment)
    ensures ConvertWebpage(input, env) == ConvertToMarkdown(input, env) <==> input != ""
    ensures ExtractPdfText(input, env) == ConvertToMarkdown(input, env) <==> input != ""
  {
    if input == "" {
      assert ConvertToMarkdown(input, env) == UsageText;
      assert UsageText[17] == 'U' && WebpagePrompt[17] == 'w';
      assert PdfPrompt[17] == 'P';
    }
  }

  /** A whitespace-only input is not a placeholder; it strips to nothing and
      is refused as an empty URL. */
  lemma WhitespaceOnlyRefused(input: string)
    requires input != "" && AllSpace(input)
    ensures Prepare(input, None) == Answer(ParseFailure(""))
  {
    assert IsSpace(input[0]) && LowerChar(input[0]) == [input[0]];
    NotPlaceholderByInitial(input);
    NotAUrl(input);
  }

  /** The placeholder test runs before stripping: the bare command with
      whitespace in front is not recognised, and ends as a parse failure. */
  lemma PaddedCommandRefused(a: string, command: string, b: string)
    requires a != [] && AllSpace(a) && AllSpace(b)
    requires command in Placeholders && command != ""
    ensures Prepare(a + command + b, None) == Answer(ParseFailure(command))
  {
    var s := a + command + b;
    assert !IsPlaceholder(s) by {
      assert s[0] == a[0] && LowerChar(a[0]) == [a[0]];
      NotPlaceholderByInitial(s);
    }
    assert Strip(s) == command && !HasScheme(command) && '.' !in command by {
      assert command[0] in "cm" && command[|command| - 1] in "tn" && '.' !in command;
      StripPadded(a, command, b);
    }
    NotAUrl(s);
  }

  /** A bare domain with nothing to strip is fetched with `https://` in front. */
  lemma BareDomainVerbatim(s: string)
    requires s != [] && !IsSpace(s[0]) && !IsSpace(s[|s| - 1])
    requires !HasScheme(s) && '.' in s && ' ' !in s
    ensures Prepare(s, None) == Fetch("https://" + s)
  {
    DotNotPlaceholder(s);
    assert s == [] + s + [];
    StripPadded([], s, []);
    BareDomain(s);
  }

  /** Only the space character disqualifies a bare domain: a tab inside it does not. */
  lemma TabInBareDomainAccepted(s: string)
    requires s == "example\t.com"
    ensures Prepare(s, None) == Fetch("https://" + s)
  {
    assert s[0] == 'e' && s[|s| - 1] == 'm' && s[7] == '\t' && s[8] == '.';
    BareDomainVerbatim(s);
  }

  /** The bare domain `example.com` is fetched as `https://example.com`. */
  lemma ExampleDomain(s: string)
    requires s == "example.com"
    ensures Prepare(s, None) == Fetch("https://" + s)
  {
    assert s[0] == 'e' && s[|s| - 1] == 'm' && s[7] == '.';
    BareDomainVerbatim(s);
  }
}
