/** The helpers of the editor's utility file: the extension-to-language table,
    the file-name split done when a file is loaded and the name given to a saved
    file, the non-evaluating part of code execution, the line-trimming
    formatter and the substring linter. The timers and promises that wrap these
    helpers only delay their results and are not modelled. */
module CodeUtils {
  import opened Wrappers
  import opened Text

  /* ---------------------------------------------------------------------- */
  /* Languages and file names                                               */
  /* ---------------------------------------------------------------------- */

  /** A loaded file as the editor receives it. */
  datatype FileData = FileData(name: string, content: string, language: string)

  /** A file name cut at its last dot. */
  datatype FileNameParts = FileNameParts(name: string, extension: string)

  /** The language tag for a file extension, whatever its letter case;
      anything unknown is taken for JavaScript. */
  function LanguageFromExtension(extension: string): (language: string)
    ensures language in {"html", "css", "javascript", "typescript"}
    ensures language == "html" <==> ToLower(extension) == "html"
    ensures language == "css" <==> ToLower(extension) == "css"
    ensures language == "typescript" <==> ToLower(extension) == "ts"
    ensures language == "javascript" <==> ToLower(extension) !in {"html", "css", "ts"}
  {
    var lower := ToLower(extension);
    if lower == "html" then "html"
    else if lower == "css" then "css"
    else if lower == "js" then "javascript"
    else if lower == "ts" then "typescript"
    else "javascript"
  }

  /** The table ignores letter case: an extension and its lower-case form
      give the same language. */
  lemma ExtensionCaseInsensitive(extension: string)
    ensures LanguageFromExtension(extension) == LanguageFromExtension(ToLower(extension))
  {
    assert ToLower(ToLower(extension)) == ToLower(extension);
  }

  /** The split a loaded file's name goes through: every dot-separated piece
      but the last, rejoined with dots, and the last piece. */
  function SplitFileName(fileName: string): (parts: FileNameParts)
    ensures '.' !in parts.extension
  {
    var pieces := Split(fileName, '.');
    SplitPiecesLackSeparator(fileName, '.');
    FileNameParts(Join(pieces[..|pieces| - 1], '.'), pieces[|pieces| - 1])
  }

  /** A name with a dot is rebuilt exactly from its two parts. */
  lemma SplitFileNameRecombines(fileName: string)
    requires '.' in fileName
    ensures SplitFileName(fileName).name + "." + SplitFileName(fileName).extension == fileName
  {
    var pieces := Split(fileName, '.');
    SplitWithSeparator(fileName, '.');
    JoinLast(pieces, '.');
    JoinSplit(fileName, '.');
  }

  /** A name without a dot is all extension and no name. */
  lemma SplitFileNameWithoutDot(fileName: string)
    requires '.' !in fileName
    ensures SplitFileName(fileName) == FileNameParts("", fileName)
  {
    JoinSplit(fileName, '.');
  }

  /** The name a tab is saved under: its name, a dot and its language tag. */
  function SaveFileName(name: string, language: string): (fileName: string)
    ensures '.' in fileName
  {
    name + "." + language
  }

  /** The file the editor builds from a loaded file's name and text. */
  function LoadedFile(fileName: string, content: string): (file: FileData)
    ensures file.content == content
    ensures file.language in {"html", "css", "javascript", "typescript"}
  {
    var parts := SplitFileName(fileName);
    FileData(parts.name, content, LanguageFromExtension(parts.extension))
  }

  /** Splitting a saved name gives back the tab's name, dots and all, and the
      language tag, as long as the tag itself has no dot. */
  lemma SaveFileNameSplitsBack(name: string, language: string)
    requires '.' !in language
    ensures SplitFileName(SaveFileName(name, language)) == FileNameParts(name, language)
  {
    SplitAround(name, '.', language);
    JoinSplit(language, '.');
    JoinSplit(name, '.');
    var pieces := Split(name, '.') + Split(language, '.');
    assert SaveFileName(name, language) == name + ['.'] + language;
    assert pieces[..|pieces| - 1] == Split(name, '.');
  }

  /** Saving a tab of a language the editor offers and loading the file back
      gives a tab with the same name, text and language. */
  lemma SaveLoadRoundTrip(name: string, content: string, language: string)
    requires language in {"html", "css", "javascript"}
    ensures LoadedFile(SaveFileName(name, language), content) == FileData(name, content, language)
  {
    SaveFileNameSplitsBack(name, language);
  }

  /** A TypeScript tab (only a loaded `.ts` file has one) is saved with the
      extension `typescript`, which the table does not know: loading it back
      gives a JavaScript tab. */
  lemma TypescriptReloadsAsJavascript(name: string, content: string)
    ensures LoadedFile(SaveFileName(name, "typescript"), content).language == "javascript"
  {
    SaveFileNameSplitsBack(name, "typescript");
  }

  /* ---------------------------------------------------------------------- */
  /* Execution                                                              */
  /* ---------------------------------------------------------------------- */

  /** The outcome of an execution request: its output and, when the code
      threw, the error text. */
  datatype ExecutionResult = ExecutionResult(output: string, error: Option<string>)

  /** A thrown value: an `Error` carries a message, any other value is
      reported through its string form. */
  datatype Thrown = ErrorObject(message: string) | OtherValue(asString: string)

  /** What running JavaScript code in the sandboxed function did: it returned
      the text logged to its mock console, or it threw. */
  datatype JsRun = Returned(log: string) | Threw(thrown: Thrown)

  /** The text reported for a thrown value. */
  function ThrownText(thrown: Thrown): string
  {
    match thrown
    case ErrorObject(message) => message
    case OtherValue(asString) => asString
  }

  const HtmlNotice := "HTML execution is handled in the preview pane."
  const CssNotice := "CSS execution is handled in the preview pane."

  function UnsupportedNotice(language: string): string
  {
    "Execution of " + language + " is not supported in this environment."
  }

  /** Runs `code` as `language`. JavaScript goes to `runJavaScript`, which
      stands for the generated sandbox function; HTML and CSS get a fixed
      notice, every other tag a "not supported" notice. A throw is caught:
      the output stays empty and the error holds the thrown value's text. */
  method ExecuteCode(code: string, language: string, runJavaScript: string -> JsRun)
    returns (result: ExecutionResult)
    ensures language == "html" ==> result == ExecutionResult(HtmlNotice, None)
    ensures language == "css" ==> result == ExecutionResult(CssNotice, None)
    ensures language !in {"javascript", "html", "css"} ==>
              result == ExecutionResult(UnsupportedNotice(language), None)
    ensures language == "javascript" && runJavaScript(code).Returned? ==>
              result == ExecutionResult(runJavaScript(code).log, None)
    ensures language == "javascript" && runJavaScript(code).Threw? ==>
              result == ExecutionResult("", Some(ThrownText(runJavaScript(code).thrown)))
    ensures result.error.Some? ==> result.output == "" && language == "javascript"
  {
    var output := "";
    var error: Option<string> := None;
    if language == "javascript" {
      match runJavaScript(code)
      case Returned(log) =>
        output := log;
      case Threw(thrown) =>
        error := Some(ThrownText(thrown));
    } else if language == "html" {
      output := HtmlNotice;
    } else if language == "css" {
      output := CssNotice;
    } else {
      output := UnsupportedNotice(language);
    }
    result := ExecutionResult(output, error);
  }

  /* ---------------------------------------------------------------------- */
  /* Formatting                                                             */
  /* ---------------------------------------------------------------------- */

  /** The languages the formatter touches. */
  predicate FormatterHandles(language: string)
  {
    language == "javascript" || language == "html" || language == "css"
  }

  /** Each line trimmed. */
  function TrimAll(lines: seq<string>): (trimmed: seq<string>)
    ensures |trimmed| == |lines|
    ensures forall i :: 0 <= i < |lines| ==> trimmed[i] == Trim(lines[i])
  {
    seq(|lines|, i requires 0 <= i < |lines| => Trim(lines[i]))
  }

  /** The code with every line trimmed, lines joined with a line feed. */
  function FormatLines(code: string): string
  {
    Join(TrimAll(Split(code, '\n')), '\n')
  }

  /** `formatCode`: trims the lines of JavaScript, HTML and CSS and leaves the
      code of any other language alone. */
  function FormatCode(code: string, language: string): (formatted: string)
    ensures !FormatterHandles(language) ==> formatted == code
  {
    if FormatterHandles(language) then FormatLines(code) else code
  }

  /** The lines of the formatted code are the trimmed lines of the code, one
      for one. */
  lemma FormattedLines(code: string)
    ensures Split(FormatLines(code), '\n') == TrimAll(Split(code, '\n'))
  {
    var trimmed := TrimAll(Split(code, '\n'));
    SplitPiecesLackSeparator(code, '\n');
    forall i | 0 <= i < |trimmed|
      ensures '\n' !in trimmed[i]
    {
      assert '\n' !in Split(code, '\n')[i];
    }
    SplitJoin(trimmed, '\n');
  }

  /** Formatting keeps the number of lines. */
  lemma FormatCodeKeepsLineCount(code: string, language: string)
    ensures |Split(FormatCode(code, language), '\n')| == |Split(code, '\n')|
  {
    if FormatterHandles(language) {
      FormattedLines(code);
    }
  }

  /** Formatting formatted code changes nothing. */
  lemma FormatCodeIdempotent(code: string, language: string)
    ensures FormatCode(FormatCode(code, language), language) == FormatCode(code, language)
  {
    if FormatterHandles(language) {
      var lines := Split(code, '\n');
      var formatted := FormatLines(code);
      FormattedLines(code);
      assert Split(formatted, '\n') == TrimAll(lines);
      forall i | 0 <= i < |lines|
        ensures Trim(Trim(lines[i])) == Trim(lines[i])
      {
        TrimIdempotent(lines[i]);
      }
      assert TrimAll(TrimAll(lines)) == TrimAll(lines);
      assert FormatLines(formatted) == Join(TrimAll(TrimAll(lines)), '\n');
    }
  }

  /* ---------------------------------------------------------------------- */
  /* Linting                                                                */
  /* ---------------------------------------------------------------------- */

  const VarWarning := "Consider using \"let\" or \"const\" instead of \"var\"."
  const DoctypeWarning := "HTML5 doctype is missing."
  const ImportantWarning := "Avoid using !important in CSS."

  /** `lintCode`: at most one warning. JavaScript is warned about when `var `
      occurs in it, HTML when its lower-cased text has no `<!doctype html>`,
      CSS when `!important` occurs in it; other languages never are. */
  method LintCode(code: string, language: string) returns (warnings: seq<string>)
    ensures |warnings| <= 1
    ensures language == "javascript" ==>
              (warnings == [VarWarning] <==> exists i :: OccursAt(code, "var ", i)) &&
              (warnings == [] <==> !exists i :: OccursAt(code, "var ", i))
    ensures language == "html" ==>
              (warnings == [DoctypeWarning] <==> !exists i :: OccursAt(ToLower(code), "<!doctype html>", i)) &&
              (warnings == [] <==> exists i :: OccursAt(ToLower(code), "<!doctype html>", i))
    ensures language == "css" ==>
              (warnings == [ImportantWarning] <==> exists i :: OccursAt(code, "!important", i)) &&
              (warnings == [] <==> !exists i :: OccursAt(code, "!important", i))
    ensures language !in {"javascript", "html", "css"} ==> warnings == []
  {
    warnings := [];
    if language == "javascript" {
      ContainsIff(code, "var ");
      if Contains(code, "var ") {
        warnings := warnings + [VarWarning];
      }
    } else if language == "html" {
      ContainsIff(ToLower(code), "<!doctype html>");
      if !Contains(ToLower(code), "<!doctype html>") {
        warnings := warnings + [DoctypeWarning];
      }
    } else if language == "css" {
      ContainsIff(code, "!important");
      if Contains(code, "!important") {
        warnings := warnings + [ImportantWarning];
      }
    }
  }
}
