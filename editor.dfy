/** The editor component: its tab list and the transformations its handlers
    apply to it, the preview document it assembles from the tabs, the relay
    that turns messages posted by the preview into console and error log
    entries, and the component state those handlers replace. */
module Editor {
  import opened Wrappers
  import opened Text
  import CodeUtils

  /** One open file. */
  datatype Tab = Tab(id: int, name: string, content: string, language: string)

  /** A runtime error reported by the preview. */
  datatype ErrorEntry = ErrorEntry(message: string, line: int, column: int)

  /** A message posted by the preview, already decoded: its `type`, its
      `content` and, for errors, its `line` and `column`. */
  datatype Message = Message(kind: string, content: string, line: int, column: int)

  /** The tabs the editor opens with. */
  function InitialTabs(): seq<Tab>
  {
    [ Tab(1, "index.html", "<h1>Hello, World!</h1>", "html"),
      Tab(2, "styles.css", "body { font-family: sans-serif; }", "css"),
      Tab(3, "script.js", "console.log(\"Hello from JavaScript!\");", "javascript") ]
  }

  /* ---------------------------------------------------------------------- */
  /* Tab-list transformations                                               */
  /* ---------------------------------------------------------------------- */

  /** Editing: every tab with id `tabId` gets `value` as its content; nothing
      else about any tab changes. */
  function SetContent(tabs: seq<Tab>, tabId: int, value: string): (updated: seq<Tab>)
    ensures |updated| == |tabs|
    ensures forall i :: 0 <= i < |tabs| ==>
              && updated[i].id == tabs[i].id
              && updated[i].name == tabs[i].name
              && updated[i].language == tabs[i].language
              && updated[i].content == (if tabs[i].id == tabId then value else tabs[i].content)
  {
    if tabs == [] then []
    else
      [if tabs[0].id == tabId then tabs[0].(content := value) else tabs[0]]
      + SetContent(tabs[1..], tabId, value)
  }

  /** Of two edits of the same tab, the later one wins. */
  lemma SetContentLastWins(tabs: seq<Tab>, tabId: int, first: string, second: string)
    ensures SetContent(SetContent(tabs, tabId, first), tabId, second) == SetContent(tabs, tabId, second)
  {
    var twice, once := SetContent(SetContent(tabs, tabId, first), tabId, second), SetContent(tabs, tabId, second);
    assert forall i :: 0 <= i < |tabs| ==> twice[i] == once[i];
  }

  /** Changing the language: every tab with id `tabId` gets `value` as its
      language; nothing else about any tab changes. */
  function SetLanguage(tabs: seq<Tab>, tabId: int, value: string): (updated: seq<Tab>)
    ensures |updated| == |tabs|
    ensures forall i :: 0 <= i < |tabs| ==>
              && updated[i].id == tabs[i].id
              && updated[i].name == tabs[i].name
              && updated[i].content == tabs[i].content
              && updated[i].language == (if tabs[i].id == tabId then value else tabs[i].language)
  {
    if tabs == [] then []
    else
      [if tabs[0].id == tabId then tabs[0].(language := value) else tabs[0]]
      + SetLanguage(tabs[1..], tabId, value)
  }

  /** Closing: the tabs whose id is not `tabId`, in their old order. */
  function RemoveTab(tabs: seq<Tab>, tabId: int): (kept: seq<Tab>)
    ensures |kept| <= |tabs|
    ensures forall i :: 0 <= i < |kept| ==> kept[i].id != tabId
  {
    if tabs == [] then []
    else if tabs[0].id == tabId then RemoveTab(tabs[1..], tabId)
    else [tabs[0]] + RemoveTab(tabs[1..], tabId)
  }

  /** Closing keeps exactly the tabs whose id is not `tabId`. */
  lemma {:induction false} RemoveTabKeeps(tabs: seq<Tab>, tabId: int)
    ensures forall t :: t in RemoveTab(tabs, tabId) <==> t in tabs && t.id != tabId
    decreases |tabs|
  {
    if tabs != [] {
      RemoveTabKeeps(tabs[1..], tabId);
      assert forall t :: t in tabs <==> t == tabs[0] || t in tabs[1..];
    }
  }

  /** Closing keeps relative order: it works piece by piece. */
  lemma {:induction false} RemoveTabSplits(front: seq<Tab>, back: seq<Tab>, tabId: int)
    ensures RemoveTab(front + back, tabId) == RemoveTab(front, tabId) + RemoveTab(back, tabId)
    decreases |front|
  {
    if front == [] {
      assert front + back == back;
    } else {
      assert (front + back)[0] == front[0];
      assert (front + back)[1..] == front[1..] + back;
      RemoveTabSplits(front[1..], back, tabId);
      if front[0].id == tabId {
        assert RemoveTab(front + back, tabId) == RemoveTab(front[1..] + back, tabId);
        assert RemoveTab(front, tabId) == RemoveTab(front[1..], tabId);
      } else {
        assert RemoveTab(front + back, tabId) == [front[0]] + RemoveTab(front[1..] + back, tabId);
        assert RemoveTab(front, tabId) == [front[0]] + RemoveTab(front[1..], tabId);
        assert [front[0]] + (RemoveTab(front[1..], tabId) + RemoveTab(back, tabId))
            == [front[0]] + RemoveTab(front[1..], tabId) + RemoveTab(back, tabId);
      }
    }
  }

  /** Closing an id that no tab has changes nothing. */
  lemma {:induction false} RemoveAbsentTab(tabs: seq<Tab>, tabId: int)
    requires forall i :: 0 <= i < |tabs| ==> tabs[i].id != tabId
    ensures RemoveTab(tabs, tabId) == tabs
    decreases |tabs|
  {
    if tabs != [] {
      RemoveAbsentTab(tabs[1..], tabId);
    }
  }

  /** The tab that the "New Tab" button appends to `tabs`. */
  function NewTab(tabs: seq<Tab>, newId: int): (tab: Tab)
    ensures tab.id == newId && tab.content == "" && tab.language == "javascript"
    ensures tab.name == "Untitled " + NatToString(|tabs| + 1)
  {
    Tab(newId, "Untitled " + NatToString(|tabs| + 1), "", "javascript")
  }

  /** The number in a new tab's name is one more than the number of tabs. */
  lemma NewTabNumber(tabs: seq<Tab>, newId: int)
    ensures var name := NewTab(tabs, newId).name;
            |name| > 9 && name[..9] == "Untitled " &&
            (forall i :: 9 <= i < |name| ==> IsDigit(name[i])) &&
            ParseDecimal(name[9..]) == |tabs| + 1
  {
    DecimalRoundTrip(|tabs| + 1);
    assert NewTab(tabs, newId).name[9..] == NatToString(|tabs| + 1);
  }

  /** The tab a loaded file becomes. */
  function LoadedTab(file: CodeUtils.FileData, newId: int): (tab: Tab)
    ensures tab.id == newId && tab.name == file.name
    ensures tab.content == file.content && tab.language == file.language
  {
    Tab(newId, file.name, file.content, file.language)
  }

  /** The active tab after `tabId` is closed: when it was the active one, the
      first tab of the list as it was before closing, which is the closed tab
      itself when that one came first; otherwise the active tab stays. The
      list must not be empty when the active tab is closed. */
  function ActiveAfterClose(tabs: seq<Tab>, active: int, tabId: int): (next: int)
    requires active == tabId ==> tabs != []
    ensures active != tabId ==> next == active
    ensures active == tabId ==> next == tabs[0].id
  {
    if active == tabId then tabs[0].id else active
  }

  /** Closing the active first tab leaves the active id naming a tab that is
      no longer in the list. */
  lemma {:induction false} CloseActiveFirstTab(tabs: seq<Tab>)
    requires tabs != []
    ensures ActiveAfterClose(tabs, tabs[0].id, tabs[0].id) == tabs[0].id
    ensures forall i :: 0 <= i < |RemoveTab(tabs, tabs[0].id)| ==> RemoveTab(tabs, tabs[0].id)[i].id != tabs[0].id
  {
  }

  /* ---------------------------------------------------------------------- */
  /* Preview document                                                       */
  /* ---------------------------------------------------------------------- */

  /** `i` is the index of the first tab in `language`. */
  ghost predicate IsFirstOfLanguage(tabs: seq<Tab>, language: string, i: int)
  {
    && 0 <= i < |tabs|
    && tabs[i].language == language
    && forall j :: 0 <= j < i ==> tabs[j].language != language
  }

  /** The index of the first tab in `language`, as `find` returns it. */
  function FirstOfLanguage(tabs: seq<Tab>, language: string): (found: Option<nat>)
    ensures found.Some? ==> IsFirstOfLanguage(tabs, language, found.value)
    ensures found.None? ==> forall i :: 0 <= i < |tabs| ==> tabs[i].language != language
  {
    if tabs == [] then None
    else if tabs[0].language == language then Some(0)
    else match FirstOfLanguage(tabs[1..], language)
      case None => None
      case Some(k) => Some(k + 1)
  }

  /** What the preview shows for `language`: the content of the first tab in
      that language, or nothing when there is none. */
  function Section(tabs: seq<Tab>, language: string): (r: string)
    ensures r == "" || exists i :: 0 <= i < |tabs| && tabs[i].language == language && tabs[i].content == r
  {
    match FirstOfLanguage(tabs, language)
    case None => ""
    case Some(i) => tabs[i].content
  }

  /** The section is the first matching tab's content, and empty when no tab
      is in that language. */
  lemma SectionIsFirstMatch(tabs: seq<Tab>, language: string, i: int)
    requires IsFirstOfLanguage(tabs, language, i)
    ensures Section(tabs, language) == tabs[i].content
  {
  }

  /** The fixed text of the preview document around its three sections. */
  datatype Template = Template(
    head: string,           // up to and including the opening style tag
    styleToBody: string,    // the closing style tag up to the body's content
    instrumentation: string,// the opening script tag and the capture code
    tail: string)           // the closing script, body and html tags

  /** The editor's template (the instrumentation is written line by line).
      Its instrumentation makes `console.log` forward
      its joined arguments to the parent as a `console` message, and makes
      `window.onerror` forward an `error` message with the message, line and
      column and report the error handled; the user's JavaScript follows it in
      the same script block. */
  const PreviewTemplate := Template(
    "\n        <html>\n          <head>\n            <style>",
    "</style>\n          </head>\n          <body>\n            ",
    Join(["",
          "            <script>",
          "              // Capture console.log output",
          "              (function() {",
          "                var oldLog = console.log;",
          "                console.log = function(...args) {",
          "                  oldLog.apply(console, args);",
          "                  window.parent.postMessage({type: 'console', content: args.join(' ')}, '*');",
          "                };",
          "              })();",
          "              ",
          "              // Capture errors",
          "              window.onerror = function(message, source, lineno, colno, error) {",
          "                window.parent.postMessage({type: 'error', content: message, line: lineno, column: colno}, '*');",
          "                return true;",
          "              };",
          "",
          "              "], '\n'),
    "\n            </script>\n          </body>\n        </html>\n      ")

  /** A template with the three sections filled in. */
  function Render(template: Template, html: string, css: string, js: string): string
  {
    template.head + css + template.styleToBody + html + template.instrumentation + js + template.tail
  }

  /** The document a template gives for the current tabs. */
  function AssembleWith(template: Template, tabs: seq<Tab>): string
  {
    Render(template, Section(tabs, "html"), Section(tabs, "css"), Section(tabs, "javascript"))
  }

  /** The preview document for the current tabs. */
  function Assemble(tabs: seq<Tab>): string
  {
    AssembleWith(PreviewTemplate, tabs)
  }

  /** Where each section sits in the document: the first CSS tab right after
      the template's head, the first HTML tab right after the text up to the
      body, and the first JavaScript tab right after the whole
      instrumentation, just before the tail. With the editor's template this
      puts the instrumentation ahead of the user's script. */
  lemma PreviewLayout(template: Template, tabs: seq<Tab>)
    ensures var doc := AssembleWith(template, tabs);
            var css := Section(tabs, "css");
            var html := Section(tabs, "html");
            var js := Section(tabs, "javascript");
            var head := |template.head|;
            var body := head + |css| + |template.styleToBody|;
            var script := body + |html| + |template.instrumentation|;
            && |doc| == script + |js| + |template.tail|
            && doc[..head] == template.head
            && doc[head..head + |css|] == css
            && doc[head + |css|..body] == template.styleToBody
            && doc[body..body + |html|] == html
            && doc[body + |html|..script] == template.instrumentation
            && doc[script..script + |js|] == js
            && doc[script + |js|..] == template.tail
  {
    var html, css, js := Section(tabs, "html"), Section(tabs, "css"), Section(tabs, "javascript");
    PiecesAt(template.head, css, template.styleToBody, html, template.instrumentation, js, template.tail);
  }

  /** Where each of seven concatenated pieces sits. */
  lemma PiecesAt(a: string, b: string, c: string, d: string, e: string, f: string, g: string)
    ensures var s := a + b + c + d + e + f + g;
            var ab := |a| + |b|;
            var ad := ab + |c| + |d|;
            var af := ad + |e| + |f|;
            && |s| == af + |g|
            && s[..|a|] == a
            && s[|a|..ab] == b
            && s[ab..ab + |c|] == c
            && s[ab + |c|..ad] == d
            && s[ad..ad + |e|] == e
            && s[ad + |e|..af] == f
            && s[af..] == g
  {
  }

  /** Where no tab of a language is open, its section is empty. */
  lemma MissingLanguageIsEmpty(tabs: seq<Tab>, language: string)
    requires forall i :: 0 <= i < |tabs| ==> tabs[i].language != language
    ensures Section(tabs, language) == ""
  {
  }

  /** Appending a tab leaves every index search that already succeeded alone,
      and otherwise finds the new tab when it is in the language. */
  lemma {:induction false} FirstOfLanguageAppend(tabs: seq<Tab>, tab: Tab, language: string)
    ensures FirstOfLanguage(tabs + [tab], language) ==
              if FirstOfLanguage(tabs, language).Some? then FirstOfLanguage(tabs, language)
              else if tab.language == language then Some(|tabs|)
              else None
    decreases |tabs|
  {
    if tabs != [] {
      assert (tabs + [tab])[1..] == tabs[1..] + [tab];
      FirstOfLanguageAppend(tabs[1..], tab, language);
    }
  }

  /** After appending a tab, a section changes only if no earlier tab had
      that language, and then it shows the new tab. */
  lemma SectionAfterAppend(tabs: seq<Tab>, tab: Tab, language: string)
    ensures Section(tabs + [tab], language) ==
              if FirstOfLanguage(tabs, language).Some? then Section(tabs, language)
              else if tab.language == language then tab.content
              else ""
  {
    FirstOfLanguageAppend(tabs, tab, language);
  }

  /** A new, empty JavaScript tab never changes the preview. */
  lemma AddTabKeepsPreview(template: Template, tabs: seq<Tab>, newId: int)
    ensures AssembleWith(template, tabs + [NewTab(tabs, newId)]) == AssembleWith(template, tabs)
  {
    var tab := NewTab(tabs, newId);
    SectionAfterAppend(tabs, tab, "html");
    SectionAfterAppend(tabs, tab, "css");
    SectionAfterAppend(tabs, tab, "javascript");
  }

  /** The index search looks only at languages. */
  lemma {:induction false} FirstOfLanguageSameLanguages(a: seq<Tab>, b: seq<Tab>, language: string)
    requires |a| == |b|
    requires forall i :: 0 <= i < |a| ==> a[i].language == b[i].language
    ensures FirstOfLanguage(a, language) == FirstOfLanguage(b, language)
    decreases |a|
  {
    if a != [] {
      FirstOfLanguageSameLanguages(a[1..], b[1..], language);
    }
  }

  /** Editing a tab shows in the preview when it is the first of its
      language... */
  lemma EditFirstTabShows(tabs: seq<Tab>, i: int, value: string)
    requires 0 <= i < |tabs| && IsFirstOfLanguage(tabs, tabs[i].language, i)
    ensures Section(SetContent(tabs, tabs[i].id, value), tabs[i].language) == value
  {
    var edited := SetContent(tabs, tabs[i].id, value);
    FirstOfLanguageSameLanguages(edited, tabs, tabs[i].language);
    SectionIsFirstMatch(tabs, tabs[i].language, i);
  }

  /** ...and leaves the preview as it was when no tab with that id is the
      first HTML, CSS or JavaScript tab. */
  lemma EditShadowedTabKeepsPreview(template: Template, tabs: seq<Tab>, tabId: int, value: string)
    requires forall i :: 0 <= i < |tabs| && tabs[i].id == tabId ==>
               && !IsFirstOfLanguage(tabs, "html", i)
               && !IsFirstOfLanguage(tabs, "css", i)
               && !IsFirstOfLanguage(tabs, "javascript", i)
    ensures AssembleWith(template, SetContent(tabs, tabId, value)) == AssembleWith(template, tabs)
  {
    var edited := SetContent(tabs, tabId, value);
    FirstOfLanguageSameLanguages(edited, tabs, "html");
    FirstOfLanguageSameLanguages(edited, tabs, "css");
    FirstOfLanguageSameLanguages(edited, tabs, "javascript");
  }

  /* ---------------------------------------------------------------------- */
  /* Message relay                                                          */
  /* ---------------------------------------------------------------------- */

  /** The console and error logs. */
  datatype Logs = Logs(console: seq<string>, errors: seq<ErrorEntry>)

  /** What one message does to the logs: a `console` message appends its
      content to the console log, an `error` message appends an entry to the
      error log, and any other message is ignored. */
  function Relay(logs: Logs, message: Message): (next: Logs)
    ensures message.kind == "console" ==>
              next == Logs(logs.console + [message.content], logs.errors)
    ensures message.kind == "error" ==>
              next == Logs(logs.console, logs.errors + [ErrorEntry(message.content, message.line, message.column)])
    ensures message.kind !in {"console", "error"} ==> next == logs
  {
    if message.kind == "console" then logs.(console := logs.console + [message.content])
    else if message.kind == "error" then
      logs.(errors := logs.errors + [ErrorEntry(message.content, message.line, message.column)])
    else logs
  }

  /** The logs after a run of messages, in arrival order. */
  function RelayAll(logs: Logs, messages: seq<Message>): Logs
    decreases |messages|
  {
    if messages == [] then logs else RelayAll(Relay(logs, messages[0]), messages[1..])
  }

  /** The contents of the console messages, in order. */
  function ConsoleContents(messages: seq<Message>): seq<string>
    decreases |messages|
  {
    if messages == [] then []
    else (if messages[0].kind == "console" then [messages[0].content] else [])
         + ConsoleContents(messages[1..])
  }

  /** The entries of the error messages, in order. */
  function ErrorEntries(messages: seq<Message>): seq<ErrorEntry>
    decreases |messages|
  {
    if messages == [] then []
    else (if messages[0].kind == "error"
          then [ErrorEntry(messages[0].content, messages[0].line, messages[0].column)] else [])
         + ErrorEntries(messages[1..])
  }

  /** Every console message adds exactly one console entry and every error
      message exactly one error entry, in arrival order, after the entries
      already there, which stay as they were. */
  lemma {:induction false} RelayAllAppends(logs: Logs, messages: seq<Message>)
    ensures RelayAll(logs, messages) ==
              Logs(logs.console + ConsoleContents(messages), logs.errors + ErrorEntries(messages))
    decreases |messages|
  {
    if messages != [] {
      var m, rest := messages[0], messages[1..];
      var next := Relay(logs, m);
      RelayAllAppends(next, rest);
      var c := if m.kind == "console" then [m.content] else [];
      var e := if m.kind == "error" then [ErrorEntry(m.content, m.line, m.column)] else [];
      assert next == Logs(logs.console + c, logs.errors + e);
      assert ConsoleContents(messages) == c + ConsoleContents(rest);
      assert ErrorEntries(messages) == e + ErrorEntries(rest);
      assert logs.console + c + ConsoleContents(rest) == logs.console + (c + ConsoleContents(rest));
      assert logs.errors + e + ErrorEntries(rest) == logs.errors + (e + ErrorEntries(rest));
    }
  }

  /* ---------------------------------------------------------------------- */
  /* Component state                                                        */
  /* ---------------------------------------------------------------------- */

  /** The editor's state: the tabs, the active tab's id, the two logs and
      the document loaded in the preview frame. */
  class EditorState {
    var tabs: seq<Tab>
    var activeTab: int
    var consoleOutput: seq<string>
    var errors: seq<ErrorEntry>
    var preview: string

    function CurrentLogs(): Logs
      reads this
    {
      Logs(consoleOutput, errors)
    }

    constructor ()
      ensures tabs == InitialTabs() && activeTab == 1
      ensures consoleOutput == [] && errors == [] && preview == ""
    {
      tabs := InitialTabs();
      activeTab := 1;
      consoleOutput := [];
      errors := [];
      preview := "";
    }

    /** `handleCodeChange`. */
    method ChangeCode(value: string, tabId: int)
      modifies this`tabs
      ensures tabs == SetContent(old(tabs), tabId, value)
    {
      tabs := SetContent(tabs, tabId, value);
    }

    /** `handleLanguageChange`. */
    method ChangeLanguage(value: string, tabId: int)
      modifies this`tabs
      ensures tabs == SetLanguage(old(tabs), tabId, value)
    {
      tabs := SetLanguage(tabs, tabId, value);
    }

    /** `handleAddTab`, with the new tab's id given. */
    method AddTab(newId: int)
      modifies this`tabs, this`activeTab
      ensures tabs == old(tabs) + [NewTab(old(tabs), newId)]
      ensures activeTab == newId
    {
      var tab := NewTab(tabs, newId);
      tabs := tabs + [tab];
      activeTab := tab.id;
    }

    /** `handleCloseTab`. */
    method CloseTab(tabId: int)
      requires activeTab == tabId ==> tabs != []
      modifies this`tabs, this`activeTab
      ensures tabs == RemoveTab(old(tabs), tabId)
      ensures activeTab == ActiveAfterClose(old(tabs), old(activeTab), tabId)
    {
      var before := tabs;
      tabs := RemoveTab(tabs, tabId);
      if activeTab == tabId {
        activeTab := before[0].id;
      }
    }

    /** `handleLoadFile`, with the new tab's id given and `None` when no
      file was picked. */
    method LoadFile(file: Option<CodeUtils.FileData>, newId: int)
      modifies this`tabs
      ensures file.None? ==> tabs == old(tabs)
      ensures file.Some? ==> tabs == old(tabs) + [LoadedTab(file.value, newId)]
    {
      if file.Some? {
        tabs := tabs + [LoadedTab(file.value, newId)];
      }
    }

    /** `updatePreview`: loads the assembled document into the frame when
      the frame is mounted. */
    method UpdatePreview(frameMounted: bool)
      modifies this`preview
      ensures preview == if frameMounted then Assemble(tabs) else old(preview)
    {
      if frameMounted {
        preview := Assemble(tabs);
      }
    }

    /** `handleMessage`. */
    method HandleMessage(message: Message)
      modifies this`consoleOutput, this`errors
      ensures CurrentLogs() == Relay(old(CurrentLogs()), message)
      ensures message.kind == "console" ==>
                consoleOutput == old(consoleOutput) + [message.content] && errors == old(errors)
      ensures message.kind == "error" ==>
                && errors == old(errors) + [ErrorEntry(message.content, message.line, message.column)]
                && consoleOutput == old(consoleOutput)
      ensures message.kind !in {"console", "error"} ==>
                consoleOutput == old(consoleOutput) && errors == old(errors)
    {
      if message.kind == "console" {
        consoleOutput := consoleOutput + [message.content];
      } else if message.kind == "error" {
        errors := errors + [ErrorEntry(message.content, message.line, message.column)];
      }
    }
  }
}
