/**
 * `main`: the version shortcut, padding validation, mode selection, the
 * content each mode builds, decoration, and the hand-off to the console or
 * to the pager. Everything outside the program (files, stdin, the network,
 * pygments, rich's parsers and renderers) is a function of a `World`.
 */
module Cli {
  import opened Wrappers
  import opened Failures
  import opened LineRanges
  import opened Paths
  import opened Formats
  import opened PaddingSpec
  import opened Renderables
  import CsvTables
  import Pager

  const Version: string := "1.5.1"

  /** The command-line options of `main`. */
  datatype Options = Options(
    resource: string, version: bool, flags: Flags,
    head: Option<int>, tail: Option<int>,
    emoji: bool, left: bool, right: bool, center: bool,
    textLeft: bool, textRight: bool, textCenter: bool, textFull: bool,
    soft: bool, expand: bool, width: int, maxWidth: int,
    style: string, ruleStyle: string, ruleChar: string,
    padding: Option<string>, panel: string, panelStyle: string,
    theme: string, lineNumbers: bool, guides: bool, lexer: Option<string>,
    hyperlinks: bool, noWrap: bool, title: string, caption: string,
    exportHtml: string, pager: bool)

  /** The options as click fills them in when only a resource is given. */
  function DefaultOptions(resource: string): Options {
    Options(resource, false, NoFlags, None, None,
            false, false, false, false, false, false, false, false,
            false, false, -1, -1,
            "", "bright_green", "─",
            None, "none", "",
            "ansi_dark", false, false, None,
            false, false, "", "",
            "", false)
  }

  /** The body and, when present, the Content-Type header of an HTTP response. */
  datatype Response = Response(text: string, contentType: Option<string>)

  /** The outside world as `main` sees it. */
  datatype World = World(
    stdin: string,
    readFile: string -> Option<string>,              // open(path).read(); None when it raises
    fetch: string -> Response,                       // requests.get(url)
    lexerForMimetype: string -> Option<string>,      // pygments, None when it raises
    guessLexer: (string, string) -> Option<string>,  // pygments, None on ClassNotFound
    markupParses: string -> bool,                    // Text.from_markup succeeds
    styleParses: string -> bool,                     // Style.parse succeeds
    jsonParses: string -> bool,                      // rich's JSON accepts the text
    evaluates: string -> bool,                       // eval succeeds
    sniff: string -> CsvTables.Sniff,
    tokenize: (string, CsvTables.Dialect) -> Result<seq<CsvTables.Row>, string>,  // csv.reader to the end; Err on csv.Error
    consoleWidth: int,
    renderLines: (Renderable, int) -> seq<seq<Pager.Segment>>,
    printSucceeds: bool)

  /** What a run ends with when it does not fail. */
  datatype Output =
    | VersionText(text: string)
    | Usage
    | Printed(renderable: Renderable, maxWidth: Option<int>, softWrap: bool, justify: Justify, exportHtml: string)
    | Paged(title: string, renderable: Renderable, content: Pager.PagerRenderable, renderWidth: int, exportHtml: string)

  // ----- read_resource -----------------------------------------------------

  /** Python truthiness of an optional string. */
  predicate Given(s: Option<string>) {
    s.Some? && s.value != ""
  }

  predicate IsUrl(path: string) {
    StartsWith(path, "http://") || StartsWith(path, "https://")
  }

  /**
   * The lexer the resource's name suggests when the caller gave none:
   * COMMON_LEXERS by extension when there is one, the caller's value when
   * there is no extension.
   */
  function NamedLexer(path: string, lexer: Option<string>): (r: Option<string>)
    ensures Given(lexer) ==> r == lexer
    ensures !Given(lexer) && HasDotExtension(path) ==> r == CommonLexer(path)
    ensures !Given(lexer) && !HasDotExtension(path) ==> r == lexer
    ensures r != lexer ==> r == CommonLexer(path)
  {
    if Given(lexer) then lexer
    else if HasDotExtension(path) then CommonLexer(path)
    else lexer
  }

  /**
   * `read_resource`: the text of a URL, of stdin for "-", or of a file,
   * with the lexer to highlight it: the caller's when given, else one from
   * the extension, else (for a URL with a Content-Type) from the MIME type,
   * else (for a file) pygments' guess, falling back to "text".
   */
  function ReadResource(world: World, path: string, lexer: Option<string>): (r: Result<(string, Option<string>), Error>)
    ensures path == "" ==> r == Err(MissingPath)
    ensures r.Err? ==> r.error == MissingPath || r.error == Unreadable(path)
    ensures path == "-" ==> r == Ok((world.stdin, None))
    ensures IsUrl(path) ==> r.Ok? && r.value.0 == world.fetch(path).text
    ensures path != "" && !IsUrl(path) && path != "-" ==>
              && (r.Ok? <==> world.readFile(path).Some?)
              && (r.Err? ==> r.error == Unreadable(path))
              && (r.Ok? ==> r.value.0 == world.readFile(path).value)
    ensures r.Ok? && path != "-" && Given(lexer) ==> r.value.1 == lexer
    ensures r.Ok? && !IsUrl(path) && path != "-" ==> r.value.1.Some?
    ensures r.Ok? && !IsUrl(path) && path != "-" && !Given(lexer) && CommonLexer(path).Some? ==>
              r.value.1 == CommonLexer(path)
    ensures r.Ok? && IsUrl(path) && world.fetch(path).contentType.None? ==> r.value.1 == lexer
    ensures IsUrl(path) && world.fetch(path).contentType.Some? && !Given(lexer) ==>
              r.value.1 == (if NamedLexer(path, lexer).None?
                            then world.lexerForMimetype(CutAt(world.fetch(path).contentType.value, {';'}))
                            else NamedLexer(path, lexer))
    ensures r.Ok? && !IsUrl(path) && path != "-" && !Given(NamedLexer(path, lexer)) ==>
              r.value.1 == (var guess := world.guessLexer(path, r.value.0);
                            if guess.None? then Some("text") else guess)
  {
    if path == "" then Err(MissingPath)
    else if IsUrl(path) then
      var response := world.fetch(path);
      match response.contentType
      case None => Ok((response.text, lexer))
      case Some(header) =>
        var mimeType := CutAt(header, {';'});
        var named := NamedLexer(path, lexer);
        if named.None? then Ok((response.text, world.lexerForMimetype(mimeType)))
        else Ok((response.text, named))
    else if path == "-" then Ok((world.stdin, None))
    else
      match world.readFile(path)
      case None => Err(Unreadable(path))
      case Some(text) =>
        var named := NamedLexer(path, lexer);
        if Given(named) then Ok((text, named))
        else
          match world.guessLexer(path, text)
          case None => Ok((text, Some("text")))
          case Some(guess) => Ok((text, Some(guess)))
  }

  // ----- str.splitlines ----------------------------------------------------

  /** The characters `str.splitlines` breaks at ("\r\n" counts as one break). */
  const LineBoundaries: set<char> :=
    {'\n', '\r', '\U{000B}', '\U{000C}', '\U{001C}', '\U{001D}', '\U{001E}', '\U{0085}', '\U{2028}', '\U{2029}'}

  /** `len(s.splitlines())`. */
  function LineCount(s: string): (n: nat)
    ensures n <= |s|
    ensures n == 0 <==> s == []
    decreases |s|
  {
    if s == [] then 0
    else
      var k := FirstIndexIn(s, LineBoundaries);
      if k == |s| then 1
      else if s[k] == '\r' && k + 1 < |s| && s[k + 1] == '\n' then 1 + LineCount(s[k + 2..])
      else 1 + LineCount(s[k + 1..])
  }

  /** The lines, each followed by "\n". */
  function Terminated(lines: seq<string>): string
    decreases |lines|
  {
    if lines == [] then "" else lines[0] + "\n" + Terminated(lines[1..])
  }

  /** Text made of n newline-terminated lines counts n lines. */
  lemma {:induction false} LineCountTerminated(lines: seq<string>)
    requires forall i :: 0 <= i < |lines| ==> NoneOf(lines[i], LineBoundaries)
    ensures LineCount(Terminated(lines)) == |lines|
    decreases |lines|
  {
    if lines != [] {
      var line := lines[0];
      var rest := Terminated(lines[1..]);
      var s := line + "\n" + rest;
      assert s[..|line|] == line;
      assert s[|line|] == '\n';
      FirstIndexInUnique(s, LineBoundaries, |line|);
      assert s[|line| + 1..] == rest;
      LineCountTerminated(lines[1..]);
    }
  }

  // ----- the content of each mode ------------------------------------------

  /** `-L`, `-R`, `-C`, `-F`, tested in that order. */
  function TextJustify(o: Options): (j: Justify)
    ensures j == Left <==> o.textLeft
    ensures j == Right <==> !o.textLeft && o.textRight
    ensures j == Center <==> !o.textLeft && !o.textRight && o.textCenter
    ensures j == Full <==> !o.textLeft && !o.textRight && !o.textCenter && o.textFull
  {
    if o.textLeft then Left
    else if o.textRight then Right
    else if o.textCenter then Center
    else if o.textFull then Full
    else Default
  }

  /** `-l`, `-r`, `-c`, tested in that order. */
  function AlignOf(o: Options): (j: Justify)
    ensures j != Full
    ensures j == Left <==> o.left
    ensures j == Right <==> !o.left && o.right
    ensures j == Center <==> !o.left && !o.right && o.center
  {
    if o.left then Left
    else if o.right then Right
    else if o.center then Center
    else Default
  }

  /** A rule is centred unless the text is justified left, right or centre. */
  function RuleAlign(justify: Justify): (a: Justify)
    ensures a in {Left, Right, Center}
    ensures justify in {Left, Right, Center} ==> a == justify
  {
    match justify
    case Default => Center
    case Full => Center
    case _ => justify
  }

  /** The markup source: stdin for "-", otherwise the resource text itself. */
  function MarkupSource(o: Options, world: World): string {
    if o.resource == "-" then world.stdin else o.resource
  }

  /** The print and rule modes: parse the markup, then (with `--rule`) the rule style. */
  function TextContent(o: Options, world: World): Result<Option<Content>, Error> {
    var markup := MarkupSource(o, world);
    if !world.markupParses(markup) then Err(MarkupParse)
    else if !o.flags.rule then Ok(Some(MarkupText(markup, TextJustify(o), o.emoji, o.noWrap)))
    else if !world.styleParses(o.ruleStyle) then Err(RuleStyleParse)
    else Ok(Some(RuleLine(o.resource, o.ruleStyle, if o.ruleChar == "" then "─" else o.ruleChar,
                          RuleAlign(TextJustify(o)))))
  }

  /** The syntax mode: usage for no resource, else the code and its clip window. */
  function SyntaxContent(o: Options, world: World): Result<Option<Content>, Error> {
    if o.resource == "" then Ok(None)
    else
      var source: Result<(string, Option<string>), Error> :=
        if o.resource == "-" then Ok((world.stdin, o.lexer)) else ReadResource(world, o.resource, o.lexer);
      match source
      case Err(e) => Err(e)
      case Ok((code, lexer)) =>
        match Resolve(o.head, o.tail, LineCount(code))
        case Err(e) => Err(e)
        case Ok(range) => Ok(Some(SyntaxView(code, lexer, o.theme, o.lineNumbers, o.guides, !o.noWrap, range)))
  }

  /**
   * The content of every mode but CSV (which builds a table object), or the
   * error that stops it; `Ok(None)` is the usage message.
   */
  function Composed(o: Options, world: World, format: Format): Result<Option<Content>, Error>
    requires format != Auto && format != Csv
  {
    match format
    case Print => TextContent(o, world)
    case Rule => TextContent(o, world)
    case Json =>
      (match ReadResource(world, o.resource, o.lexer)
       case Err(e) => Err(e)
       case Ok((data, _)) => if world.jsonParses(data) then Ok(Some(JsonView(data))) else Err(JsonParse))
    case Markdown =>
      (match ReadResource(world, o.resource, o.lexer)
       case Err(e) => Err(e)
       case Ok((data, _)) => Ok(Some(MarkdownView(data, o.theme, o.hyperlinks))))
    case Rst =>
      (match ReadResource(world, o.resource, o.lexer)
       case Err(e) => Err(e)
       case Ok((data, _)) => Ok(Some(RstView(data, o.theme, if Given(o.lexer) then o.lexer.value else "python"))))
    case Inspect =>
      if world.evaluates(o.resource) then Ok(Some(InspectView(o.resource))) else Err(EvalFailed(o.resource))
    case Syntax => SyntaxContent(o, world)
  }

  /**
   * The CSV mode's decisions: the resource read with the "csv" lexer, then
   * the dialect, header and retained rows `render_csv` settles on, or the
   * first error.
   */
  function CsvOutcome(o: Options, world: World): Result<(bool, CsvTables.Row, seq<CsvTables.Row>), Error> {
    match ReadResource(world, o.resource, Some("csv"))
    case Err(e) => Err(e)
    case Ok((data, _)) => CsvTables.CsvPlan(o.resource, o.head, o.tail, data, world.sniff, world.tokenize)
  }

  /** The error that stops building the selected mode's content, if any. */
  function ComposeError(o: Options, world: World, format: Format): Option<Error>
    requires format != Auto
  {
    if format == Csv then
      (if CsvOutcome(o, world).Err? then Some(CsvOutcome(o, world).error) else None)
    else if Composed(o, world, format).Err? then Some(Composed(o, world, format).error)
    else None
  }

  /**
   * The print and rule modes case by case: markup that does not parse fails
   * first, with or without `--rule`; without `--rule` the markup is shown
   * with the text justification; with it, a rule style that does not parse
   * fails, and otherwise the rule is titled with the resource, drawn with
   * "─" unless another character is given, and aligned as RuleAlign says.
   */
  lemma TextContentCases(o: Options, world: World)
    ensures !world.markupParses(MarkupSource(o, world)) ==> TextContent(o, world) == Err(MarkupParse)
    ensures world.markupParses(MarkupSource(o, world)) && !o.flags.rule ==>
              TextContent(o, world) == Ok(Some(MarkupText(MarkupSource(o, world), TextJustify(o), o.emoji, o.noWrap)))
    ensures world.markupParses(MarkupSource(o, world)) && o.flags.rule && !world.styleParses(o.ruleStyle) ==>
              TextContent(o, world) == Err(RuleStyleParse)
    ensures TextContent(o, world).Ok? && o.flags.rule ==>
              var c := TextContent(o, world).value;
              && c.Some? && c.value.RuleLine?
              && c.value.title == o.resource && c.value.style == o.ruleStyle
              && c.value.characters == (if o.ruleChar == "" then "─" else o.ruleChar)
              && c.value.align == RuleAlign(TextJustify(o))
    ensures TextContent(o, world).Ok? ==> TextContent(o, world).value.Some?
  {
  }

  /** The print and rule modes: console markup, drawn as a rule under `--rule`. */
  method ComposeText(o: Options, world: World) returns (r: Result<Option<Content>, Error>)
    ensures r == TextContent(o, world)
  {
    var markup := if o.resource == "-" then world.stdin else o.resource;
    var justify := TextJustify(o);
    if !world.markupParses(markup) {
      return Err(MarkupParse);
    }
    var content := MarkupText(markup, justify, o.emoji, o.noWrap);
    if o.flags.rule {
      if !world.styleParses(o.ruleStyle) {
        return Err(RuleStyleParse);
      }
      content := RuleLine(o.resource, o.ruleStyle, if o.ruleChar == "" then "─" else o.ruleChar,
                          if justify == Full || justify == Default then Center else justify);
    }
    return Ok(Some(content));
  }

  /** The syntax mode: the usage screen without a resource, else highlighted code clipped to the line range. */
  method ComposeSyntax(o: Options, world: World) returns (r: Result<Option<Content>, Error>)
    ensures r == SyntaxContent(o, world)
  {
    if o.resource == "" {
      return Ok(None);
    }
    var code: string;
    var lexer := o.lexer;
    if o.resource == "-" {
      code := world.stdin;
    } else {
      var read := ReadResource(world, o.resource, o.lexer);
      if read.Err? {
        return Err(read.error);
      }
      code, lexer := read.value.0, read.value.1;
    }
    var numLines := LineCount(code);
    var lineRange := Resolve(o.head, o.tail, numLines);
    if lineRange.Err? {
      return Err(lineRange.error);
    }
    return Ok(Some(SyntaxView(code, lexer, o.theme, o.lineNumbers, o.guides, !o.noWrap, lineRange.value)));
  }

  /** The branch of `main` for the selected mode. */
  method Compose(o: Options, world: World, format: Format) returns (r: Result<Option<Content>, Error>)
    requires format != Auto
    ensures format != Csv ==> r == Composed(o, world, format)
    ensures format == Csv ==>
              var outcome := CsvOutcome(o, world);
              && (r.Err? <==> outcome.Err?)
              && (r.Err? ==> r.error == outcome.error)
              && (r.Ok? ==> r.value.Some? && r.value.value.TableView? && fresh(r.value.value.table)
                            && CsvTables.Renders(r.value.value.table, o.title, o.caption, outcome.value))
  {
    if format == Print || format == Rule {
      r := ComposeText(o, world);
    } else if format == Json {
      var read := ReadResource(world, o.resource, o.lexer);
      if read.Err? {
        return Err(read.error);
      }
      if !world.jsonParses(read.value.0) {
        return Err(JsonParse);
      }
      return Ok(Some(JsonView(read.value.0)));
    } else if format == Markdown {
      var read := ReadResource(world, o.resource, o.lexer);
      if read.Err? {
        return Err(read.error);
      }
      return Ok(Some(MarkdownView(read.value.0, o.theme, o.hyperlinks)));
    } else if format == Rst {
      var read := ReadResource(world, o.resource, o.lexer);
      if read.Err? {
        return Err(read.error);
      }
      return Ok(Some(RstView(read.value.0, o.theme, if Given(o.lexer) then o.lexer.value else "python")));
    } else if format == Inspect {
      if !world.evaluates(o.resource) {
        return Err(EvalFailed(o.resource));
      }
      return Ok(Some(InspectView(o.resource)));
    } else if format == Csv {
      var read := ReadResource(world, o.resource, Some("csv"));
      if read.Err? {
        return Err(read.error);
      }
      var table := CsvTables.RenderCsv(o.resource, o.head, o.tail, o.title, o.caption, read.value.0, world.sniff, world.tokenize);
      if table.Err? {
        return Err(table.error);
      }
      return Ok(Some(TableView(table.value)));
    } else {
      r := ComposeSyntax(o, world);
    }
  }

  /** Without a resource the syntax mode prints the usage; no other mode ever does. */
  lemma UsageOnlyWithoutResource(o: Options, world: World, format: Format)
    requires format != Auto && format != Csv
    ensures Composed(o, world, format) == Ok(None) <==> format == Syntax && o.resource == ""
  {
  }

  /** The modes that read a resource fail with "missing path or URL" when there is none. */
  lemma ReadingModesNeedResource(o: Options, world: World, format: Format)
    requires format in {Json, Markdown, Rst} && o.resource == ""
    ensures Composed(o, world, format) == Err(MissingPath)
  {
  }

  /** Syntax highlighting of a readable resource fails when both head and tail are set (and non-zero). */
  lemma SyntaxRejectsHeadWithTail(o: Options, world: World)
    requires o.resource != "" && (o.resource == "-" || ReadResource(world, o.resource, o.lexer).Ok?)
    requires Truthy(o.head) && Truthy(o.tail)
    ensures Composed(o, world, Syntax) == Err(ConflictingRange)
  {
  }

  /** The syntax view clips to the window `_line_range` computes from the code's line count. */
  lemma SyntaxWindow(o: Options, world: World)
    requires Composed(o, world, Syntax).Ok? && Composed(o, world, Syntax).value.Some?
    ensures var c := Composed(o, world, Syntax).value.value;
            c.SyntaxView? && Resolve(o.head, o.tail, LineCount(c.code)) == Ok(c.lineRange) &&
            c.wordWrap == !o.noWrap
  {
  }

  /** Restructured text shows the text read, and falls back to highlighting code blocks as Python. */
  lemma RstDefaultLexer(o: Options, world: World, data: string, lexer: Option<string>)
    requires !Given(o.lexer) && ReadResource(world, o.resource, o.lexer) == Ok((data, lexer))
    ensures Composed(o, world, Rst) == Ok(Some(RstView(data, o.theme, "python")))
  {
  }

  /** `--rule` draws a rule titled with the resource in both the print and the rule mode. */
  lemma RuleFlagDrawsRule(o: Options, world: World, format: Format)
    requires format in {Print, Rule} && o.flags.rule
    requires world.markupParses(MarkupSource(o, world)) && world.styleParses(o.ruleStyle)
    ensures var c := Composed(o, world, format);
            c.Ok? && c.value.Some? && c.value.value.RuleLine? && c.value.value.title == o.resource
  {
  }

  // ----- main --------------------------------------------------------------

  /** The padding `main` applies: none unless a non-empty spec is given. */
  function PaddingOf(o: Options): (r: Result<seq<int>, Error>)
    ensures o.padding.None? || o.padding.value == "" ==> r == Ok([])
    ensures r.Ok? ==> |r.value| in {0, 1, 2, 4}
    ensures r.Err? ==> r.error == InvalidPadding
  {
    if o.padding.Some? && o.padding.value != "" then ParsePadding(o.padding.value) else Ok([])
  }

  /** The decoration options of a run. */
  function DecorationOf(o: Options, pads: seq<int>): Decoration {
    Decoration(pads, o.expand, o.width, o.pager, o.panel, o.panelStyle, o.title, o.caption, o.style, AlignOf(o))
  }

  /** The content is what the selected mode builds: the composed content, or for CSV the table of its plan. */
  ghost predicate ShowsContent(o: Options, world: World, c: Content)
    reads if c.TableView? then {c.table} else {}
  {
    var f := ExpectedFormat(o.flags, o.resource);
    if f == Csv then
      c.TableView? && CsvOutcome(o, world).Ok? && CsvTables.Renders(c.table, o.title, o.caption, CsvOutcome(o, world).value)
    else Composed(o, world, f) == Ok(Some(c))
  }

  /** With only a resource given, nothing is wrapped around the content. */
  lemma DefaultsDecorateNothing(resource: string)
    ensures PaddingOf(DefaultOptions(resource)) == Ok([])
    ensures DecorationLayers(DecorationOf(DefaultOptions(resource), [])) == []
  {
  }

  /**
   * The end of `main` once the content exists: decorate it, then hand it to
   * the pager (at the console's width when none is given, rendered one
   * column narrower) or print it.
   */
  method Present(o: Options, world: World, pads: seq<int>, content: Content) returns (r: Result<Output, Error>)
    ensures var failure := DecorationError(DecorationOf(o, pads), world.styleParses);
            && (r.Err? <==> failure.Some? || (!o.pager && !world.printSucceeds))
            && (r.Err? ==> r.error == if failure.Some? then failure.value else PrintFailed)
    ensures r.Ok? ==>
              && (r.value.Printed? || r.value.Paged?)
              && Core(r.value.renderable) == content
              && Layers(r.value.renderable) == DecorationLayers(DecorationOf(o, pads))
    ensures r.Ok? && r.value.Printed? ==>
              && !o.pager && world.printSucceeds
              && r.value.maxWidth == (if o.maxWidth <= 0 then None else Some(o.maxWidth))
              && r.value.softWrap == o.soft && r.value.justify == AlignOf(o) && r.value.exportHtml == o.exportHtml
    ensures r.Ok? && r.value.Paged? ==>
              && o.pager && fresh(r.value.content) && r.value.title == o.resource
              && r.value.content.width == (if o.width < 0 then world.consoleWidth else o.width)
              && r.value.renderWidth == r.value.content.width - 1 && !r.value.content.newLines
              && r.value.content.lines == world.renderLines(r.value.renderable, r.value.renderWidth)
              && r.value.exportHtml == o.exportHtml
  {
    var d := DecorationOf(o, pads);
    var decorated := Decorate(content, d, world.styleParses);
    if decorated.Err? {
      return Err(decorated.error);
    }
    var renderable := decorated.value;

    var justify := AlignOf(o);
    if o.pager {
      var width := o.width;
      if width < 0 {
        width := world.consoleWidth;
      }
      var lines := world.renderLines(renderable, width - 1);
      var pagerContent := new Pager.PagerRenderable(lines, width := width);
      return Ok(Paged(o.resource, renderable, pagerContent, width - 1, o.exportHtml));
    } else {
      if !world.printSucceeds {
        return Err(PrintFailed);
      }
      return Ok(Printed(renderable, if o.maxWidth <= 0 then None else Some(o.maxWidth), o.soft, justify, o.exportHtml));
    }
  }

  /**
   * `main`: the version, the padding, the mode and its content, the
   * decorations, then the pager or the console.
   */
  method Run(o: Options, world: World) returns (r: Result<Output, Error>)
    ensures o.version ==> r == Ok(VersionText(Version + "\n"))
    ensures !o.version && PaddingOf(o).Err? ==> r == Err(InvalidPadding)
    ensures var f := ExpectedFormat(o.flags, o.resource);
            !o.version && PaddingOf(o).Ok? && ComposeError(o, world, f).Some? ==>
              r == Err(ComposeError(o, world, f).value)
    ensures var f := ExpectedFormat(o.flags, o.resource);
            !o.version && PaddingOf(o).Ok? && f != Csv && Composed(o, world, f) == Ok(None) ==> r == Ok(Usage)
    ensures var f := ExpectedFormat(o.flags, o.resource);
            !o.version && PaddingOf(o).Ok? && ComposeError(o, world, f).None? &&
            (f == Csv || Composed(o, world, f) != Ok(None)) ==>
              var failure := DecorationError(DecorationOf(o, PaddingOf(o).value), world.styleParses);
              && (r.Err? <==> failure.Some? || (!o.pager && !world.printSucceeds))
              && (r.Err? ==> r.error == if failure.Some? then failure.value else PrintFailed)
              && (r.Ok? ==> r.value.Printed? || r.value.Paged?)
    ensures r.Ok? && r.value.Usage? ==> !o.version && ExpectedFormat(o.flags, o.resource) == Syntax && o.resource == ""
    ensures r.Ok? && (r.value.Printed? || r.value.Paged?) ==>
              && !o.version && PaddingOf(o).Ok?
              && ShowsContent(o, world, Core(r.value.renderable))
              && Layers(r.value.renderable) == DecorationLayers(DecorationOf(o, PaddingOf(o).value))
    ensures r.Ok? && r.value.Printed? ==>
              && !o.pager && world.printSucceeds
              && r.value.maxWidth == (if o.maxWidth <= 0 then None else Some(o.maxWidth))
              && r.value.softWrap == o.soft && r.value.justify == AlignOf(o) && r.value.exportHtml == o.exportHtml
    ensures r.Ok? && r.value.Paged? ==>
              && o.pager && fresh(r.value.content) && r.value.title == o.resource
              && r.value.content.width == (if o.width < 0 then world.consoleWidth else o.width)
              && r.value.renderWidth == r.value.content.width - 1 && !r.value.content.newLines
              && r.value.content.lines == world.renderLines(r.value.renderable, r.value.renderWidth)
              && r.value.exportHtml == o.exportHtml
  {
    if o.version {
      return Ok(VersionText(Version + "\n"));
    }

    var pads: seq<int> := [];
    if o.padding.Some? && o.padding.value != "" {
      var parsed := ParsePadding(o.padding.value);
      if parsed.Err? {
        return Err(parsed.error);
      }
      pads := parsed.value;
    }

    var format := ResolveFormat(o.flags, o.resource);
    var composed := Compose(o, world, format);
    if composed.Err? {
      return Err(composed.error);
    }
    if composed.value.None? {
      UsageOnlyWithoutResource(o, world, format);
      return Ok(Usage);
    }
    var content := composed.value.value;

    r := Present(o, world, pads, content);
  }
}
