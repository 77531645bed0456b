# rich-cli: a Dafny model of the command's core

rich-cli is the `rich` command. It renders one resource in the terminal: a file, a URL, literal text or standard input. The output can be syntax-highlighted code, markdown, restructured text, JSON, a CSV table, console markup, a rule or an inspected Python object. That content can optionally be wrapped in padding, a panel, a style and a forced width, and it is either printed or shown in an interactive pager.

This project models the decision logic of that command, from `src/rich_cli/__main__.py` and `src/rich_cli/pager.py`. Rendering, terminal I/O and the libraries the command calls are left out.

Modules, one per file:

- `Wrappers` (`wrappers.dfy`): `Option` and `Result`.
- `Failures` (`failures.dfy`): the user-input errors that `on_error` reports, as the error side of a `Result`.
- `LineRanges` (`line_range.dfy`): `_line_range`, the head/tail clip window of the syntax view.
- `Paths` (`paths.dfy`): the string functions Python provides for the format and lexer choice:
  - `str.lower`, `rfind` and `rpartition`;
  - POSIX `os.path.splitext`;
  - the path that `urllib.parse.urlparse` extracts;
  - the `COMMON_LEXERS` lookup.
- `Formats` (`formats.dfy`): choosing the mode. The first set flag in a fixed order wins; otherwise the extension decides; otherwise the mode is syntax.
- `PaddingSpec` (`padding.dfy`): `str.split`, Python's `int()` on a token, and validation of the padding spec.
- `CsvTables` (`csv_table.dfy`): `render_csv`. It covers:
  - choosing the dialect;
  - consuming the header;
  - dropping empty rows;
  - head/tail clipping;
  - a `Table` class with rich's `add_column`/`add_row` semantics;
  - the numeric-column loop and its for/else;
  - the `is_number` regular expression.
- `Renderables` (`renderable.dfy`): the content each mode builds and the decoration chain, which runs padding, panel, style, then either a forced width or (in the pager) an alignment. It also covers `ForceWidth`'s measurement.
- `Pager` (`pager.dfy`): `PagerRenderable`, plus the `PagerApp` key handler driving a scroll view.
- `Cli` (`cli.dfy`): `main`. It covers:
  - the version shortcut and padding validation;
  - the mode and the content each mode builds;
  - `read_resource`'s choice of lexer;
  - `len(str.splitlines())`;
  - decoration, then the hand-off to the console or the pager.

  Files, stdin, the network, pygments, and rich's markup, style and JSON parsers are functions of a `World` value that the run is given.

Points of the code that are easy to misread, which the model keeps as written:

- **Flag precedence.** The flags are tested in the order print, syntax, json, markdown, rule, inspect, csv, rst (`__main__.py:464-480`).
- **Head/tail conflict.** It is tested by Python truthiness (`if head and tail`). A zero head or tail counts as absent.
- **Tail window.** It is `(n - tail + 2, n + 1)`. Of the file's own lines it covers `tail - 1`. The model keeps this arithmetic and states it (`LineRanges.TailWindowShowsOneLineFewer`).
- **Scroll offsets.** The pager never clamps them itself. Clamping belongs to textual's `ScrollView`, which is not modelled.
- **Empty columns.** A column whose retained cells are all empty counts as numeric. With no retained rows, every column counts as numeric.

## Model

| member | source | states |
|---|---|---|
| LineRanges.Resolve | src/rich_cli/__main__.py:781-794 | both head and tail truthy is the "cannot specify both" error; head gives (1, head); tail gives a window of exactly `tail` positions ending at numLines + 1; neither gives no window |
| LineRanges.TailWindowOrdered | src/rich_cli/__main__.py:788-791 | a non-zero tail gives a window with start <= end exactly when tail >= 1 |
| LineRanges.LinesShown | src/rich_cli/__main__.py:787-791 | how many existing lines a window covers: never more than the file has, and none exactly when the window misses lines 1..numLines |
| LineRanges.TailWindowShowsOneLineFewer | src/rich_cli/__main__.py:788-791 | a tail window covers the last tail - 1 lines of the file |
| LineRanges.HeadWindowShowsHeadLines | src/rich_cli/__main__.py:786-787 | a head window covers min(head, numLines) lines |
| Paths.Lower | src/rich_cli/__main__.py:494-496 | `.lower()` keeps the length and lower-cases each character |
| Paths.LastIndexOf | src/rich_cli/__main__.py:88 | rfind: the index holds the character and no later index does, or -1 |
| Paths.LastIndexOfUnique | src/rich_cli/__main__.py:88 | that contract determines rfind's result |
| Paths.LastIndexOfAppend | src/rich_cli/__main__.py:88 | rfind on a concatenation looks in the right part first |
| Paths.FirstIndexIn | src/rich_cli/__main__.py:82-83 | the first index holding one of the characters, with none before it |
| Paths.FirstIndexInUnique | src/rich_cli/__main__.py:82-83 | that contract determines the first index |
| Paths.SplitExt | src/rich_cli/__main__.py:494-496 | POSIX `os.path.splitext(p)[1]`, a specification function: its shape is stated by SplitExtShape and its value by SplitExtOfName and SplitExtOfDotsOnlyName |
| Paths.CutAt | src/rich_cli/__main__.py:82-83 | `split(";", 1)[0]`: a prefix free of the separators that ends at the first separator, the whole string when it has none |
| Paths.SplitExtShape | src/rich_cli/__main__.py:494-496 | splitext's suffix is empty or a suffix of the path that starts with '.' and holds no further '.' or '/' |
| Paths.SplitExtOfName | src/rich_cli/__main__.py:494-496 | a file name with a real stem and the suffix "." + name has extension "." + name |
| Paths.SplitExtOfDotsOnlyName | src/rich_cli/__main__.py:494-496 | when the file name before the last dot is only dots (".md", "..md", "docs/.md"), the extension is empty |
| Paths.HiddenFileHasNoExtension | src/rich_cli/__main__.py:494-496 | the hidden files ".md" and "docs/.md" have no extension |
| Paths.RemoveUnsafe | src/rich_cli/__main__.py:490 | urlparse first deletes tab, CR and LF: the result holds none of them and a string without them is unchanged |
| Paths.RemoveUnsafeAppend | src/rich_cli/__main__.py:490 | the removal distributes over concatenation, so the kept characters stay in order |
| Paths.RemoveUnsafeChar | src/rich_cli/__main__.py:490 | a single character is dropped exactly when it is tab, CR or LF; with RemoveUnsafeAppend this fixes the result for every string |
| Paths.UrlPath | src/rich_cli/__main__.py:487-494 | the path urlparse extracts holds no '#', '?', tab, CR or LF |
| Paths.SplitParams | src/rich_cli/__main__.py:490 | urlparse's `;params` split keeps a prefix of the path and changes nothing without ';' |
| Paths.UrlPathOfPlainUrl | src/rich_cli/__main__.py:487-494 | for "https://" + host + path, with a plain host and a plain path, the extracted path is that path |
| Paths.ResourceExtension | src/rich_cli/__main__.py:485-496 | the extension deciding the format is empty or starts with '.' |
| Paths.CommonLexer | src/rich_cli/__main__.py:88-91 | a lexer is chosen only for a path whose last '.' has at least one character after it |
| Paths.CommonLexerSpec | src/rich_cli/__main__.py:30-38 | a COMMON_LEXERS value is chosen only through a key that, after a '.', ends the lower-cased path |
| Paths.CommonLexerOfName | src/rich_cli/__main__.py:87-91 | any stem plus a known extension, in any letter case, selects that extension's lexer |
| Formats.FirstFlaggedSpec | src/rich_cli/__main__.py:464-480 | none exactly when no flag in the order is set; otherwise a set flag with every earlier one unset |
| Formats.FirstFlaggedCons | src/rich_cli/__main__.py:464-480 | the first flagged mode of m followed by a list is m when m is flagged, else the first flagged of the rest |
| Formats.PrecedenceUnfolded | src/rich_cli/__main__.py:464-480 | the precedence list is the if/elif chain print, syntax, json, markdown, rule, inspect, csv, rst |
| Formats.ExtensionFormat | src/rich_cli/__main__.py:498-505 | a mode exactly for .md, .json, .csv, .tsv and .rst: markdown exactly for .md, json exactly for .json, CSV exactly for .csv and .tsv, rst exactly for .rst |
| Formats.ExpectedFormat | src/rich_cli/__main__.py:464-508 | the selected mode is never "auto" |
| Formats.ResolveFormat | src/rich_cli/__main__.py:464-508 | the mode is the first set flag; else, for a resource containing '.', its extension's mode; else syntax; never auto |
| Formats.NoFlagWinsOnlyWithoutFlags | src/rich_cli/__main__.py:464-480 | no flag wins exactly when no flag is set |
| Formats.EarlierFlagWins | src/rich_cli/__main__.py:464-480 | a later mode never wins over an earlier flagged one, so several flags are never an error |
| Formats.NamedResourceExtension | src/rich_cli/__main__.py:485-496 | a local resource stem.name has extension "." + lower(name) |
| Formats.DotNameFormat | src/rich_cli/__main__.py:498-505 | the format of "." + name is decided by name alone |
| Formats.NamedResourceFormat | src/rich_cli/__main__.py:482-505 | a local resource stem.NAME gets the mode of lower(NAME), so ".MD" and ".md" both mean markdown |
| PaddingSpec.Split | src/rich_cli/__main__.py:455 | `str.split(sep)` gives at least one part and no part holds the separator |
| PaddingSpec.JoinSplit | src/rich_cli/__main__.py:455 | joining the parts with the separator gives back the string |
| PaddingSpec.SplitJoin | src/rich_cli/__main__.py:455 | splitting parts joined by a separator none of them holds gives the parts back |
| PaddingSpec.TrimStart | src/rich_cli/__main__.py:455 | int() ignores leading whitespace: the suffix left after removing whitespace only, starting with a non-space |
| PaddingSpec.TrimEnd | src/rich_cli/__main__.py:455 | int() ignores trailing whitespace: the prefix left after removing whitespace only, ending with a non-space |
| PaddingSpec.Strip | src/rich_cli/__main__.py:455 | `str.strip()`: no longer than the text and, when not empty, starting and ending with a non-space |
| PaddingSpec.Natural | src/rich_cli/__main__.py:455 | decimal digits of a natural number: non-empty, all digits |
| PaddingSpec.Decimal | src/rich_cli/__main__.py:455 | the decimal text of an integer holds no comma and ends with a digit |
| PaddingSpec.NaturalValue | src/rich_cli/__main__.py:455 | the digit value of a natural number's digits is that number |
| PaddingSpec.ParseDecimal | src/rich_cli/__main__.py:455 | int() of any integer's decimal text gives that integer back |
| PaddingSpec.ParseInt | src/rich_cli/__main__.py:455 | Python's `int()` on one token, a specification function: ParseDecimal shows it reads back every integer's decimal text, and ParsePadding builds on it |
| PaddingSpec.CollectAll | src/rich_cli/__main__.py:455 | collecting parse outcomes succeeds exactly when every one is a value, and keeps the values in order |
| PaddingSpec.ParseAllTokens | src/rich_cli/__main__.py:455 | the list comprehension succeeds exactly when every token parses, and keeps their values in order |
| PaddingSpec.ParsePadding | src/rich_cli/__main__.py:452-460 | an empty spec gives no padding; otherwise success exactly when every comma-separated token is an int and there are 1, 2 or 4 of them, with those values; any failure is the padding error |
| PaddingSpec.DecimalTokensParse | src/rich_cli/__main__.py:455 | int() of each integer's decimal text gives back the list of integers |
| PaddingSpec.PaddingRoundTrip | src/rich_cli/__main__.py:452-460 | 1, 2 or 4 integers written with commas parse back to the same padding |
| CsvTables.SniffWindow | src/rich_cli/__main__.py:725-726 | the sniffer sees the first min(n, 1024) characters of the text |
| CsvTables.ResolveDialect | src/rich_cli/__main__.py:723-735 | the sniffed dialect and header when sniffing succeeds; otherwise a name ending in .csv or .tsv in any case gives excel or excel-tab with a header, and any other name is the sniffer's error |
| CsvTables.CsvSuffixFallback | src/rich_cli/__main__.py:727-730 | a failed sniff on any stem + ".csv"-in-any-case falls back to the comma dialect with a header |
| CsvTables.TsvSuffixFallback | src/rich_cli/__main__.py:731-733 | likewise ".tsv" falls back to the tab dialect with a header |
| CsvTables.NonEmpty | src/rich_cli/__main__.py:754 | the retained rows are non-empty rows of the input |
| CsvTables.NonEmptyAppend | src/rich_cli/__main__.py:754 | the filter distributes over concatenation, so relative order is kept |
| CsvTables.NonEmptyKeepsFilled | src/rich_cli/__main__.py:759-761 | rows that are all non-empty pass the filter (and the `if row` test) unchanged |
| CsvTables.SliceTo | src/rich_cli/__main__.py:756 | `rows[:k]` is a prefix |
| CsvTables.SliceFrom | src/rich_cli/__main__.py:758 | `rows[k:]` is a suffix |
| CsvTables.ClipRows | src/rich_cli/__main__.py:755-758 | the clipped rows are one contiguous run of the retained rows |
| CsvTables.HeadKeepsFirstRows | src/rich_cli/__main__.py:755-756 | a head keeps the first head rows whatever the tail |
| CsvTables.TailKeepsLastRows | src/rich_cli/__main__.py:757-758 | without a head, a positive tail keeps the last tail rows |
| CsvTables.ZeroTailKeepsAllRows | src/rich_cli/__main__.py:757-758 | a zero tail, `rows[-0:]`, keeps every row |
| CsvTables.LeadingDigits | src/rich_cli/__main__.py:720 | the length of the longest all-digit prefix |
| CsvTables.IsNumberMatchesPattern | src/rich_cli/__main__.py:720 | the recogniser accepts exactly optional '-', digits, optional '.', digits, with every part optional |
| CsvTables.IsNumber | src/rich_cli/__main__.py:720 | the `is_number` test, a specification function: IsNumberMatchesPattern states that it accepts exactly the language of the regular expression |
| CsvTables.RecognisedHasPattern | src/rich_cli/__main__.py:720 | every accepted cell has that shape |
| CsvTables.UnsignedHasPattern | src/rich_cli/__main__.py:720 | the unsigned rest of an accepted cell has that shape |
| CsvTables.PatternWitness | src/rich_cli/__main__.py:720 | a string built from the parts has the shape |
| CsvTables.PatternRecognised | src/rich_cli/__main__.py:720 | every string of that shape is accepted |
| CsvTables.LeadingDigitsStop | src/rich_cli/__main__.py:720 | the digit prefix stops where a non-digit follows |
| CsvTables.AsNumeric | src/rich_cli/__main__.py:774-776 | a numeric column keeps header and cells and becomes right-justified with "bold green" style and header style |
| CsvTables.Blanks | src/rich_cli/__main__.py:759-761 | n empty cells |
| CsvTables.AppendRow | src/rich_cli/__main__.py:759-761 | add_row gives each column the row's cell (empty for a short row) and opens a new unnamed column, blank above, for each extra cell |
| CsvTables.Table.constructor | src/rich_cli/__main__.py:740-747 | the table starts with the given header flag, box, border style, title, caption and caption justification, and no columns or rows |
| CsvTables.Table.AddColumn | src/rich_cli/__main__.py:751-752 | add_column appends one empty left-justified column and changes nothing else |
| CsvTables.Table.AddRow | src/rich_cli/__main__.py:759-761 | add_row is AppendRow on the columns, one more row, and keeps every column one cell per row |
| CsvTables.Width | src/rich_cli/__main__.py:748-761 | the column count is at least the header's and at least every row's length |
| CsvTables.ColumnCells | src/rich_cli/__main__.py:759-761 | a column holds one cell per row: the row's own or an empty one |
| CsvTables.FilledColumns | src/rich_cli/__main__.py:748-761 | after header and rows, column i has header cell i and cell i of every row |
| CsvTables.ExpectedColumns | src/rich_cli/__main__.py:740-776 | the returned columns: headers and cells as filled, right-justified and bold green exactly when the column is numeric |
| CsvTables.FilledColumnsStep | src/rich_cli/__main__.py:759-761 | adding one more row to the filled columns is add_row |
| CsvTables.MarkedAreExpected | src/rich_cli/__main__.py:763-776 | marking the numeric columns of the filled columns gives the expected columns |
| CsvTables.SampleTableColumns | src/rich_cli/__main__.py:763-776 | header a,b over rows 1,2 and 3,x: column a is right-justified with cells 1,3; column b stays left-justified with cells 2,x |
| CsvTables.AddHeader | src/rich_cli/__main__.py:749-752 | the header loop leaves one empty column per header cell, in order |
| CsvTables.AddRows | src/rich_cli/__main__.py:759-761 | the row loop leaves the filled columns of the non-empty rows and counts them |
| CsvTables.ScanColumn | src/rich_cli/__main__.py:764-773 | the inner scan runs to the end exactly when every row has a cell at the index that is empty or number-shaped |
| CsvTables.MarkNumeric | src/rich_cli/__main__.py:763-776 | exactly the numeric columns are marked; every other column and the table's other attributes are unchanged |
| CsvTables.RenderCsv | src/rich_cli/__main__.py:698-778 | fails exactly as CsvPlan does, with its error (dialect choice, the reader's uncaught `csv.Error`, or a missing header row); otherwise a new table that Renders the plan: heavy-head box with a header, blue border, title, right-justified caption, the expected columns and one row per clipped non-empty row |
| CsvTables.CsvPlan | src/rich_cli/__main__.py:723-758 | a dialect error is returned as is; a `csv.Error` raised while reading the rows escapes as that error whether a header is expected or not; otherwise it fails exactly when a header is expected and the reader gives no rows; a plan carries the sniffed or fallback header flag and only non-empty rows; RenderCsv is proved against it |
| CsvTables.Renders | src/rich_cli/__main__.py:740-776 | the returned table: a heavy-head box exactly with a header, a blue border, the title and a right-justified caption, the expected columns and one row per retained row |
| CsvTables.HeaderAndRows | src/rich_cli/__main__.py:748-758 | fails with the missing-header error exactly when a header is expected and there are no rows; otherwise the header is the first row (or nothing) and the data are the remaining non-empty rows clipped by head then tail |
| CsvTables.Populate | src/rich_cli/__main__.py:748-776 | adds the header columns, then every row, then marks the numeric columns; the table ends with exactly the expected columns and one row per data row, its other settings unchanged |
| Renderables.Apply | src/rich_cli/__main__.py:620-670 | each decoration wraps the renderable it is given |
| Renderables.WrapThenTakeApart | src/rich_cli/__main__.py:620-670 | wrapping content in layers and taking it apart gives back the content and the same layers |
| Renderables.TakeApartThenWrap | src/rich_cli/__main__.py:620-670 | every renderable is its content wrapped in its layers |
| Renderables.Upper | src/rich_cli/__main__.py:637 | `panel.upper()` keeps the length and upper-cases each character |
| Renderables.Decorate | src/rich_cli/__main__.py:449-450 | a positive width forces expand; decoration fails with the panel-style error before the style error; otherwise the content is wrapped in exactly the requested layers, in order |
| Renderables.DecorationLayers | src/rich_cli/__main__.py:620-670 | the layers the options ask for, a specification function: DecorationOrdered, ForceWidthOutermost and PlainDecorationIsIdentity state its order and its cases |
| Renderables.DecorationError | src/rich_cli/__main__.py:630-651 | the style error decoration stops at, a specification function: Decorate is proved to fail exactly with it, the panel style first |
| Renderables.Frame | src/rich_cli/__main__.py:620-642 | fails exactly when a panel is requested with a style that does not parse; otherwise the content is wrapped in padding (if any) and then the panel (if any), in that order |
| Renderables.DecorationOrdered | src/rich_cli/__main__.py:620-670 | padding is innermost, then panel, then style, then forced width or alignment, each at most once |
| Renderables.PlainDecorationIsIdentity | src/rich_cli/__main__.py:620-656 | with default options nothing is wrapped around the content |
| Renderables.ForceWidthOutermost | src/rich_cli/__main__.py:655-656 | a forced width is the outermost layer exactly when width > 0 outside the pager, and appears nowhere else |
| Renderables.WidthForcesExpand | src/rich_cli/__main__.py:449-450 | a positive width makes padding and panel expand |
| Renderables.Measure | src/rich_cli/__main__.py:136-141 | a ForceWidth measures (width, width) whatever it wraps; the other renderables are measured by rich |
| Renderables.DecoratedMeasure | src/rich_cli/__main__.py:655-656 | outside the pager a positive width makes the decorated output measure exactly (width, width) |
| Pager.EmittedAppend | src/rich_cli/pager.py:31-38 | the segment stream of a line list distributes over concatenation |
| Pager.EmittedLength | src/rich_cli/pager.py:31-38 | with new_lines the stream has one more segment per line than the lines hold; without it, exactly as many |
| Pager.EmittedSingleLine | src/rich_cli/pager.py:31-38 | one line gives the line followed by one line break, or just the line |
| Pager.PagerRenderable.constructor | src/rich_cli/pager.py:14-26 | stores the lines, new_lines (default false) and width (default 80) |
| Pager.PagerRenderable.RichConsole | src/rich_cli/pager.py:28-38 | yields every line's segments in order, each followed by `Segment.line()` when new_lines |
| Pager.PagerRenderable.Measure | src/rich_cli/pager.py:40-43 | always measures (width, width) |
| Pager.ScrollView.constructor | src/rich_cli/pager.py:105-110 | a new scroll view has target 0 and no calls made |
| Pager.ScrollView.Animate | src/rich_cli/pager.py:66 | an animation call is recorded and the target is untouched |
| Pager.ScrollView.ScrollUpRequest | src/rich_cli/pager.py:82-83 | records `scroll_up` and keeps height and largest offset; where textual leaves the target is not stated |
| Pager.ScrollView.ScrollDownRequest | src/rich_cli/pager.py:84-85 | records `scroll_down` and keeps height and largest offset; where textual leaves the target is not stated |
| Pager.ScrollView.PageDownRequest | src/rich_cli/pager.py:86-87 | records `page_down` and keeps height and largest offset; where textual leaves the target is not stated |
| Pager.PagerApp.constructor | src/rich_cli/pager.py:49-58 | the g flag starts clear and a fresh scroll view shows the content |
| Pager.PagerApp.BodyScrollToY | src/rich_cli/pager.py:64-66 | the target becomes y first, then y is animated towards with the given easing |
| Pager.PagerApp.OnKey | src/rich_cli/pager.py:63-103 | the flag, target and calls after a key are KeyStep of those before it, with textual deciding the target only for j, k and space |
| Pager.KeyStep | src/rich_cli/pager.py:63-103 | one key press, branch by branch, a specification function: the lemmas below state its cases |
| Pager.HalfPage | src/rich_cli/pager.py:88-95 | `height // 2`: a whole number h with 2h <= height < 2h + 2 |
| Pager.HandlerOwnsTarget | src/rich_cli/pager.py:63-103 | for every key but j, k and space the new flag, target and calls are the handler's own, whatever textual does |
| Pager.FirstGArms | src/rich_cli/pager.py:69-71 | a first g only sets the flag: no scroll, no call |
| Pager.SecondGScrollsToTop | src/rich_cli/pager.py:72-74 | a second g in a row targets 0 with out_expo and clears the flag |
| Pager.OtherKeyDisarms | src/rich_cli/pager.py:78 | any key but g clears the flag |
| Pager.EndKeyTargetsBottom | src/rich_cli/pager.py:80-81 | G targets max_scroll_y |
| Pager.PageMovesCancel | src/rich_cli/pager.py:88-103 | half-page down then up, and page forward then back, return to the same target, before textual's clamping |
| Pager.UnhandledKeyIsInert | src/rich_cli/pager.py:78-103 | an unlisted key only clears the flag |
| Pager.DelegatedKeysCall | src/rich_cli/pager.py:82-87 | j, k and space clear the flag, make exactly one scroll_up, scroll_down or page_down call, and leave the target to textual |
| Pager.AtMostOneRequest | src/rich_cli/pager.py:63-103 | a key makes at most one call on the scroll view and keeps the earlier calls |
| Pager.ArmedAfterOddRun | src/rich_cli/pager.py:69-78 | from a clear flag, the flag is set after a key sequence exactly when it ends in an odd run of g |
| Pager.InterruptedChordDoesNotScroll | src/rich_cli/pager.py:69-78 | g, j, g does not scroll to the top: the only call made is j's scroll_up, the target is where textual left it, and the flag is armed again |
| Cli.ReadResource | src/rich_cli/__main__.py:69-120 | no path is "missing path"; a URL gives the response text; "-" is stdin with no lexer; a file gives its text, or "unable to read" exactly when it cannot be read; a given lexer is kept; a file always gets a lexer, its extension's COMMON_LEXERS entry when there is one, else pygments' guess by file name, else "text"; a URL with a Content-Type and no lexer given gets the COMMON_LEXERS entry, or, when that is None, the lexer for the MIME type before any ';'; a URL without one keeps the caller's lexer |
| Cli.NamedLexer | src/rich_cli/__main__.py:87-91 | a given lexer is kept; otherwise a name with a non-empty extension gets its COMMON_LEXERS entry (None when unknown), and a name without one keeps the caller's value |
| Cli.LineCountTerminated | src/rich_cli/__main__.py:605 | `len(splitlines())` of n newline-terminated lines is n |
| Cli.LineCount | src/rich_cli/__main__.py:605 | `len(str.splitlines())`: no more lines than characters, and none exactly for the empty text |
| Cli.RuleAlign | src/rich_cli/__main__.py:548 | a rule is centred for full or default justification and otherwise follows the justification |
| Cli.TextJustify | src/rich_cli/__main__.py:513-521 | the first of -L, -R, -C, -F that is set, each exactly when no earlier one is |
| Cli.AlignOf | src/rich_cli/__main__.py:658-664 | the first of -l, -r, -c that is set, each exactly when no earlier one is; never full |
| Cli.MarkupSource | src/rich_cli/__main__.py:524-529 | the markup is stdin for "-", else the resource text; a helper named by TextContentCases |
| Cli.TextContent | src/rich_cli/__main__.py:510-549 | the print and rule modes' content or error, a specification function: TextContentCases states its cases |
| Cli.TextContentCases | src/rich_cli/__main__.py:510-549 | markup that does not parse fails first, with or without --rule; without --rule the markup text with the text justification; with it a rule style that does not parse fails, else a rule titled with the resource, drawn with "─" unless another character is given, aligned by RuleAlign |
| Cli.SyntaxContent | src/rich_cli/__main__.py:594-618 | the syntax mode's content or error, a specification function: UsageOnlyWithoutResource, SyntaxRejectsHeadWithTail and SyntaxWindow state its cases |
| Cli.Composed | src/rich_cli/__main__.py:510-618 | every mode's content or error but CSV's, a specification function that Compose is proved against |
| Cli.CsvOutcome | src/rich_cli/__main__.py:590-592 | the CSV mode reads the resource with the "csv" lexer and then decides as CsvPlan does; the first error wins |
| Cli.ComposeError | src/rich_cli/__main__.py:510-618 | the error that stops building the selected mode's content, if any |
| Cli.Compose | src/rich_cli/__main__.py:510-618 | each mode's content or error as Composed describes it; CSV fails exactly as CsvOutcome does, else gives a new table that Renders its plan (box, border, title, caption, columns and row count) |
| Cli.ComposeText | src/rich_cli/__main__.py:510-549 | computes TextContent, whose cases TextContentCases states |
| Cli.ComposeSyntax | src/rich_cli/__main__.py:594-618 | no resource gives the usage message; otherwise the code from stdin or the resource, failing as reading or the head/tail window fails, shown with the window the line range resolves to |
| Cli.UsageOnlyWithoutResource | src/rich_cli/__main__.py:594-596 | only the syntax mode with no resource prints the usage |
| Cli.ReadingModesNeedResource | src/rich_cli/__main__.py:551-575 | json, markdown and rst with no resource fail with "missing path" |
| Cli.SyntaxRejectsHeadWithTail | src/rich_cli/__main__.py:599-606 | highlighting a readable resource with both head and tail fails with the conflicting-range error |
| Cli.SyntaxWindow | src/rich_cli/__main__.py:599-613 | the syntax view clips to `_line_range` of the code's line count and word-wraps unless `--no-wrap` |
| Cli.RstDefaultLexer | src/rich_cli/__main__.py:566-575 | restructured text shows the text read and, without a lexer option, highlights code blocks as python |
| Cli.RuleFlagDrawsRule | src/rich_cli/__main__.py:510-549 | with `--rule`, print and rule modes both draw a rule titled with the resource |
| Cli.DefaultsDecorateNothing | src/rich_cli/__main__.py:449-656 | with click's defaults there is no padding and no decoration |
| Cli.PaddingOf | src/rich_cli/__main__.py:452-460 | no padding without a non-empty spec; otherwise 1, 2 or 4 values, or the padding error |
| Cli.ShowsContent | src/rich_cli/__main__.py:510-618 | the content is the selected mode's: Composed's content, or for CSV a table that Renders CsvOutcome's plan |
| Cli.Present | src/rich_cli/__main__.py:620-699 | fails exactly with the first style error, or the print error when printing fails; otherwise the decorated content goes to the pager (console width when the width is negative, rendered one column narrower) or to print (no max width when it is <= 0), with the --export-html path carried along |
| Cli.Run | src/rich_cli/__main__.py:432-699 | `--version` prints "1.5.1" first; then a bad padding spec fails; then the mode's own error, CSV's included; then the usage for syntax without a resource; otherwise it fails exactly on a style error or a failed print, and else shows the selected mode's content (CSV: the table of its plan) inside exactly the requested decorations |

## Left out

- Reading a file, stdin or a URL, and pygments' lexer guessing by MIME type or file name: these are functions of the `World`. `requests` failures that escape `read_resource` uncaught are not modelled. The guess by file name either names a lexer or fails with `ClassNotFound` (giving "text"); its other exceptions, which the source reports as "unable to read", are not modelled, so a readable file always reads successfully.
- `csv.Sniffer` and `csv.reader` are functions of the `World`: sniffing either gives (delimiter, has_header) or fails with a message, and reading either gives every row or fails with the message of the `csv.Error` it raises (a bare carriage return inside a line, a field over the size limit). That error escapes `render_csv`, so the model returns it as `CsvReadFailed`. Which inputs make the reader fail is the `World`'s, not modelled.
- Rendering: Syntax, Markdown, restructured text, JSON, Rule, Padding, Panel, Styled, Align, `console.print`, `render_lines` and `save_html` are not modelled. The model stops at the renderable and the arguments handed to them. `ForceWidth.__rich_console__`, which renders its child at the forced width, is not modelled either.
- `--export-html`: the path is carried to the output, printed or paged. Saving the HTML and its "failed to save HTML" error are I/O.
- INSPECT mode evaluates the resource with Python's `eval`. The model only records whether evaluation succeeds.
- The `Console` construction (emoji, record, force_terminal) and `print_usage`'s own text.
- `RichCommand.format_help` and `blend_text`: help-screen output only. `blend_text` uses float arithmetic.
- Click's option parsing, including its `IntRange(min=1)` check on head and tail and the duplicated `-j` switch. Options arrive already parsed.
- `on_load`'s binding of "q" to quit, and textual's event loop.
- textual's `ScrollView`:
  - `scroll_up`, `scroll_down` and `page_down` are recorded as calls. Where they leave the scroll target is textual's: the model takes it as a parameter and states nothing about it.
  - The easing animation is recorded as a call.
  - The clamping of the offset into [0, max_scroll_y] is not modelled.
  - `target_y` is a Python float; the model uses exact reals, so floating-point rounding is not modelled.
- `src/rich_cli/win_vt.py` (Windows console modes) and `src/rich_cli/markdown.py` (a code-fence hook into rich's Markdown) are not part of this model.
- Text handling is ASCII-only in three places:
  - `str.lower` and `str.upper` change only A–Z.
  - `int()` accepts only ASCII digits and ASCII whitespace.
  - `os.path.splitext` is the POSIX one.
- Paths.UrlPath: models the parts of `urlparse` that decide the path:
  - it removes tab, CR and LF;
  - the network location runs to the first '/', '?' or '#';
  - unbalanced brackets raise;
  - the fragment, query and `;params` are cut off.

  Newer validation of bracketed hosts and of ports is not modelled, nor is `_checknetloc`: a non-ASCII network location whose NFKC form contains '/', '?', '#', '@' or ':' makes `urlsplit` raise, so the source infers no format from such a URL's extension, while the model returns its path (for example `http://a\uFF0Fb/x.md` gives "/x.md").
