/**
 * The choice of one presentation mode: the first explicit flag in a fixed
 * order, else the resource's extension, else syntax highlighting.
 */
module Formats {
  import opened Wrappers
  import opened Paths

  /** The modes of `main`; Auto means "not decided yet". */
  datatype Format = Auto | Syntax | Print | Markdown | Rst | Json | Rule | Inspect | Csv

  /** The mode-selecting command-line flags. */
  datatype Flags = Flags(
    printMarkup: bool, syntax: bool, rule: bool, json: bool,
    markdown: bool, rst: bool, csv: bool, inspect: bool)

  const NoFlags := Flags(false, false, false, false, false, false, false, false)

  /** Whether the flag that asks for mode m is set. */
  function Flagged(flags: Flags, m: Format): bool {
    match m
    case Auto => false
    case Syntax => flags.syntax
    case Print => flags.printMarkup
    case Markdown => flags.markdown
    case Rst => flags.rst
    case Json => flags.json
    case Rule => flags.rule
    case Inspect => flags.inspect
    case Csv => flags.csv
  }

  /** The order in which `main` tests the flags. */
  const Precedence: seq<Format> := [Print, Syntax, Json, Markdown, Rule, Inspect, Csv, Rst]

  /** The first mode in `order` whose flag is set. */
  function FirstFlagged(flags: Flags, order: seq<Format>): (r: Option<Format>)
    ensures r.Some? ==> Flagged(flags, r.value) && r.value in order
  {
    if order == [] then None
    else if Flagged(flags, order[0]) then Some(order[0])
    else FirstFlagged(flags, order[1..])
  }

  /** None exactly when no mode in the order is flagged; otherwise a flagged mode with none flagged before it. */
  lemma {:induction false} FirstFlaggedSpec(flags: Flags, order: seq<Format>)
    ensures var r := FirstFlagged(flags, order);
            && (r.None? <==> forall i :: 0 <= i < |order| ==> !Flagged(flags, order[i]))
            && (r.Some? ==> exists i :: 0 <= i < |order| && order[i] == r.value && Flagged(flags, r.value) &&
                                        forall j :: 0 <= j < i ==> !Flagged(flags, order[j]))
  {
    if order != [] && !Flagged(flags, order[0]) {
      var rest := order[1..];
      FirstFlaggedSpec(flags, rest);
      assert forall j :: 1 <= j < |order| ==> order[j] == rest[j - 1];
      var r := FirstFlagged(flags, rest);
      if r.Some? {
        var i :| 0 <= i < |rest| && rest[i] == r.value && Flagged(flags, r.value) &&
                 forall j :: 0 <= j < i ==> !Flagged(flags, rest[j]);
        assert order[i + 1] == r.value;
      }
    } else if order != [] {
      assert order[0] == FirstFlagged(flags, order).value;
    }
  }

  /** The precedence written out flag by flag, as `main` tests them. */
  lemma {:induction false} PrecedenceUnfolded(flags: Flags)
    ensures FirstFlagged(flags, Precedence) ==
      if flags.printMarkup then Some(Print)
      else if flags.syntax then Some(Syntax)
      else if flags.json then Some(Json)
      else if flags.markdown then Some(Markdown)
      else if flags.rule then Some(Rule)
      else if flags.inspect then Some(Inspect)
      else if flags.csv then Some(Csv)
      else if flags.rst then Some(Rst)
      else None
  {
    FirstFlaggedCons(flags, Rst, []);
    FirstFlaggedCons(flags, Csv, [Rst]);
    FirstFlaggedCons(flags, Inspect, [Csv, Rst]);
    FirstFlaggedCons(flags, Rule, [Inspect, Csv, Rst]);
    FirstFlaggedCons(flags, Markdown, [Rule, Inspect, Csv, Rst]);
    FirstFlaggedCons(flags, Json, [Markdown, Rule, Inspect, Csv, Rst]);
    FirstFlaggedCons(flags, Syntax, [Json, Markdown, Rule, Inspect, Csv, Rst]);
    FirstFlaggedCons(flags, Print, [Syntax, Json, Markdown, Rule, Inspect, Csv, Rst]);
    assert Precedence == [Print] + [Syntax, Json, Markdown, Rule, Inspect, Csv, Rst];
  }

  lemma FirstFlaggedCons(flags: Flags, m: Format, rest: seq<Format>)
    ensures FirstFlagged(flags, [m] + rest) ==
            if Flagged(flags, m) then Some(m) else FirstFlagged(flags, rest)
  {
    assert ([m] + rest)[1..] == rest;
  }

  /** The mode an extension asks for, when it asks for one. */
  function ExtensionFormat(ext: string): (r: Option<Format>)
    ensures r.Some? <==> ext in {".md", ".json", ".csv", ".tsv", ".rst"}
    ensures r.Some? ==> r.value in {Markdown, Json, Csv, Rst}
    ensures r == Some(Markdown) <==> ext == ".md"
    ensures r == Some(Json) <==> ext == ".json"
    ensures r == Some(Csv) <==> ext in {".csv", ".tsv"}
    ensures r == Some(Rst) <==> ext == ".rst"
  {
    if ext == ".md" then Some(Markdown)
    else if ext == ".json" then Some(Json)
    else if ext == ".csv" || ext == ".tsv" then Some(Csv)
    else if ext == ".rst" then Some(Rst)
    else None
  }

  /**
   * The mode `main` settles on: the first flagged mode; else, for a
   * resource containing a dot, the mode its extension names; else Syntax.
   */
  function ExpectedFormat(flags: Flags, resource: string): (f: Format)
    ensures f != Auto
  {
    match FirstFlagged(flags, Precedence)
    case Some(m) => m
    case None =>
      if '.' in resource && ExtensionFormat(ResourceExtension(resource)).Some? then
        ExtensionFormat(ResourceExtension(resource)).value
      else Syntax
  }

  /**
   * `main`'s selection block: the flags in precedence order, then (only when
   * no flag is set and the resource contains a dot) the extension, then
   * Syntax. Several flags at once are not an error.
   */
  method ResolveFormat(flags: Flags, resource: string) returns (format: Format)
    ensures format == ExpectedFormat(flags, resource)
    ensures format != Auto
    ensures FirstFlagged(flags, Precedence).Some? ==> format == FirstFlagged(flags, Precedence).value
    ensures FirstFlagged(flags, Precedence).None? && '.' in resource &&
            ExtensionFormat(ResourceExtension(resource)).Some? ==>
              format == ExtensionFormat(ResourceExtension(resource)).value
    ensures FirstFlagged(flags, Precedence).None? &&
            ('.' !in resource || ExtensionFormat(ResourceExtension(resource)).None?) ==>
              format == Syntax
  {
    PrecedenceUnfolded(flags);
    format := Auto;
    if flags.printMarkup {
      format := Print;
    } else if flags.syntax {
      format := Syntax;
    } else if flags.json {
      format := Json;
    } else if flags.markdown {
      format := Markdown;
    } else if flags.rule {
      format := Rule;
    } else if flags.inspect {
      format := Inspect;
    } else if flags.csv {
      format := Csv;
    } else if flags.rst {
      format := Rst;
    }

    if format == Auto && '.' in resource {
      var ext := ResourceExtension(resource);
      if ext == ".md" {
        format := Markdown;
      } else if ext == ".json" {
        format := Json;
      } else if ext == ".csv" || ext == ".tsv" {
        format := Csv;
      } else if ext == ".rst" {
        format := Rst;
      }
    }

    if format == Auto {
      format := Syntax;
    }
  }

  /** Every flag takes part in the precedence: no flag at all is the only way to get none. */
  lemma NoFlagWinsOnlyWithoutFlags(flags: Flags)
    ensures FirstFlagged(flags, Precedence).None? <==> flags == NoFlags
  {
    PrecedenceUnfolded(flags);
  }

  /** Of two set flags, the one later in the precedence never wins. */
  lemma EarlierFlagWins(flags: Flags, i: nat, j: nat)
    requires i < j < |Precedence|
    requires Flagged(flags, Precedence[i])
    ensures FirstFlagged(flags, Precedence) != Some(Precedence[j])
  {
    FirstFlaggedSpec(flags, Precedence);
  }

  /**
   * A local name "<stem>.<name>" selects the mode of its lower-cased name,
   * so "notes.MD" is markdown and "data.Tsv" a table.
   */
  lemma NamedResourceFormat(stem: string, name: string, i: nat)
    requires NoneOf(name, {'.', '/'})
    requires LastIndexOf(stem, '/') < i < |stem| && stem[i] != '.'
    requires !StartsWith(stem + "." + name, "http://") && !StartsWith(stem + "." + name, "https://")
    ensures ExtensionFormat(ResourceExtension(stem + "." + name)) == NameFormat(Lower(name))
  {
    NamedResourceExtension(stem, name, i);
    DotNameFormat(Lower(name));
  }

  lemma DotNameFormat(name: string)
    ensures ExtensionFormat("." + name) == NameFormat(name)
  {
    DotPrefix(name, "md");
    DotPrefix(name, "json");
    DotPrefix(name, "csv");
    DotPrefix(name, "tsv");
    DotPrefix(name, "rst");
  }

  /** The mode named by an extension written without its dot. */
  function NameFormat(name: string): Option<Format> {
    match name
    case "md" => Some(Markdown)
    case "json" => Some(Json)
    case "csv" => Some(Csv)
    case "tsv" => Some(Csv)
    case "rst" => Some(Rst)
    case _ => None
  }

  lemma DotPrefix(a: string, b: string)
    ensures "." + a == "." + b <==> a == b
  {
    if "." + a == "." + b {
      assert a == ("." + a)[1..];
    }
  }

  lemma NamedResourceExtension(stem: string, name: string, i: nat)
    requires NoneOf(name, {'.', '/'})
    requires LastIndexOf(stem, '/') < i < |stem| && stem[i] != '.'
    requires !StartsWith(stem + "." + name, "http://") && !StartsWith(stem + "." + name, "https://")
    ensures ResourceExtension(stem + "." + name) == "." + Lower(name)
  {
    LocalExtension(stem + "." + name);
    SplitExtOfName(stem, name, i);
    LowerDotName(name);
  }

  lemma LowerDotName(name: string)
    ensures Lower("." + name) == "." + Lower(name)
  {
    LowerAppend(".", name);
    assert Lower(".") == ".";
  }

  /** A resource that is not a URL takes its extension from the whole string. */
  lemma LocalExtension(resource: string)
    requires !StartsWith(resource, "http://") && !StartsWith(resource, "https://")
    ensures ResourceExtension(resource) == Lower(SplitExt(resource))
  {
  }
}
