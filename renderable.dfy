/**
 * What `main` hands to the console: one content renderable chosen by the
 * mode, wrapped by the optional decorations padding, panel, style, then
 * either a forced width or (in the pager) an alignment.
 */
module Renderables {
  import opened Wrappers
  import opened Failures
  import opened LineRanges
  import CsvTables

  /** rich's justify and align values: "default", "left", "right", "center", "full". */
  datatype Justify = Default | Left | Right | Center | Full

  /** The renderable each mode produces; the rendering engines behind them are not modelled. */
  datatype Content =
    | MarkupText(markup: string, justify: Justify, emoji: bool, noWrap: bool)
    | RuleLine(title: string, style: string, characters: string, align: Justify)
    | JsonView(data: string)
    | MarkdownView(data: string, codeTheme: string, hyperlinks: bool)
    | RstView(data: string, codeTheme: string, defaultLexer: string)
    | InspectView(expression: string)
    | TableView(table: CsvTables.Table)
    | SyntaxView(code: string, lexer: Option<string>, theme: string, lineNumbers: bool,
                 indentGuides: bool, wordWrap: bool, lineRange: Option<LineRange>)

  datatype Renderable =
    | Base(content: Content)
    | Padding(inner: Renderable, pads: seq<int>, expand: bool)
    | Panel(inner: Renderable, box: string, expand: bool, title: string, subtitle: string, borderStyle: string)
    | Styled(inner: Renderable, style: string)
    | ForceWidth(inner: Renderable, width: int)
    | Align(inner: Renderable, align: Justify)

  /** One decoration, without the renderable it wraps. */
  datatype Layer =
    | PadLayer(pads: seq<int>, expand: bool)
    | PanelLayer(box: string, expand: bool, title: string, subtitle: string, borderStyle: string)
    | StyleLayer(style: string)
    | WidthLayer(width: int)
    | AlignLayer(align: Justify)

  /** Wraps a renderable in one layer. */
  function Apply(r: Renderable, layer: Layer): (w: Renderable)
    ensures !w.Base? && w.inner == r
  {
    match layer
    case PadLayer(pads, expand) => Padding(r, pads, expand)
    case PanelLayer(box, expand, title, subtitle, borderStyle) => Panel(r, box, expand, title, subtitle, borderStyle)
    case StyleLayer(style) => Styled(r, style)
    case WidthLayer(width) => ForceWidth(r, width)
    case AlignLayer(align) => Align(r, align)
  }

  /** The layer at the top of a decorated renderable. */
  function Outer(r: Renderable): Layer
    requires !r.Base?
  {
    match r
    case Padding(_, pads, expand) => PadLayer(pads, expand)
    case Panel(_, box, expand, title, subtitle, borderStyle) => PanelLayer(box, expand, title, subtitle, borderStyle)
    case Styled(_, style) => StyleLayer(style)
    case ForceWidth(_, width) => WidthLayer(width)
    case Align(_, align) => AlignLayer(align)
  }

  /** Wraps in the given layers, innermost first. */
  function Wrap(r: Renderable, layers: seq<Layer>): Renderable
    decreases |layers|
  {
    if layers == [] then r else Apply(Wrap(r, layers[..|layers| - 1]), layers[|layers| - 1])
  }

  /** The content at the centre of the decorations. */
  function Core(r: Renderable): Content {
    if r.Base? then r.content else Core(r.inner)
  }

  /** The decorations around the content, innermost first. */
  function Layers(r: Renderable): seq<Layer> {
    if r.Base? then [] else Layers(r.inner) + [Outer(r)]
  }

  /** Wrapping content and taking it apart again gives back the content and the layers. */
  lemma {:induction false} WrapThenTakeApart(c: Content, layers: seq<Layer>)
    ensures Core(Wrap(Base(c), layers)) == c
    ensures Layers(Wrap(Base(c), layers)) == layers
    decreases |layers|
  {
    if layers != [] {
      var init := layers[..|layers| - 1];
      var last := layers[|layers| - 1];
      WrapThenTakeApart(c, init);
      var inner := Wrap(Base(c), init);
      var w := Apply(inner, last);
      assert Wrap(Base(c), layers) == w;
      assert Outer(w) == last;
      assert Core(w) == Core(inner);
      assert Layers(w) == Layers(inner) + [last];
      assert init + [last] == layers;
    }
  }

  /** Every renderable is its content wrapped in its layers. */
  lemma {:induction false} TakeApartThenWrap(r: Renderable)
    ensures Wrap(Base(Core(r)), Layers(r)) == r
  {
    if !r.Base? {
      TakeApartThenWrap(r.inner);
      var layers := Layers(r);
      assert layers[..|layers| - 1] == Layers(r.inner);
      assert Apply(r.inner, Outer(r)) == r;
    }
  }

  /** The nesting position of each decoration: padding innermost, then panel, style, and width or alignment. */
  function Rank(layer: Layer): nat {
    match layer
    case PadLayer(_, _) => 0
    case PanelLayer(_, _, _, _, _) => 1
    case StyleLayer(_) => 2
    case WidthLayer(_) => 3
    case AlignLayer(_) => 3
  }

  /** Ranks strictly increase outwards, so each kind of decoration appears at most once. */
  predicate Ordered(layers: seq<Layer>) {
    forall i, j :: 0 <= i < j < |layers| ==> Rank(layers[i]) < Rank(layers[j])
  }

  /** The decoration options of `main`. */
  datatype Decoration = Decoration(
    pads: seq<int>, expand: bool, width: int, pager: bool,
    panel: string, panelStyle: string, title: string, caption: string,
    style: string, align: Justify)

  /** The options that change nothing. */
  function PlainDecoration(title: string, caption: string): Decoration {
    Decoration([], false, -1, false, "none", "", title, caption, "", Default)
  }

  /** `expand`, forced on by a positive width. */
  function Expands(d: Decoration): bool {
    d.expand || d.width > 0
  }

  function UpperChar(c: char): char {
    if 'a' <= c <= 'z' then (c as int - 32) as char else c
  }

  /** ASCII upper-casing, as used to name the box of `rich.box`. */
  function Upper(s: string): (r: string)
    ensures |r| == |s|
    ensures forall i :: 0 <= i < |s| ==> r[i] == UpperChar(s[i])
  {
    seq(|s|, i requires 0 <= i < |s| => UpperChar(s[i]))
  }

  /** The padding and the panel the options ask for, innermost first. */
  function FrameLayers(d: Decoration): seq<Layer> {
    (if d.pads != [] then [PadLayer(d.pads, Expands(d))] else [])
    + (if d.panel != "none" then [PanelLayer(Upper(d.panel), Expands(d), d.title, d.caption, d.panelStyle)] else [])
  }

  /** The layers the options ask for, innermost first. */
  function DecorationLayers(d: Decoration): seq<Layer> {
    FrameLayers(d)
    + (if d.style != "" then [StyleLayer(d.style)] else [])
    + (if d.width > 0 && !d.pager then [WidthLayer(d.width)] else [])
    + (if d.pager && d.align != Default then [AlignLayer(d.align)] else [])
  }

  /** The first style that fails to parse: the panel's border style is parsed before the text style. */
  function DecorationError(d: Decoration, styleParses: string -> bool): Option<Error> {
    if d.panel != "none" && !styleParses(d.panelStyle) then Some(PanelStyleParse)
    else if d.style != "" && !styleParses(d.style) then Some(StyleParse)
    else None
  }

  /**
   * The first decoration steps of `main`: padding, then a panel whose
   * border style must parse. `styleParses` stands for `Style.parse`
   * succeeding.
   */
  method Frame(content: Content, d: Decoration, expand: bool, styleParses: string -> bool) returns (r: Result<Renderable, Error>)
    requires expand == Expands(d)
    ensures r.Err? <==> d.panel != "none" && !styleParses(d.panelStyle)
    ensures r.Err? ==> r.error == PanelStyleParse
    ensures r.Ok? ==> Core(r.value) == content && Layers(r.value) == FrameLayers(d)
  {
    var renderable := Base(content);
    if d.pads != [] {
      renderable := Padding(renderable, d.pads, expand);
      ApplyOneLayer(renderable.inner, PadLayer(d.pads, expand), []);
    }
    ghost var pad := if d.pads != [] then [PadLayer(d.pads, expand)] else [];
    assert Core(renderable) == content && Layers(renderable) == pad;
    if d.panel != "none" {
      if !styleParses(d.panelStyle) {
        return Err(PanelStyleParse);
      }
      renderable := Panel(renderable, Upper(d.panel), expand, d.title, d.caption, d.panelStyle);
      ApplyOneLayer(renderable.inner, PanelLayer(Upper(d.panel), expand, d.title, d.caption, d.panelStyle), pad);
    }
    return Ok(renderable);
  }

  /**
   * The decoration steps of `main`, each reassigning the renderable:
   * padding and panel, then style, forced width outside the pager and
   * alignment inside it. A positive width forces `expand` first.
   */
  method Decorate(content: Content, d: Decoration, styleParses: string -> bool) returns (r: Result<Renderable, Error>)
    ensures r.Err? <==> DecorationError(d, styleParses).Some?
    ensures r.Err? ==> r.error == DecorationError(d, styleParses).value
    ensures r.Ok? ==> Core(r.value) == content && Layers(r.value) == DecorationLayers(d)
  {
    var expand := d.expand;
    if d.width > 0 {
      expand := true;
    }
    var framed := Frame(content, d, expand, styleParses);
    if framed.Err? {
      return Err(framed.error);
    }
    var renderable := framed.value;
    ghost var layers := FrameLayers(d);
    if d.style != "" {
      if !styleParses(d.style) {
        return Err(StyleParse);
      }
      renderable := Styled(renderable, d.style);
      ApplyOneLayer(renderable.inner, StyleLayer(d.style), layers);
      layers := layers + [StyleLayer(d.style)];
    }
    assert Core(renderable) == content && Layers(renderable) == layers;
    if d.width > 0 && !d.pager {
      renderable := ForceWidth(renderable, d.width);
      ApplyOneLayer(renderable.inner, WidthLayer(d.width), layers);
      layers := layers + [WidthLayer(d.width)];
    }
    assert Core(renderable) == content && Layers(renderable) == layers;
    if d.pager && d.align != Default {
      renderable := Align(renderable, d.align);
      ApplyOneLayer(renderable.inner, AlignLayer(d.align), layers);
      layers := layers + [AlignLayer(d.align)];
    }
    assert layers == DecorationLayers(d);
    return Ok(renderable);
  }

  /** Wrapping in one more layer keeps the content and adds that layer outermost. */
  lemma ApplyOneLayer(r: Renderable, layer: Layer, layers: seq<Layer>)
    requires Layers(r) == layers
    ensures Core(Apply(r, layer)) == Core(r)
    ensures Layers(Apply(r, layer)) == layers + [layer]
  {
  }

  /** The decorations always nest in the fixed order, each at most once. */
  lemma DecorationOrdered(d: Decoration)
    ensures Ordered(DecorationLayers(d))
  {
  }

  /** With every option at its default the content is shown undecorated. */
  lemma PlainDecorationIsIdentity(title: string, caption: string)
    ensures DecorationLayers(PlainDecoration(title, caption)) == []
  {
  }

  /** A forced width is the outermost layer exactly when the width is positive outside the pager. */
  lemma ForceWidthOutermost(d: Decoration)
    ensures var layers := DecorationLayers(d);
            (layers != [] && layers[|layers| - 1] == WidthLayer(d.width)) <==> d.width > 0 && !d.pager
    ensures forall i :: 0 <= i < |DecorationLayers(d)| - 1 ==> !DecorationLayers(d)[i].WidthLayer?
  {
  }

  /** A positive width makes the padding and the panel expand. */
  lemma WidthForcesExpand(d: Decoration)
    requires d.width > 0
    ensures forall i :: 0 <= i < |DecorationLayers(d)| ==>
              (DecorationLayers(d)[i].PadLayer? || DecorationLayers(d)[i].PanelLayer?) ==> DecorationLayers(d)[i].expand
  {
  }

  /** A renderable's measured minimum and maximum width. */
  datatype Measurement = Measurement(minimum: int, maximum: int)

  /**
   * `ForceWidth.__rich_measure__`: the wrapper always measures exactly its
   * width, whatever it wraps; other renderables are measured by rich.
   */
  function Measure(r: Renderable): (m: Option<Measurement>)
    ensures r.ForceWidth? <==> m.Some?
    ensures m.Some? ==> m.value.minimum == m.value.maximum == r.width
  {
    if r.ForceWidth? then Some(Measurement(r.width, r.width)) else None
  }

  /** Outside the pager a positive width makes the whole output measure exactly that width. */
  lemma DecoratedMeasure(content: Content, d: Decoration)
    requires d.width > 0 && !d.pager
    ensures Measure(Wrap(Base(content), DecorationLayers(d))) == Some(Measurement(d.width, d.width))
  {
    var layers := DecorationLayers(d);
    ForceWidthOutermost(d);
  }
}
