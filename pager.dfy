/**
 * The interactive pager: a renderable made of pre-rendered lines, and the
 * key handler that moves a scroll view's target with vim-like keys.
 */
module Pager {
  import Renderables

  // ----- PagerRenderable ---------------------------------------------------

  /** A piece of styled text, as rich emits it. */
  datatype Segment = Segment(text: string, style: string)

  /** `Segment.line()`. */
  const LineBreak := Segment("\n", "")

  /** The segments of the lines, one after another, each line followed by a line break when asked. */
  function Emitted(lines: seq<seq<Segment>>, newLines: bool): seq<Segment>
    decreases |lines|
  {
    if lines == [] then []
    else Emitted(lines[..|lines| - 1], newLines) + lines[|lines| - 1] + (if newLines then [LineBreak] else [])
  }

  /** The number of segments in all lines together. */
  function TotalLength(lines: seq<seq<Segment>>): nat
    decreases |lines|
  {
    if lines == [] then 0 else TotalLength(lines[..|lines| - 1]) + |lines[|lines| - 1]|
  }

  /** Emitting distributes over concatenation of line lists. */
  lemma {:induction false} EmittedAppend(a: seq<seq<Segment>>, b: seq<seq<Segment>>, newLines: bool)
    ensures Emitted(a + b, newLines) == Emitted(a, newLines) + Emitted(b, newLines)
    decreases |b|
  {
    if b == [] {
      assert a + b == a;
    } else {
      var b' := b[..|b| - 1];
      assert (a + b)[..|a + b| - 1] == a + b';
      assert (a + b)[|a + b| - 1] == b[|b| - 1];
      EmittedAppend(a, b', newLines);
    }
  }

  /** With line breaks there is exactly one extra segment per line; without, none. */
  lemma {:induction false} EmittedLength(lines: seq<seq<Segment>>, newLines: bool)
    ensures |Emitted(lines, newLines)| == TotalLength(lines) + (if newLines then |lines| else 0)
    decreases |lines|
  {
    if lines != [] {
      EmittedLength(lines[..|lines| - 1], newLines);
    }
  }

  /** One line with line breaks on is the line followed by one line break. */
  lemma EmittedSingleLine(line: seq<Segment>)
    ensures Emitted([line], true) == line + [LineBreak]
    ensures Emitted([line], false) == line
  {
    assert [line][..0] == [];
  }

  /** `PagerRenderable`: a list of lines of segments shown at a fixed width. */
  class PagerRenderable {
    var lines: seq<seq<Segment>>
    var newLines: bool
    var width: int

    constructor (lines: seq<seq<Segment>>, newLines: bool := false, width: int := 80)
      ensures this.lines == lines && this.newLines == newLines && this.width == width
    {
      this.lines := lines;
      this.newLines := newLines;
      this.width := width;
    }

    /** `__rich_console__`: every line's segments, each followed by a line break when `newLines`. */
    method RichConsole() returns (out: seq<Segment>)
      ensures out == Emitted(lines, newLines)
    {
      out := [];
      if newLines {
        var newLine := LineBreak;
        var i := 0;
        while i < |lines|
          invariant 0 <= i <= |lines|
          invariant out == Emitted(lines[..i], true)
        {
          assert lines[..i + 1][..i] == lines[..i];
          out := out + lines[i];
          out := out + [newLine];
          i := i + 1;
        }
      } else {
        var i := 0;
        while i < |lines|
          invariant 0 <= i <= |lines|
          invariant out == Emitted(lines[..i], false)
        {
          assert lines[..i + 1][..i] == lines[..i];
          out := out + lines[i];
          i := i + 1;
        }
      }
      assert lines[..|lines|] == lines;
    }

    /** `__rich_measure__`: always exactly the width it was given. */
    function Measure(): (m: Renderables.Measurement)
      reads this
      ensures m.minimum == width && m.maximum == width
    {
      Renderables.Measurement(width, width)
    }
  }

  // ----- the scroll view ---------------------------------------------------

  /** The easing curves the pager animates with. */
  datatype Easing = OutExpo | OutCubic | OutQuart

  /** A call the key handler makes on the scroll view, in order. */
  datatype Request =
    | AnimateY(y: real, easing: Easing)
    | ScrollUp
    | ScrollDown
    | PageDown

  /**
   * The part of textual's ScrollView the pager drives: the scroll target,
   * the viewport height, the largest scroll offset, and a log of the
   * scrolling calls made on it (their effect belongs to textual).
   */
  class ScrollView {
    var targetY: real
    var height: nat
    var maxScrollY: int
    var requests: seq<Request>

    constructor (height: nat, maxScrollY: int)
      ensures targetY == 0.0 && this.height == height && this.maxScrollY == maxScrollY && requests == []
    {
      targetY := 0.0;
      this.height := height;
      this.maxScrollY := maxScrollY;
      requests := [];
    }

    /** `animate("y", value, easing=...)`. */
    method Animate(value: real, easing: Easing)
      modifies this
      ensures requests == old(requests) + [AnimateY(value, easing)]
      ensures targetY == old(targetY) && height == old(height) && maxScrollY == old(maxScrollY)
    {
      requests := requests + [AnimateY(value, easing)];
    }

    /** `scroll_up()`: recorded as a call; where it leaves the target is textual's business and is not stated. */
    method ScrollUpRequest()
      modifies this
      ensures requests == old(requests) + [ScrollUp]
      ensures height == old(height) && maxScrollY == old(maxScrollY)
    {
      requests := requests + [ScrollUp];
    }

    /** `scroll_down()`: recorded as a call; where it leaves the target is textual's business and is not stated. */
    method ScrollDownRequest()
      modifies this
      ensures requests == old(requests) + [ScrollDown]
      ensures height == old(height) && maxScrollY == old(maxScrollY)
    {
      requests := requests + [ScrollDown];
    }

    /** `page_down()`: recorded as a call; where it leaves the target is textual's business and is not stated. */
    method PageDownRequest()
      modifies this
      ensures requests == old(requests) + [PageDown]
      ensures height == old(height) && maxScrollY == old(maxScrollY)
    {
      requests := requests + [PageDown];
    }
  }

  // ----- the key handler ---------------------------------------------------

  /** What the key handler can change: the pending-`g` flag, the scroll target and the calls made. */
  datatype PagerState = PagerState(gPending: bool, targetY: real, requests: seq<Request>)

  /** The state before any key. */
  const Fresh := PagerState(false, 0.0, [])

  /** `body_scroll_to_y`: set the target, then animate towards it. */
  function ScrollTo(s: PagerState, y: real, easing: Easing): PagerState {
    s.(targetY := y, requests := s.requests + [AnimateY(y, easing)])
  }

  /** Half the viewport, rounded down (`height // 2`). */
  function HalfPage(height: nat): (h: real)
    ensures 2.0 * h <= height as real < 2.0 * h + 2.0
    ensures h == h.Floor as real
  {
    (height / 2) as real
  }

  /**
   * The effect of one key press on a view of the given height and largest
   * offset. For "j", "k" and space the handler only delegates to textual;
   * `moved` is the target textual's call leaves behind, which the handler
   * does not compute.
   */
  function KeyStep(s: PagerState, key: string, height: nat, maxScrollY: int, moved: real): PagerState {
    if key == "g" then
      if !s.gPending then s.(gPending := true)
      else ScrollTo(s, 0.0, OutExpo).(gPending := false)
    else
      var t := s.(gPending := false);
      if key == "G" then ScrollTo(t, maxScrollY as real, OutExpo)
      else if key == "j" then t.(targetY := moved, requests := t.requests + [ScrollUp])
      else if key == "k" then t.(targetY := moved, requests := t.requests + [ScrollDown])
      else if key == " " then t.(targetY := moved, requests := t.requests + [PageDown])
      else if key in ["u", "ctrl+u"] then ScrollTo(t, t.targetY - HalfPage(height), OutCubic)
      else if key in ["d", "ctrl+d"] then ScrollTo(t, t.targetY + HalfPage(height), OutCubic)
      else if key in ["b", "ctrl+b"] then ScrollTo(t, t.targetY - height as real, OutQuart)
      else if key in ["f", "ctrl+f"] then ScrollTo(t, t.targetY + height as real, OutQuart)
      else t
  }

  /** The keys whose scrolling `on_key` hands to textual. */
  const DelegatedKeys: set<string> := {"j", "k", " "}

  /** The keys `on_key` acts on. */
  const HandledKeys: set<string> :=
    {"g", "G", "j", "k", " ", "u", "ctrl+u", "d", "ctrl+d", "b", "ctrl+b", "f", "ctrl+f"}

  /** The pager application: the one-shot `g` flag and the scroll view it drives. */
  class PagerApp {
    var gKeyPressedBefore: bool
    var body: ScrollView
    var content: PagerRenderable

    /** `__init__` followed by `on_mount`: the flag starts clear and a new scroll view shows the content. */
    constructor (content: PagerRenderable, height: nat, maxScrollY: int)
      ensures !gKeyPressedBefore && this.content == content && fresh(body)
      ensures body.targetY == 0.0 && body.height == height && body.maxScrollY == maxScrollY && body.requests == []
    {
      gKeyPressedBefore := false;
      this.content := content;
      body := new ScrollView(height, maxScrollY);
    }

    /** The state the key handler works on. */
    function State(): PagerState
      reads this, body
    {
      PagerState(gKeyPressedBefore, body.targetY, body.requests)
    }

    /** `body_scroll_to_y`: the target becomes y, then y is animated towards it. */
    method BodyScrollToY(y: real, easing: Easing)
      modifies body
      ensures body.targetY == y
      ensures body.requests == old(body.requests) + [AnimateY(y, easing)]
      ensures body.height == old(body.height) && body.maxScrollY == old(body.maxScrollY)
    {
      body.targetY := y;
      body.Animate(body.targetY, easing);
    }

    /** `on_key`. */
    method OnKey(key: string)
      modifies this, body
      ensures State() == KeyStep(old(State()), key, old(body.height), old(body.maxScrollY), body.targetY)
      ensures body == old(body) && content == old(content)
      ensures body.height == old(body.height) && body.maxScrollY == old(body.maxScrollY)
    {
      if key == "g" {
        if !gKeyPressedBefore {
          gKeyPressedBefore := true;
        } else {
          BodyScrollToY(0.0, OutExpo);
          gKeyPressedBefore := false;
        }
        return;
      }

      gKeyPressedBefore := false;

      if key == "G" {
        BodyScrollToY(body.maxScrollY as real, OutExpo);
      } else if key == "j" {
        body.ScrollUpRequest();
      } else if key == "k" {
        body.ScrollDownRequest();
      } else if key == " " {
        body.PageDownRequest();
      } else if key in ["u", "ctrl+u"] {
        BodyScrollToY(body.targetY - HalfPage(body.height), OutCubic);
      } else if key in ["d", "ctrl+d"] {
        BodyScrollToY(body.targetY + HalfPage(body.height), OutCubic);
      } else if key in ["b", "ctrl+b"] {
        BodyScrollToY(body.targetY - body.height as real, OutQuart);
      } else if key in ["f", "ctrl+f"] {
        BodyScrollToY(body.targetY + body.height as real, OutQuart);
      }
    }
  }

  // ----- properties of the key handler -------------------------------------

  /** Outside the delegated keys, the new state is the handler's own: textual's movement plays no part. */
  lemma HandlerOwnsTarget(s: PagerState, key: string, height: nat, maxScrollY: int, moved: real, moved': real)
    requires key !in DelegatedKeys
    ensures KeyStep(s, key, height, maxScrollY, moved) == KeyStep(s, key, height, maxScrollY, moved')
  {
  }

  /** A first `g` only arms the chord: nothing scrolls and no call is made. */
  lemma FirstGArms(s: PagerState, height: nat, maxScrollY: int, moved: real)
    requires !s.gPending
    ensures KeyStep(s, "g", height, maxScrollY, moved) == s.(gPending := true)
  {
  }

  /** A second `g` in a row scrolls to the top and disarms the chord. */
  lemma SecondGScrollsToTop(s: PagerState, height: nat, maxScrollY: int, moved: real)
    requires s.gPending
    ensures KeyStep(s, "g", height, maxScrollY, moved) == PagerState(false, 0.0, s.requests + [AnimateY(0.0, OutExpo)])
  {
  }

  /** Every other key disarms the chord. */
  lemma OtherKeyDisarms(s: PagerState, key: string, height: nat, maxScrollY: int, moved: real)
    requires key != "g"
    ensures !KeyStep(s, key, height, maxScrollY, moved).gPending
  {
  }

  /** "G" targets the largest scroll offset. */
  lemma EndKeyTargetsBottom(s: PagerState, height: nat, maxScrollY: int, moved: real)
    ensures KeyStep(s, "G", height, maxScrollY, moved).targetY == maxScrollY as real
  {
  }

  /**
   * Half a page down then half a page up returns to the same target, and
   * likewise for whole pages (the handler's arithmetic, before any clamping
   * textual applies).
   */
  lemma PageMovesCancel(s: PagerState, height: nat, maxScrollY: int, moved: real)
    ensures KeyStep(KeyStep(s, "d", height, maxScrollY, moved), "u", height, maxScrollY, moved).targetY == s.targetY
    ensures KeyStep(KeyStep(s, "ctrl+u", height, maxScrollY, moved), "ctrl+d", height, maxScrollY, moved).targetY == s.targetY
    ensures KeyStep(KeyStep(s, "f", height, maxScrollY, moved), "b", height, maxScrollY, moved).targetY == s.targetY
    ensures KeyStep(KeyStep(s, "ctrl+b", height, maxScrollY, moved), "ctrl+f", height, maxScrollY, moved).targetY == s.targetY
  {
  }

  /** Keys the handler does not list change nothing but the chord flag. */
  lemma UnhandledKeyIsInert(s: PagerState, key: string, height: nat, maxScrollY: int, moved: real)
    requires key !in HandledKeys
    ensures KeyStep(s, key, height, maxScrollY, moved) == s.(gPending := false)
  {
  }

  /** The delegated keys make exactly their one call and leave the target to textual. */
  lemma DelegatedKeysCall(s: PagerState, height: nat, maxScrollY: int, moved: real)
    ensures KeyStep(s, "j", height, maxScrollY, moved) == PagerState(false, moved, s.requests + [ScrollUp])
    ensures KeyStep(s, "k", height, maxScrollY, moved) == PagerState(false, moved, s.requests + [ScrollDown])
    ensures KeyStep(s, " ", height, maxScrollY, moved) == PagerState(false, moved, s.requests + [PageDown])
  {
  }

  /** Each key press makes at most one call on the scroll view and never forgets earlier ones. */
  lemma AtMostOneRequest(s: PagerState, key: string, height: nat, maxScrollY: int, moved: real)
    ensures var t := KeyStep(s, key, height, maxScrollY, moved);
            |s.requests| <= |t.requests| <= |s.requests| + 1 && t.requests[..|s.requests|] == s.requests
  {
  }

  /**
   * The state after a sequence of key presses; `moved(i)` is where textual
   * leaves the target when the i-th key is a delegated one.
   */
  function Replay(s: PagerState, keys: seq<string>, height: nat, maxScrollY: int, moved: nat -> real): PagerState
    decreases |keys|
  {
    if keys == [] then s
    else KeyStep(Replay(s, keys[..|keys| - 1], height, maxScrollY, moved), keys[|keys| - 1], height, maxScrollY, moved(|keys| - 1))
  }

  /** The length of the run of "g" presses at the end of the keys. */
  function TrailingGs(keys: seq<string>): (n: nat)
    ensures n <= |keys|
    decreases |keys|
  {
    if keys == [] || keys[|keys| - 1] != "g" then 0 else TrailingGs(keys[..|keys| - 1]) + 1
  }

  /** From a clear flag, the chord is armed exactly when the keys end in an odd run of "g". */
  lemma {:induction false} ArmedAfterOddRun(s: PagerState, keys: seq<string>, height: nat, maxScrollY: int, moved: nat -> real)
    requires !s.gPending
    ensures Replay(s, keys, height, maxScrollY, moved).gPending <==> TrailingGs(keys) % 2 == 1
    decreases |keys|
  {
    if keys != [] {
      ArmedAfterOddRun(s, keys[..|keys| - 1], height, maxScrollY, moved);
    }
  }

  /**
   * "g", "j", "g" does not scroll to the top: the "j" breaks the chord, so
   * the second "g" only re-arms it, and the one call made is "j"'s.
   */
  lemma InterruptedChordDoesNotScroll(s: PagerState, height: nat, maxScrollY: int, moved: nat -> real)
    requires !s.gPending
    ensures var t := Replay(s, ["g", "j", "g"], height, maxScrollY, moved);
            t.gPending && t.targetY == moved(1) && t.requests == s.requests + [ScrollUp]
  {
    var keys := ["g", "j", "g"];
    assert keys[..2] == ["g", "j"];
    assert keys[..2][..1] == ["g"];
    assert keys[..2][..1][..0] == [];
    var armed := KeyStep(s, "g", height, maxScrollY, moved(0));
    assert Replay(s, ["g"], height, maxScrollY, moved) == armed;
    var broken := KeyStep(armed, "j", height, maxScrollY, moved(1));
    assert Replay(s, ["g", "j"], height, maxScrollY, moved) == broken;
    assert broken == PagerState(false, moved(1), s.requests + [ScrollUp]);
  }
}
