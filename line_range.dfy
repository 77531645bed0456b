/** The head/tail clip window handed to the syntax view (`_line_range`). */
module LineRanges {
  import opened Wrappers
  import opened Failures

  /** An inclusive, 1-based window over source lines. */
  datatype LineRange = LineRange(start: int, end: int)

  /** Python truthiness of an optional int: present and non-zero. */
  predicate Truthy(n: Option<int>) {
    n.Some? && n.value != 0
  }

  /**
   * Both clips at once are an error; head keeps lines 1..head; tail gives a
   * window of exactly `tail` positions whose last position is one past the
   * last line; neither gives no window.
   */
  function Resolve(head: Option<int>, tail: Option<int>, numLines: int): (r: Result<Option<LineRange>, Error>)
    ensures r.Err? <==> Truthy(head) && Truthy(tail)
    ensures r.Err? ==> r.error == ConflictingRange
    ensures r == Ok(None) <==> !Truthy(head) && !Truthy(tail)
    ensures Truthy(head) && !Truthy(tail) ==>
              r.Ok? && r.value.Some? && r.value.value.start == 1 && r.value.value.end == head.value
    ensures !Truthy(head) && Truthy(tail) ==>
              r.Ok? && r.value.Some? &&
              r.value.value.end == numLines + 1 &&
              r.value.value.end - r.value.value.start + 1 == tail.value
  {
    if Truthy(head) && Truthy(tail) then
      Err(ConflictingRange)
    else if Truthy(head) then
      Ok(Some(LineRange(1, head.value)))
    else if Truthy(tail) then
      Ok(Some(LineRange(numLines - tail.value + 2, numLines + 1)))
    else
      Ok(None)
  }

  /** The tail window is non-empty exactly when the tail is positive. */
  lemma TailWindowOrdered(tail: int, numLines: int)
    requires tail != 0
    ensures var r := Resolve(None, Some(tail), numLines);
            r.Ok? && r.value.Some? && (r.value.value.start <= r.value.value.end <==> tail >= 1)
  {
  }

  /** How many of the file's lines 1..numLines fall inside a window. */
  function LinesShown(w: LineRange, numLines: int): (n: nat)
    ensures n <= if numLines < 0 then 0 else numLines
    ensures n > 0 <==> w.start <= w.end && w.start <= numLines && 1 <= w.end && 1 <= numLines
  {
    var lo := if w.start < 1 then 1 else w.start;
    var hi := if w.end < numLines then w.end else numLines;
    if lo <= hi then hi - lo + 1 else 0
  }

  /**
   * Of the lines that exist, a tail window of `tail` positions shows the
   * last `tail - 1`: its final position, numLines + 1, is past the end of
   * the file. A head window shows the first `head` lines, or all of them.
   */
  lemma TailWindowShowsOneLineFewer(tail: int, numLines: int)
    requires 1 <= tail <= numLines + 1
    ensures var w := Resolve(None, Some(tail), numLines).value.value;
            1 <= w.start && LinesShown(w, numLines) == tail - 1
  {
  }

  lemma HeadWindowShowsHeadLines(head: int, numLines: nat)
    requires head >= 1
    ensures var w := Resolve(Some(head), None, numLines).value.value;
            LinesShown(w, numLines) == if head < numLines then head else numLines
  {
  }
}
