/**
 * The `--padding` value: comma-separated integers as Python's `int()` reads
 * them, one, two or four of them, or nothing at all.
 */
module PaddingSpec {
  import opened Wrappers
  import opened Failures
  import opened Paths

  /** `str.split(sep)`: the pieces between separators; always at least one. */
  function Split(s: string, sep: char): (parts: seq<string>)
    ensures |parts| >= 1
    ensures forall i :: 0 <= i < |parts| ==> NoneOf(parts[i], {sep})
    decreases |s|
  {
    var k := FirstIndexIn(s, {sep});
    if k == |s| then [s] else [s[..k]] + Split(s[k + 1..], sep)
  }

  /** `sep.join(parts)`. */
  function Join(parts: seq<string>, sep: char): string
    requires |parts| >= 1
  {
    if |parts| == 1 then parts[0] else parts[0] + [sep] + Join(parts[1..], sep)
  }

  /** Joining the pieces of a split gives back the string. */
  lemma {:induction false} JoinSplit(s: string, sep: char)
    ensures Join(Split(s, sep), sep) == s
    decreases |s|
  {
    var k := FirstIndexIn(s, {sep});
    if k < |s| {
      var rest := Split(s[k + 1..], sep);
      var parts := Split(s, sep);
      assert parts == [s[..k]] + rest;
      assert parts[1..] == rest;
      JoinSplit(s[k + 1..], sep);
      assert Join(parts, sep) == s[..k] + [sep] + s[k + 1..];
      assert s[..k] + [sep] + s[k + 1..] == s;
    }
  }

  /** Splitting a join of separator-free pieces gives back the pieces. */
  lemma {:induction false} SplitJoin(parts: seq<string>, sep: char)
    requires |parts| >= 1
    requires forall i :: 0 <= i < |parts| ==> NoneOf(parts[i], {sep})
    ensures Split(Join(parts, sep), sep) == parts
    decreases |parts|
  {
    var s := Join(parts, sep);
    var p0 := parts[0];
    if |parts| == 1 {
      assert s[..|s|] == p0;
      FirstIndexInUnique(s, {sep}, |s|);
    } else {
      var rest := Join(parts[1..], sep);
      assert s == p0 + [sep] + rest;
      assert s[..|p0|] == p0;
      FirstIndexInUnique(s, {sep}, |p0|);
      assert s[|p0| + 1..] == rest;
      SplitJoin(parts[1..], sep);
      assert parts == [p0] + parts[1..];
    }
  }

  /** The characters `str.strip()` removes (the ASCII part of Unicode whitespace). */
  predicate IsSpace(c: char) {
    c in {' ', '\t', '\n', '\r', '\U{000B}', '\U{000C}', '\U{001C}', '\U{001D}', '\U{001E}', '\U{001F}'}
  }

  function TrimStart(s: string): (r: string)
    ensures |r| <= |s| && r == s[|s| - |r|..]
    ensures forall i :: 0 <= i < |s| - |r| ==> IsSpace(s[i])
    ensures |r| > 0 ==> !IsSpace(r[0])
    ensures |s| > 0 && !IsSpace(s[0]) ==> r == s
  {
    if |s| > 0 && IsSpace(s[0]) then
      var r := TrimStart(s[1..]);
      assert forall i :: 1 <= i < |s| - |r| ==> s[i] == s[1..][i - 1];
      r
    else s
  }

  function TrimEnd(s: string): (r: string)
    ensures |r| <= |s| && r == s[..|r|]
    ensures forall i :: |r| <= i < |s| ==> IsSpace(s[i])
    ensures |r| > 0 ==> !IsSpace(r[|r| - 1])
    ensures |s| > 0 && !IsSpace(s[|s| - 1]) ==> r == s
  {
    if |s| > 0 && IsSpace(s[|s| - 1]) then TrimEnd(s[..|s| - 1]) else s
  }

  /** `str.strip()`. */
  function Strip(s: string): (r: string)
    ensures |r| <= |s|
    ensures |r| > 0 ==> !IsSpace(r[0]) && !IsSpace(r[|r| - 1])
  {
    TrimEnd(TrimStart(s))
  }

  /** A decimal literal body: digits, with single underscores only between digits. */
  predicate WellFormedDigits(s: string) {
    && |s| > 0
    && IsDigit(s[0])
    && IsDigit(s[|s| - 1])
    && forall i :: 0 <= i < |s| ==>
         IsDigit(s[i]) || (s[i] == '_' && 0 < i < |s| - 1 && IsDigit(s[i - 1]) && IsDigit(s[i + 1]))
  }

  /** The value of a run of digits, underscores ignored. */
  function DigitsValue(s: string): nat {
    if |s| == 0 then 0
    else if IsDigit(s[|s| - 1]) then DigitsValue(s[..|s| - 1]) * 10 + (s[|s| - 1] as int - '0' as int)
    else DigitsValue(s[..|s| - 1])
  }

  /**
   * Python's `int(token)` in base 10 over ASCII: surrounding whitespace is
   * ignored, one optional sign, then digits with single underscores between
   * them; anything else raises, which is None here.
   */
  function ParseInt(token: string): Option<int> {
    var t := Strip(token);
    var negative := |t| > 0 && t[0] == '-';
    var body := if |t| > 0 && (t[0] == '-' || t[0] == '+') then t[1..] else t;
    if WellFormedDigits(body) then
      var v: int := DigitsValue(body);
      Some(if negative then -v else v)
    else
      None
  }

  function DigitChar(d: nat): char
    requires d < 10
  {
    ('0' as int + d) as char
  }

  /** The decimal digits of a natural number, most significant first. */
  function Natural(n: nat): (s: string)
    ensures |s| > 0
    ensures forall i :: 0 <= i < |s| ==> IsDigit(s[i])
  {
    if n < 10 then [DigitChar(n)] else Natural(n / 10) + [DigitChar(n % 10)]
  }

  /** `str(n)` for an int. */
  function Decimal(n: int): (s: string)
    ensures |s| > 0 && IsDigit(s[|s| - 1])
    ensures NoneOf(s, {','})
  {
    if n < 0 then "-" + Natural(-n) else Natural(n)
  }

  lemma {:induction false} NaturalValue(n: nat)
    ensures DigitsValue(Natural(n)) == n
  {
    if n >= 10 {
      var s := Natural(n);
      assert s[..|s| - 1] == Natural(n / 10);
      NaturalValue(n / 10);
    }
  }

  /** Reading back what `str` wrote gives the same integer. */
  lemma ParseDecimal(n: int)
    ensures ParseInt(Decimal(n)) == Some(n)
  {
    var s := Decimal(n);
    var m: nat := if n < 0 then -n else n;
    var digits := Natural(m);
    NaturalValue(m);
    assert WellFormedDigits(digits);
    assert !IsSpace(s[0]) by {
      assert s[0] == '-' || IsDigit(s[0]);
    }
    assert TrimStart(s) == s;
    assert TrimEnd(s) == s;
    assert Strip(s) == s;
    if n < 0 {
      assert s[1..] == digits;
    } else {
      assert s == digits;
    }
  }

  /** The values of a list of parse outcomes, or None as soon as one failed. */
  function Collect(xs: seq<Option<int>>): Option<seq<int>> {
    if |xs| == 0 then Some([])
    else
      match xs[0]
      case None => None
      case Some(v) =>
        match Collect(xs[1..])
        case None => None
        case Some(vs) => Some([v] + vs)
  }

  /** Collecting succeeds exactly when every outcome is a value, and keeps the values in order. */
  lemma {:induction false} CollectAll(xs: seq<Option<int>>)
    ensures Collect(xs).Some? <==> forall i :: 0 <= i < |xs| ==> xs[i].Some?
    ensures Collect(xs).Some? ==>
              |Collect(xs).value| == |xs| && forall i :: 0 <= i < |xs| ==> xs[i] == Some(Collect(xs).value[i])
  {
    if |xs| > 0 {
      var rest := xs[1..];
      CollectAll(rest);
      assert forall i :: 1 <= i < |xs| ==> xs[i] == rest[i - 1];
    }
  }

  /** `[int(pad) for pad in tokens]`: every token parsed, in order, or None when one does not parse. */
  function ParseAll(tokens: seq<string>): Option<seq<int>> {
    Collect(seq(|tokens|, i requires 0 <= i < |tokens| => ParseInt(tokens[i])))
  }

  /** The comprehension succeeds exactly when every token parses, and keeps their values in order. */
  lemma ParseAllTokens(tokens: seq<string>)
    ensures ParseAll(tokens).Some? <==> forall i :: 0 <= i < |tokens| ==> ParseInt(tokens[i]).Some?
    ensures ParseAll(tokens).Some? ==>
              |ParseAll(tokens).value| == |tokens| &&
              forall i :: 0 <= i < |tokens| ==> ParseInt(tokens[i]) == Some(ParseAll(tokens).value[i])
  {
    var outcomes := seq(|tokens|, i requires 0 <= i < |tokens| => ParseInt(tokens[i]));
    assert ParseAll(tokens) == Collect(outcomes);
    CollectAll(outcomes);
    forall i | 0 <= i < |tokens| ensures outcomes[i] == ParseInt(tokens[i]) {
    }
  }

  /**
   * The padding option: empty means no padding; otherwise every
   * comma-separated token must be an integer and there must be 1, 2 or 4
   * of them, or the call fails with the padding error.
   */
  function ParsePadding(spec: string): (r: Result<seq<int>, Error>)
    ensures spec == "" ==> r == Ok([])
    ensures r.Err? ==> r.error == InvalidPadding
    ensures spec != "" ==>
              (r.Ok? <==> |Split(spec, ',')| in {1, 2, 4} &&
                          forall i :: 0 <= i < |Split(spec, ',')| ==> ParseInt(Split(spec, ',')[i]).Some?)
    ensures spec != "" && r.Ok? ==>
              |r.value| == |Split(spec, ',')| &&
              forall i :: 0 <= i < |r.value| ==> ParseInt(Split(spec, ',')[i]) == Some(r.value[i])
  {
    if spec == "" then Ok([])
    else
      ParseAllTokens(Split(spec, ','));
      match ParseAll(Split(spec, ','))
      case None => Err(InvalidPadding)
      case Some(pads) => if |pads| in {1, 2, 4} then Ok(pads) else Err(InvalidPadding)
  }

  /** The decimal texts of a list of integers, as `str` writes them. */
  function DecimalTokens(pads: seq<int>): (tokens: seq<string>)
    ensures |tokens| == |pads|
    ensures forall i :: 0 <= i < |tokens| ==> NoneOf(tokens[i], {','})
  {
    seq(|pads|, i requires 0 <= i < |pads| => Decimal(pads[i]))
  }

  /** Parsing the decimal texts of integers gives the integers back. */
  lemma DecimalTokensParse(pads: seq<int>)
    ensures ParseAll(DecimalTokens(pads)) == Some(pads)
  {
    var tokens := DecimalTokens(pads);
    forall i | 0 <= i < |tokens| ensures ParseInt(tokens[i]) == Some(pads[i]) {
      ParseDecimal(pads[i]);
    }
    ParseAllTokens(tokens);
    var values := ParseAll(tokens).value;
    forall i | 0 <= i < |pads| ensures values[i] == pads[i] {
      assert ParseInt(tokens[i]) == Some(values[i]);
    }
    assert values == pads;
  }

  /** A padding of 1, 2 or 4 integers written out with commas reads back as itself. */
  lemma PaddingRoundTrip(pads: seq<int>)
    requires |pads| in {1, 2, 4}
    ensures ParsePadding(Join(DecimalTokens(pads), ',')) == Ok(pads)
  {
    var tokens := DecimalTokens(pads);
    SplitJoin(tokens, ',');
    JoinLength(tokens, ',');
    DecimalTokensParse(pads);
  }

  lemma {:induction false} JoinLength(parts: seq<string>, sep: char)
    requires |parts| >= 1
    ensures |Join(parts, sep)| >= |parts[0]|
  {
  }
}
