/**
 * String helpers over resource names: ASCII lower-casing, `os.path.splitext`
 * on POSIX paths, the path part of an http(s) URL as `urllib.parse.urlparse`
 * finds it, and the extension lookup in COMMON_LEXERS.
 */
module Paths {
  import opened Wrappers

  predicate StartsWith(s: string, prefix: string) {
    |prefix| <= |s| && s[..|prefix|] == prefix
  }

  predicate EndsWith(s: string, suffix: string) {
    |suffix| <= |s| && s[|s| - |suffix|..] == suffix
  }

  /** An ASCII decimal digit, `[0-9]`. */
  predicate IsDigit(c: char) {
    '0' <= c <= '9'
  }

  function LowerChar(c: char): char {
    if 'A' <= c <= 'Z' then (c as int + 32) as char else c
  }

  /** `str.lower()` restricted to ASCII letters. */
  function Lower(s: string): (r: string)
    ensures |r| == |s|
    ensures forall i :: 0 <= i < |s| ==> r[i] == LowerChar(s[i])
  {
    seq(|s|, i requires 0 <= i < |s| => LowerChar(s[i]))
  }

  lemma LowerAppend(a: string, b: string)
    ensures Lower(a + b) == Lower(a) + Lower(b)
  {
  }

  /** `str.rfind(c)`: the last index holding c, or -1. */
  function LastIndexOf(s: string, c: char): (r: int)
    ensures -1 <= r < |s|
    ensures r >= 0 ==> s[r] == c
    ensures forall i :: r < i < |s| ==> s[i] != c
    decreases |s|
  {
    if |s| == 0 then -1
    else if s[|s| - 1] == c then |s| - 1
    else LastIndexOf(s[..|s| - 1], c)
  }

  /** No character of `s` is one of `chars`. */
  predicate NoneOf(s: string, chars: set<char>) {
    forall i :: 0 <= i < |s| ==> s[i] !in chars
  }

  /** The first index holding one of `chars`, or |s| when there is none. */
  function FirstIndexIn(s: string, chars: set<char>): (r: nat)
    ensures r <= |s|
    ensures r < |s| ==> s[r] in chars
    ensures NoneOf(s[..r], chars)
  {
    if |s| == 0 then 0
    else if s[0] in chars then 0
    else 1 + FirstIndexIn(s[1..], chars)
  }

  /** The first such index is determined by its contract. */
  lemma FirstIndexInUnique(s: string, chars: set<char>, j: nat)
    requires j <= |s| && NoneOf(s[..j], chars)
    requires j < |s| ==> s[j] in chars
    ensures FirstIndexIn(s, chars) == j
  {
  }

  /** Everything up to (not including) the first character from `chars`. */
  function CutAt(s: string, chars: set<char>): (r: string)
    ensures StartsWith(s, r)
    ensures NoneOf(r, chars)
    ensures |r| < |s| ==> s[|r|] in chars
    ensures NoneOf(s, chars) ==> r == s
  {
    s[..FirstIndexIn(s, chars)]
  }

  /**
   * `os.path.splitext(p)[1]` for POSIX paths: the suffix from the last '.'
   * that lies after the last '/', provided the file name before that dot
   * is not made of dots only; otherwise the empty string.
   */
  function SplitExt(p: string): string {
    var sep := LastIndexOf(p, '/');
    var dot := LastIndexOf(p, '.');
    if dot > sep && NonDotIn(p, sep + 1, dot) then p[dot..] else ""
  }

  /** The extension is empty or a suffix of the path: a '.' followed by neither '.' nor '/'. */
  lemma SplitExtShape(p: string)
    ensures var ext := SplitExt(p);
            ext == "" || (EndsWith(p, ext) && ext[0] == '.' && NoneOf(ext[1..], {'.', '/'}))
  {
    var sep := LastIndexOf(p, '/');
    var dot := LastIndexOf(p, '.');
    if dot > sep && NonDotIn(p, sep + 1, dot) {
      var ext := p[dot..];
      forall i | 0 <= i < |ext[1..]| ensures ext[1..][i] !in {'.', '/'} {
        assert ext[1..][i] == p[dot + 1 + i];
      }
    }
  }

  /** Some character of p[lo..hi] is not a dot: the scan over the file name that splitext makes. */
  predicate NonDotIn(p: string, lo: nat, hi: nat)
    requires hi <= |p|
    decreases hi - lo
  {
    lo < hi && (p[lo] != '.' || NonDotIn(p, lo + 1, hi))
  }

  /** The scan finds any non-dot character in its range. */
  lemma {:induction false} NonDotWitness(p: string, lo: nat, hi: nat, i: nat)
    requires lo <= i < hi <= |p| && p[i] != '.'
    ensures NonDotIn(p, lo, hi)
    decreases i - lo
  {
    if p[lo] == '.' {
      NonDotWitness(p, lo + 1, hi, i);
    }
  }

  /** rfind is determined by its contract: the last index holding c, or -1. */
  lemma LastIndexOfUnique(s: string, c: char, r: int)
    requires -1 <= r < |s|
    requires r >= 0 ==> s[r] == c
    requires forall i :: r < i < |s| ==> s[i] != c
    ensures LastIndexOf(s, c) == r
  {
  }

  /** rfind over a concatenation looks in the right part first. */
  lemma LastIndexOfAppend(a: string, b: string, c: char)
    ensures LastIndexOf(a + b, c) == if c in b then |a| + LastIndexOf(b, c) else LastIndexOf(a, c)
  {
    var s := a + b;
    assert forall i :: |a| <= i < |s| ==> s[i] == b[i - |a|];
    assert forall i :: 0 <= i < |a| ==> s[i] == a[i];
    var expected := if c in b then |a| + LastIndexOf(b, c) else LastIndexOf(a, c);
    LastIndexOfUnique(s, c, expected);
  }

  /**
   * A name whose last component has something other than dots before the
   * final ".ext" has exactly ".ext" as its extension.
   */
  lemma SplitExtOfName(stem: string, name: string, i: nat)
    requires NoneOf(name, {'.', '/'})
    requires LastIndexOf(stem, '/') < i < |stem| && stem[i] != '.'
    ensures SplitExt(stem + "." + name) == "." + name
  {
    var p := stem + "." + name;
    NameIndices(stem, name);
    assert p[i] == stem[i];
    NonDotWitness(p, LastIndexOf(stem, '/') + 1, |stem|, i);
    DotNameSuffix(stem, name);
    assert SplitExt(p) == p[|stem|..];
  }

  /**
   * The other side of SplitExtOfName: when the file name before the last
   * dot is made of dots only (none at all, as in ".md", or several, as in
   * "..md"), there is no extension.
   */
  lemma SplitExtOfDotsOnlyName(stem: string, name: string)
    requires NoneOf(name, {'.', '/'})
    requires !NonDotIn(stem, LastIndexOf(stem, '/') + 1, |stem|)
    ensures SplitExt(stem + "." + name) == ""
  {
    DotJoin(stem, name);
    NameIndices(stem, name);
    NonDotInPrefix(stem, "." + name, LastIndexOf(stem, '/') + 1, |stem|);
  }

  lemma DotJoin(stem: string, name: string)
    ensures stem + "." + name == stem + ("." + name)
  {
  }

  /** A hidden file such as ".md" or "docs/.md" has no extension. */
  lemma HiddenFileHasNoExtension()
    ensures SplitExt(".md") == "" && SplitExt("docs/.md") == ""
  {
    assert ".md" == "" + "." + "md";
    SplitExtOfDotsOnlyName("", "md");
    assert "docs/.md" == "docs/" + "." + "md";
    LastIndexOfUnique("docs/", '/', 4);
    SplitExtOfDotsOnlyName("docs/", "md");
  }

  /** The scan over a range of a prefix does not see what follows the prefix. */
  lemma {:induction false} NonDotInPrefix(s: string, t: string, lo: nat, hi: nat)
    requires hi <= |s|
    ensures NonDotIn(s + t, lo, hi) == NonDotIn(s, lo, hi)
    decreases hi - lo
  {
    if lo < hi {
      assert (s + t)[lo] == s[lo];
      NonDotInPrefix(s, t, lo + 1, hi);
    }
  }

  lemma DotNameSuffix(stem: string, name: string)
    ensures (stem + "." + name)[|stem|..] == "." + name
  {
    assert stem + "." + name == stem + ("." + name);
  }

  /** In stem + "." + name the last '/' is the stem's and the last '.' is the one before the name. */
  lemma NameIndices(stem: string, name: string)
    requires NoneOf(name, {'.', '/'})
    ensures LastIndexOf(stem + "." + name, '/') == LastIndexOf(stem, '/')
    ensures LastIndexOf(stem + "." + name, '.') == |stem|
  {
    var tail := "." + name;
    assert stem + "." + name == stem + tail;
    assert '/' !in tail by {
      forall i | 0 <= i < |tail| ensures tail[i] != '/' {
        if i > 0 { assert tail[i] == name[i - 1]; }
      }
    }
    LastIndexOfUnique(tail, '.', 0);
    LastIndexOfAppend(stem, tail, '/');
    LastIndexOfAppend(stem, tail, '.');
  }

  /** Characters that `urlsplit` deletes wherever they occur. */
  const UnsafeUrlChars: set<char> := {'\t', '\r', '\n'}

  function RemoveUnsafe(s: string): (r: string)
    ensures |r| <= |s|
    ensures NoneOf(r, UnsafeUrlChars)
    ensures NoneOf(s, UnsafeUrlChars) ==> r == s
  {
    if |s| == 0 then ""
    else if s[0] in UnsafeUrlChars then RemoveUnsafe(s[1..])
    else [s[0]] + RemoveUnsafe(s[1..])
  }
  /** Removal works character by character: it distributes over concatenation. */
  lemma {:induction false} RemoveUnsafeAppend(a: string, b: string)
    ensures RemoveUnsafe(a + b) == RemoveUnsafe(a) + RemoveUnsafe(b)
    decreases |a|
  {
    if a != [] {
      assert (a + b)[0] == a[0];
      assert (a + b)[1..] == a[1..] + b;
      RemoveUnsafeAppend(a[1..], b);
    } else {
      assert a + b == b;
    }
  }

  /** A single character is kept exactly when it is not an unsafe one. */
  lemma RemoveUnsafeChar(c: char)
    ensures RemoveUnsafe([c]) == if c in UnsafeUrlChars then [] else [c]
  {
    assert [c][1..] == [];
  }


  /**
   * The `path` component that `urlparse` gives for an http or https URL, or
   * None where it raises ValueError (a network location with an unmatched
   * '[' or ']'). The scheme and "//" are dropped, the network location runs
   * to the first '/', '?' or '#', then the fragment, the query and the
   * parameters of the last segment are cut off.
   */
  function UrlPath(url: string): (r: Option<string>)
    requires StartsWith(url, "http://") || StartsWith(url, "https://")
    ensures r.Some? ==> NoneOf(r.value, {'#', '?'}) && NoneOf(r.value, UnsafeUrlChars)
  {
    var rest := RemoveUnsafe(url[if StartsWith(url, "https://") then 6 else 5..]);
    var (netloc, after) :=
      if StartsWith(rest, "//") then
        var k := FirstIndexIn(rest[2..], {'/', '?', '#'});
        (rest[2..][..k], rest[2..][k..])
      else ("", rest);
    if ('[' in netloc) != (']' in netloc) then None
    else
      var noFragment := CutAt(after, {'#'});
      var path := CutAt(noFragment, {'?'});
      var r := SplitParams(path);
      NoneOfSlice(rest, |rest| - |after|, |rest|, UnsafeUrlChars);
      assert after == rest[|rest| - |after|..];
      NoneOfSlice(after, 0, |noFragment|, UnsafeUrlChars);
      NoneOfSlice(noFragment, 0, |path|, {'#'} + UnsafeUrlChars);
      NoneOfSlice(path, 0, |r|, {'#', '?'} + UnsafeUrlChars);
      Some(r)
  }

  lemma NoneOfSlice(s: string, lo: nat, hi: nat, chars: set<char>)
    requires lo <= hi <= |s| && NoneOf(s, chars)
    ensures NoneOf(s[lo..hi], chars)
  {
    assert forall i :: 0 <= i < hi - lo ==> s[lo..hi][i] == s[lo + i];
  }

  /** `_splitparams`: drop ";params" from the last path segment. */
  function SplitParams(path: string): (r: string)
    ensures StartsWith(path, r)
    ensures NoneOf(path, {';'}) ==> r == path
  {
    if ';' !in path then path
    else if '/' in path then
      var from := LastIndexOf(path, '/');
      var k := FirstIndexIn(path[from..], {';'});
      if k == |path[from..]| then path else path[..from + k]
    else
      path[..FirstIndexIn(path, {';'})]
  }

  /**
   * A URL built from a plain host and a plain absolute path has that path as
   * its path component.
   */
  lemma UrlPathOfPlainUrl(host: string, path: string)
    requires NoneOf(host, {'/', '?', '#', '[', ']'} + UnsafeUrlChars)
    requires |path| > 0 && path[0] == '/'
    requires NoneOf(path, {'?', '#', ';'} + UnsafeUrlChars)
    ensures UrlPath("https://" + host + path) == Some(path)
  {
    PlainUrlRest(host, path);
    var hp := host + path;
    assert ("//" + hp)[2..] == hp;
    HostEndsAtPath(host, path);
    assert hp[..|host|] == host && hp[|host|..] == path;
    assert '[' !in host && ']' !in host;
    PlainPathKept(path);
  }

  /** After the scheme and with unsafe characters removed, a plain URL is "//" + host + path. */
  lemma PlainUrlRest(host: string, path: string)
    requires NoneOf(host, UnsafeUrlChars) && NoneOf(path, UnsafeUrlChars)
    ensures StartsWith("https://" + host + path, "https://")
    ensures RemoveUnsafe(("https://" + host + path)[6..]) == "//" + (host + path)
  {
    var url := "https://" + host + path;
    assert url[..8] == "https://";
    assert url[6..] == "//" + host + path == "//" + (host + path);
    PlainUrlIsSafe(host, path);
  }

  lemma PlainUrlIsSafe(host: string, path: string)
    requires NoneOf(host, UnsafeUrlChars) && NoneOf(path, UnsafeUrlChars)
    ensures NoneOf("//" + host + path, UnsafeUrlChars)
  {
    var rest := "//" + host + path;
    forall i | 0 <= i < |rest| ensures rest[i] !in UnsafeUrlChars {
      if 2 <= i < 2 + |host| {
        assert rest[i] == host[i - 2];
      } else if 2 + |host| <= i {
        assert rest[i] == path[i - 2 - |host|];
      }
    }
  }

  /** Fragment, query and parameter cuts leave a path without '#', '?' or ';' unchanged. */
  lemma PlainPathKept(path: string)
    requires NoneOf(path, {'?', '#', ';'} + UnsafeUrlChars)
    ensures CutAt(path, {'#'}) == path
    ensures CutAt(path, {'?'}) == path
    ensures SplitParams(path) == path
  {
    assert NoneOf(path, {'#'}) && NoneOf(path, {'?'}) && NoneOf(path, {';'});
  }

  lemma HostEndsAtPath(host: string, path: string)
    requires NoneOf(host, {'/', '?', '#'})
    requires |path| > 0 && path[0] == '/'
    ensures FirstIndexIn(host + path, {'/', '?', '#'}) == |host|
  {
    var hp := host + path;
    assert hp[..|host|] == host;
    assert hp[|host|] == '/';
    FirstIndexInUnique(hp, {'/', '?', '#'}, |host|);
  }



  /**
   * The extension that decides the format of a resource: the lower-cased
   * `splitext` suffix of the URL's path for an http(s) resource (empty when
   * the URL does not parse), of the resource itself otherwise.
   */
  function ResourceExtension(resource: string): (ext: string)
    ensures ext == "" || ext[0] == '.'
  {
    if StartsWith(resource, "http://") || StartsWith(resource, "https://") then
      match UrlPath(resource)
      case None => ""
      case Some(path) => SplitExtShape(path); Lower(SplitExt(path))
    else
      SplitExtShape(resource);
      Lower(SplitExt(resource))
  }

  /** `path.rpartition(".")` finds a dot with at least one character after it. */
  predicate HasDotExtension(path: string) {
    var dot := LastIndexOf(path, '.');
    dot >= 0 && dot + 1 < |path|
  }

  /** The lexers chosen from a file extension before any guessing. */
  const CommonLexers: map<string, string> := map[
    "html" := "html",
    "py" := "python",
    "md" := "markdown",
    "js" := "javascript",
    "xml" := "xml",
    "json" := "json",
    "toml" := "toml"
  ]

  /**
   * `path.rpartition(".")` then COMMON_LEXERS.get(ext.lower()): a lexer
   * only when there is a dot with something after it whose lower-cased form
   * is a known extension.
   */
  function CommonLexer(path: string): (r: Option<string>)
    ensures r.Some? ==> HasDotExtension(path)
  {
    var dot := LastIndexOf(path, '.');
    if dot >= 0 && dot + 1 < |path| then
      var ext := Lower(path[dot + 1..]);
      if ext in CommonLexers then Some(CommonLexers[ext]) else None
    else None
  }

  /** A lexer is chosen only through a COMMON_LEXERS key that, after a dot, ends the lower-cased path. */
  lemma CommonLexerSpec(path: string)
    ensures CommonLexer(path).Some? ==>
              exists k :: k in CommonLexers && CommonLexer(path).value == CommonLexers[k] &&
                          EndsWith(Lower(path), "." + k)
  {
    var dot := LastIndexOf(path, '.');
    if CommonLexer(path).Some? {
      var ext := Lower(path[dot + 1..]);
      LowerFromDot(path, dot);
      assert ext in CommonLexers && CommonLexer(path).value == CommonLexers[ext] &&
             EndsWith(Lower(path), "." + ext);
    }
  }

  /** Lower-casing from a dot on is the dot followed by the lower-cased rest. */
  lemma LowerFromDot(path: string, dot: nat)
    requires dot < |path| && path[dot] == '.'
    ensures EndsWith(Lower(path), "." + Lower(path[dot + 1..]))
  {
    assert Lower(path)[dot..] == "." + Lower(path[dot + 1..]);
  }

  /** Any stem followed by a known extension, in any letter case, selects its lexer. */
  lemma CommonLexerOfName(stem: string, ext: string)
    requires NoneOf(ext, {'.'}) && Lower(ext) in CommonLexers
    ensures CommonLexer(stem + "." + ext) == Some(CommonLexers[Lower(ext)])
  {
    LastDotBeforeName(stem, ext);
    NameAfterDot(stem, ext);
  }

  /** With no dot in the name, the last dot of stem + "." + name is the one before the name. */
  lemma LastDotBeforeName(stem: string, name: string)
    requires NoneOf(name, {'.'})
    ensures LastIndexOf(stem + "." + name, '.') == |stem|
  {
    var tail := "." + name;
    assert stem + "." + name == stem + tail;
    assert forall i :: 0 < i < |tail| ==> tail[i] == name[i - 1];
    LastIndexOfUnique(tail, '.', 0);
    LastIndexOfAppend(stem, tail, '.');
  }

  lemma NameAfterDot(stem: string, name: string)
    ensures (stem + "." + name)[|stem| + 1..] == name
  {
  }

}
