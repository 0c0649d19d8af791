/** Values and string helpers shared by every module of the model:
    the Option and Result wrappers standing for Python's None and raised
    exceptions, and the few string operations of Python's `str` that the
    documentation renderer uses (join, lower/upper, strip, splitlines, `in`). */
module Common {

  datatype Option<T> = None | Some(value: T)

  /** The Python exception a computation ends with.  `Diverges` stands for a
      loop of the source that never exits (see PyValues.Unwrap). */
  datatype Error =
    | AssertionError
    | AttributeError
    | IndexError
    | KeyError
    | TypeError
    | ValueError
    | RuntimeError
    | DslSyntaxError
    | Diverges
      /** The source goes on with a value the model does not represent (the
          `str()` of a tuple, a line that is not a string). */
    | Unmodelled

  datatype Result<T> = Ok(value: T) | Err(error: Error) {
    predicate IsFailure() { Err? }
    function PropagateFailure<U>(): Result<U>
      requires Err?
    {
      Err(error)
    }
    function Extract(): T
      requires Ok?
    {
      value
    }
  }

  /** Python's `sep.join(parts)`. */
  function Join(sep: string, parts: seq<string>): (r: string)
    ensures |parts| == 0 ==> r == ""
    ensures |parts| == 1 ==> r == parts[0]
  {
    if |parts| == 0 then ""
    else if |parts| == 1 then parts[0]
    else parts[0] + sep + Join(sep, parts[1..])
  }

  /** Every line of `lines` with `p` put in front. */
  function Prefix(p: string, lines: seq<string>): (r: seq<string>)
    ensures |r| == |lines|
    ensures forall i :: 0 <= i < |lines| ==> r[i] == p + lines[i]
  {
    seq(|lines|, i requires 0 <= i < |lines| => p + lines[i])
  }

  function LowerChar(c: char): char {
    if 'A' <= c <= 'Z' then (c as int + 32) as char else c
  }

  function UpperChar(c: char): char {
    if 'a' <= c <= 'z' then (c as int - 32) as char else c
  }

  /** Python's `str.lower()`, restricted to ASCII letters. */
  function Lower(s: string): (r: string)
    ensures |r| == |s|
    ensures forall i :: 0 <= i < |s| ==> r[i] == LowerChar(s[i])
  {
    seq(|s|, i requires 0 <= i < |s| => LowerChar(s[i]))
  }

  /** Python's `str.upper()`, restricted to ASCII letters. */
  function Upper(s: string): (r: string)
    ensures |r| == |s|
    ensures forall i :: 0 <= i < |s| ==> r[i] == UpperChar(s[i])
  {
    seq(|s|, i requires 0 <= i < |s| => UpperChar(s[i]))
  }

  predicate IsAsciiLetter(c: char) {
    'a' <= c <= 'z' || 'A' <= c <= 'Z'
  }

  /** A character as `str.title()` writes it, at the start of a word or
      inside one. */
  function TitleChar(startsWord: bool, c: char): (r: char)
    ensures IsAsciiLetter(r) == IsAsciiLetter(c)
  {
    if startsWord then UpperChar(c) else LowerChar(c)
  }

  /** Python's `str.title()`, restricted to ASCII letters: a letter is
      upper-cased when it starts a word (no letter before it) and
      lower-cased otherwise. */
  function Title(s: string): (r: string)
    ensures |r| == |s|
    ensures forall i :: 0 <= i < |s| ==> r[i] == TitleAt(s, i)
  {
    seq(|s|, i requires 0 <= i < |s| => TitleAt(s, i))
  }

  /** The character at position i of `s.title()`. */
  function TitleAt(s: string, i: nat): char
    requires i < |s|
  {
    TitleChar(i == 0 || !IsAsciiLetter(s[i - 1]), s[i])
  }

  /** Lower-casing a lower-cased string changes nothing. */
  lemma LowerIdempotent(s: string)
    ensures Lower(Lower(s)) == Lower(s)
  {
    forall i | 0 <= i < |s| ensures Lower(Lower(s))[i] == Lower(s)[i] {
      assert LowerChar(LowerChar(s[i])) == LowerChar(s[i]);
    }
  }

  /** Title-casing a title-cased string changes nothing. */
  lemma TitleIdempotent(s: string)
    ensures Title(Title(s)) == Title(s)
  {
    var t := Title(s);
    forall i | 0 <= i < |s| ensures Title(t)[i] == t[i] {
      if i > 0 {
        assert IsAsciiLetter(t[i - 1]) == IsAsciiLetter(s[i - 1]);
      }
      assert UpperChar(UpperChar(s[i])) == UpperChar(s[i]);
      assert LowerChar(LowerChar(s[i])) == LowerChar(s[i]);
    }
  }

  /** The characters for which Python's `str.isspace()` holds. */
  predicate IsSpace(c: char) {
    var n := c as int;
    (9 <= n <= 13) || (0x1c <= n <= 0x20) || n == 0x85 || n == 0xa0 || n == 0x1680
    || (0x2000 <= n <= 0x200a) || n == 0x2028 || n == 0x2029 || n == 0x202f
    || n == 0x205f || n == 0x3000
  }

  /** The characters at which Python's `str.splitlines()` breaks a line
      (the pair "\r\n" counts as one break). */
  predicate IsLineBoundary(c: char) {
    var n := c as int;
    (10 <= n <= 13) || (0x1c <= n <= 0x1e) || n == 0x85 || n == 0x2028 || n == 0x2029
  }

  function StripLeft(s: string): (r: string)
    ensures |r| <= |s| && r == s[|s| - |r|..]
    ensures r == [] || !IsSpace(r[0])
  {
    if s != [] && IsSpace(s[0]) then StripLeft(s[1..]) else s
  }

  function StripRight(s: string): (r: string)
    ensures |r| <= |s| && r == s[..|r|]
    ensures r == [] || !IsSpace(r[|r| - 1])
  {
    if s != [] && IsSpace(s[|s| - 1]) then StripRight(s[..|s| - 1]) else s
  }

  /** Python's `str.strip()` with no argument. */
  function Strip(s: string): string {
    StripRight(StripLeft(s))
  }

  /** Python's `str.splitlines()`: `cur` is the line read so far. */
  function SplitLinesFrom(cur: string, s: string): seq<string>
    decreases |s|
  {
    if s == [] then (if cur == [] then [] else [cur])
    else if s[0] == '\r' && |s| > 1 && s[1] == '\n' then [cur] + SplitLinesFrom([], s[2..])
    else if IsLineBoundary(s[0]) then [cur] + SplitLinesFrom([], s[1..])
    else SplitLinesFrom(cur + [s[0]], s[1..])
  }

  function SplitLines(s: string): seq<string> {
    SplitLinesFrom([], s)
  }

  /** Python's `sub in s` on strings. */
  predicate Contains(s: string, sub: string)
    decreases |s|
  {
    sub <= s || (s != [] && Contains(s[1..], sub))
  }

  /** A text none of whose characters breaks a line: a line read before the
      break `"\n"` is kept whole, and the break starts a fresh line. */
  lemma {:induction false} SplitLinesThroughNewline(cur: string, x: string, post: string)
    requires forall i :: 0 <= i < |x| ==> !IsLineBoundary(x[i])
    ensures SplitLinesFrom(cur, x + "\n" + post) == [cur + x] + SplitLinesFrom([], post)
    decreases |x|
  {
    if x == [] {
      assert x + "\n" + post == "\n" + post;
      assert ("\n" + post)[0] == '\n' && IsLineBoundary('\n');
      assert ("\n" + post)[1..] == post;
      assert cur + x == cur;
    } else {
      assert (x + "\n" + post)[0] == x[0];
      assert (x + "\n" + post)[1..] == x[1..] + "\n" + post;
      SplitLinesThroughNewline(cur + [x[0]], x[1..], post);
      assert cur + [x[0]] + x[1..] == cur + x;
    }
  }

  /** Whatever comes before a `"\n"` that does not close a `"\r\n"` pair, the
      lines of the text after it are the last lines of the whole text. */
  lemma {:induction false} SplitLinesSuffix(cur: string, pre: string, rest: string)
    requires pre == [] || pre[|pre| - 1] != '\r'
    ensures exists p :: SplitLinesFrom(cur, pre + "\n" + rest) == p + SplitLinesFrom([], rest)
    decreases |pre|
  {
    var s := pre + "\n" + rest;
    if pre == [] {
      assert s == "\n" + rest && s[1..] == rest;
      assert SplitLinesFrom(cur, s) == [cur] + SplitLinesFrom([], rest);
    } else if pre[0] == '\r' && |pre| > 1 && pre[1] == '\n' {
      assert s[0] == '\r' && s[1] == '\n';
      assert s[2..] == pre[2..] + "\n" + rest;
      SplitLinesSuffix([], pre[2..], rest);
      var p :| SplitLinesFrom([], pre[2..] + "\n" + rest) == p + SplitLinesFrom([], rest);
      assert SplitLinesFrom(cur, s) == ([cur] + p) + SplitLinesFrom([], rest);
    } else {
      assert s[0] == pre[0];
      assert s[1..] == pre[1..] + "\n" + rest;
      var cur' := if IsLineBoundary(pre[0]) then [] else cur + [pre[0]];
      if pre[0] == '\r' {
        // a lone '\r' at the end of `pre` is excluded, so s[1] is pre[1] and not '\n'
        assert |pre| > 1 && s[1] == pre[1];
      }
      SplitLinesSuffix(cur', pre[1..], rest);
      var p :| SplitLinesFrom(cur', pre[1..] + "\n" + rest) == p + SplitLinesFrom([], rest);
      if IsLineBoundary(pre[0]) {
        assert SplitLinesFrom(cur, s) == ([cur] + p) + SplitLinesFrom([], rest);
      } else {
        assert SplitLinesFrom(cur, s) == p + SplitLinesFrom([], rest);
      }
    }
  }

  /** Growing a set of visited elements shrinks the set of those left: the
      measure of the memoised walks. */
  lemma Shrinks<T>(all: set<T>, before: set<T>, after: set<T>, x: T)
    requires before <= after
    requires x in all && x in after && x !in before
    ensures |all - after| < |all - before|
  {
    var left := all - after;
    var gone := (all - before) - left;
    assert x in gone;
    assert all - before == left + gone;
    assert left * gone == {};
  }

  lemma ShrinksNot<T>(all: set<T>, before: set<T>, after: set<T>)
    requires before <= after
    ensures |all - after| <= |all - before|
  {
    var left := all - after;
    var gone := (all - before) - left;
    assert all - before == left + gone;
    assert left * gone == {};
  }
}
