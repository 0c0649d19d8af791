/** The tag dispatch of `str_sequence_doc` (textx_dsldoc/render_utils.py):
    the Markdown lines describing a tagged tree.  The lines the generator
    yields are collected; an exception raised part way makes the whole
    result that error. */
module SequenceDoc {
  import opened Common
  import opened PyValues
  import opened Peg
  import opened RenderUtils
  import opened TaggedTree

  /** The string tags the dispatch recognises. */
  predicate IsTag(t: PyVal) {
    t in {PyStr("sequence"), PyStr("0..*"), PyStr("1..*"), PyStr("0..1"), PyStr("or"),
          PyStr("regex"), PyStr("special regex"), PyStr("choice")}
  }

  /** `str_sequence_doc(v)`: the singleton wrappers are removed first, then
      the first item is the tag and the rest its data. */
  function Doc(env: Env, v: PyVal): (r: Result<seq<string>>)
    ensures IsSeq(v) && |v.elems| == 0 ==> r == Err(ValueError)
    ensures IsSeq(v) && |v.elems| >= 2 ==> r == Dispatch(env, v)
    decreases Size(v), 3, 0
  {
    var w :- Unwrap(v);
    // a string, or an empty tuple, cannot be unpacked into `type_, *data`
    // (a string of two or more characters unpacks, but no branch takes a
    // one-character tag: it reaches the final ValueError)
    if w.PyStr? || Len(w).value == 0 then Err(ValueError)
    else Dispatch(env, w)
  }

  function Dispatch(env: Env, w: PyVal): (r: Result<seq<string>>)
    requires IsSeq(w) && |w.elems| >= 1
    ensures !IsTag(w.elems[0]) && w.elems[0] != PyStrType && !w.elems[0].PyTuple? ==> r == Err(ValueError)
    ensures w.elems[0] == PyStrType ==> (r.Ok? <==> |w.elems| == 2 && w.elems[1].PyStr?)
    ensures w.elems[0] == PyStrType && r.Ok? ==> r.value == [w.elems[1].s]
    decreases Size(w), 2, 0
  {
    var type_ := w.elems[0];
    var data := w.elems[1..];
    AllItemsSmaller(w);
    if type_ == PyStr("sequence") then SequenceTag(env, w)
    else if type_ == PyStr("0..*") || type_ == PyStr("1..*") then
      if |data| != 2 then Err(AssertionError)
      else
        var sep :- ReadablePySep(data[1]);
        var low :- LowerOf(data[0]);
        var lead := if type_ == PyStr("0..*") then "zero or any number of [" else "at least one [";
        Ok([lead + data[0].s + "](#" + low + ") separated by " + sep])
    else if type_ == PyStr("0..1") then
      if |data| != 1 then Err(AssertionError)
      else if data[0].PyTuple? then
        var lines :- Doc(env, data[0]);
        Ok(["Optionally (zero or one):"] + Prefix("    ", lines))
      else
        var low :- LowerOf(data[0]);
        Ok(["optionally a [" + data[0].s + "](#" + low + ")"])
    else if type_ == PyStr("or") then
      if |data| != 1 then Err(AssertionError)
      else
        var names :- Items(data[0]);
        var links :- OrLinks(names);
        Ok(["one of:", ""] + links)
    else if type_ == PyStr("regex") then
      if |data| != 1 then Err(AssertionError)
      else if !data[0].PyStr? then Err(TypeError)
      else
        var examples := env.matchExamples(data[0].s, 3);
        Ok(["anything matching the regex " + RenderRegex(env, data[0].s, examples) + " For example:", ""]
           + ExampleLines(examples))
    else if type_ == PyStr("special regex") then
      if |data| != 1 then Err(AssertionError)
      else
        var name :- UpperOf(data[0]);
        var regex :- SpecialRegexOf(name);
        var examples := env.matchExamples(regex, 3);
        Ok(["Anything corresponding to the " + name + " regex, for example " + Join(", ", Bold(examples)) + ".",
            "The " + name + " regex is " + RenderRegex(env, regex, examples)])
    else if type_ == PyStr("choice") then
      var d :- Unwrap(PyList(data));
      var parts := Items(d).value;
      AllItemsNotLarger(d);
      var lines :- DocAll(env, parts, Size(w));
      Ok(["any one of the following: " + Join(", ", lines)])
    else if type_ == PyStrType then
      if |data| == 1 && data[0].PyStr? then Ok([data[0].s]) else Err(AssertionError)
    else if type_.PyTuple? then TupleLed(env, w)
    else Err(ValueError)
  }

  /** The `'sequence'` branch: a chain of sequences holding a single
      sequence is skipped; otherwise a blank line, then per item one
      `Type ...` line followed by its non-empty lines as `, then ...`. */
  function SequenceTag(env: Env, w: PyVal): (r: Result<seq<string>>)
    requires IsSeq(w) && |w.elems| >= 1
    decreases Size(w), 1, 0
  {
    var data := w.elems[1..];
    AllItemsSmaller(w);
    var chained :-
      if |data| != 1 then Ok(false)
      else
        var n0 :- Len(data[0]);
        if n0 != 1 then Ok(false)
        else
          var n1 :- Len(First(data[0]));
          Ok(n1 == 2 && First(First(data[0])) == PyStr("sequence"));
    if chained then Doc(env, data[0])
    else
      var lines :- TypeLines(env, data, Size(w));
      Ok([""] + lines)
  }

  /** The branch of a tagged tree led by a tuple: a literal `(str, text)`
      at the head is shown in backquotes, any other tuple is described
      first, then the rest. */
  function TupleLed(env: Env, w: PyVal): (r: Result<seq<string>>)
    requires IsSeq(w) && |w.elems| >= 1 && w.elems[0].PyTuple?
    decreases Size(w), 1, 0
  {
    var head := w.elems[0];
    ItemsSmaller(w, 0);
    if |head.elems| == 2 && head.elems[0] == PyStrType then
      // '`' + x + '`' needs a string
      if !head.elems[1].PyStr? then Err(TypeError)
      else
        var more :- Doc(env, PyList(w.elems[1..]));
        Ok(["`" + head.elems[1].s + "`"] + more)
    else
      var first :- Doc(env, head);
      var more :- Doc(env, PyList(w.elems[1..]));
      Ok(first + more)
  }

  /** The lines of every item, one after the other. */
  function DocAll(env: Env, ds: seq<PyVal>, bound: nat): (r: Result<seq<string>>)
    requires forall i :: 0 <= i < |ds| ==> Size(ds[i]) < bound
    decreases bound, 0, |ds|
  {
    if ds == [] then Ok([])
    else
      var head :- Doc(env, ds[0]);
      var tail :- DocAll(env, ds[1..], bound);
      Ok(head + tail)
  }

  /** `'Type ' + next(gen)` then `', then ' + line` for each non-empty further
      line; an item with no line stops the generator with RuntimeError. */
  function TypeLines(env: Env, ds: seq<PyVal>, bound: nat): (r: Result<seq<string>>)
    requires forall i :: 0 <= i < |ds| ==> Size(ds[i]) < bound
    decreases bound, 0, |ds|
  {
    if ds == [] then Ok([])
    else
      var lines :- Doc(env, ds[0]);
      if lines == [] then Err(RuntimeError)
      else
        var tail :- TypeLines(env, ds[1..], bound);
        Ok(["Type " + lines[0]] + ThenLines(lines[1..]) + tail)
  }

  function ThenLines(lines: seq<string>): (r: seq<string>)
    ensures |r| <= |lines|
    ensures forall i :: 0 <= i < |r| ==> |r[i]| > 7 && r[i][..7] == ", then "
  {
    if lines == [] then []
    else if lines[0] == "" then ThenLines(lines[1..])
    else [", then " + lines[0]] + ThenLines(lines[1..])
  }

  function OrLinks(names: seq<PyVal>): (r: Result<seq<string>>)
    ensures r.Ok? ==> |r.value| == |names|
    ensures r.Ok? <==> forall i :: 0 <= i < |names| ==> PyStrOf(names[i]).Ok?
  {
    if names == [] then Ok([])
    else
      var n :- PyStrOf(names[0]);
      var tail :- OrLinks(names[1..]);
      assert forall i :: 1 <= i < |names| ==> names[i] == names[1..][i - 1];
      Ok(["- <a href=\"#" + n + "\">" + n + "</a>"] + tail)
  }

  function ExampleLines(examples: seq<string>): (r: seq<string>)
    ensures |r| == |examples|
  {
    seq(|examples|, i requires 0 <= i < |examples| => "    - \"" + examples[i] + "\"")
  }

  function Bold(examples: seq<string>): (r: seq<string>)
    ensures |r| == |examples|
  {
    seq(|examples|, i requires 0 <= i < |examples| => "<b>" + examples[i] + "</b>")
  }

  // ---------------------------------------------------------------------
  // Properties

  /** A `0..*` or `1..*` entry over a named class is one line whose
      separator is read through CHARS_AS_READABLE (None: any space), with the
      separator in quotes when it is not listed there. */
  lemma DocRepetitionLine(env: Env, tag: string, name: string, sep: Option<string>)
    requires tag == "0..*" || tag == "1..*"
    ensures Doc(env, PyTuple([PyStr(tag), PyStr(name), SepVal(sep)])) ==
      Ok([(if tag == "0..*" then "zero or any number of [" else "at least one [")
          + name + "](#" + Lower(name) + ") separated by " + ReadableSep(sep)])
  {
    var v := PyTuple([PyStr(tag), PyStr(name), SepVal(sep)]);
    assert v.elems[1..] == [PyStr(name), SepVal(sep)];
  }

  /** A `'special regex'` entry whose upper-cased name is a key of
      SPECIAL_REGEXES is described by that key's regex: the examples in
      bold, then the regex as a link. */
  lemma DocSpecialRegex(env: Env, name: string)
    requires SpecialRegexOf(Upper(name)).Ok?
    ensures var u := Upper(name);
      var regex := SpecialRegexOf(u).value;
      var ex := env.matchExamples(regex, 3);
      Doc(env, PyTuple([PyStr("special regex"), PyStr(name)])) ==
        Ok(["Anything corresponding to the " + u + " regex, for example " + Join(", ", Bold(ex)) + ".",
            "The " + u + " regex is " + RenderRegex(env, regex, ex)])
  {
    var v := PyTuple([PyStr("special regex"), PyStr(name)]);
    assert v.elems[1..] == [PyStr(name)];
    assert Unwrap(v) == Ok(v);
    assert Doc(env, v) == Dispatch(env, v);
    SpecialTagIsNoOther();
  }

  /** The tag "special regex" is none of the tags tested before it. */
  lemma SpecialTagIsNoOther()
    ensures PyStr("special regex") !in {PyStr("sequence"), PyStr("0..*"), PyStr("1..*"), PyStr("0..1"), PyStr("or"), PyStr("regex")}
  {
    assert |"special regex"| == 13;
  }

  /** Any head that is neither a known tag, nor `str`, nor a tuple raises
      ValueError. */
  lemma DocUnknownTag(env: Env, head: PyVal, rest: seq<PyVal>)
    requires !IsTag(head) && head != PyStrType && !head.PyTuple? && |rest| >= 1
    ensures Doc(env, PyTuple([head] + rest)) == Err(ValueError)
  {
    var v := PyTuple([head] + rest);
    assert v.elems[0] == head;
  }

  /** A rendered literal is described by the literal itself. */
  lemma DocOfRenderedLiteral(env: Env, lit: string)
    ensures Doc(env, Render(StrMatch(lit)).value) == Ok([lit])
  {
    var v := PyTuple([PyStrType, PyStr(lit)]);
    assert v.elems[1..] == [PyStr(lit)];
  }

  /** A rendered repetition over a textX class is described in one line
      linking the class's anchor (its lower-cased name). */
  lemma DocOfRenderedClassRepetition(env: Env, k: RepeatKind, child: Node, cls: string,
                                     sep: Option<string>, attr: string)
    ensures Doc(env, Render(Repetition(k, child, Some(cls), sep, attr)).value) ==
      Ok([match k
          case OptionalKind => "optionally a [" + cls + "](#" + Lower(cls) + ")"
          case ZeroOrMoreKind => "zero or any number of [" + cls + "](#" + Lower(cls) + ") separated by " + ReadableSep(sep)
          case OneOrMoreKind => "at least one [" + cls + "](#" + Lower(cls) + ") separated by " + ReadableSep(sep)])
  {
    if k.OptionalKind? {
      var v := PyTuple([PyStr("0..1"), PyStr(cls)]);
      assert v.elems[1..] == [PyStr(cls)];
    } else {
      DocRepetitionLine(env, RepeatTag(k), cls, sep);
    }
  }

  /** The rendering of a run of literals. */
  function Lits(ls: seq<string>): (r: seq<PyVal>)
    ensures |r| == |ls|
  {
    seq(|ls|, i requires 0 <= i < |ls| => PyTuple([PyStrType, PyStr(ls[i])]))
  }

  /** Every literal of a run but the last in backquotes, the last bare. */
  function Backticked(ls: seq<string>): (r: seq<string>)
    requires |ls| >= 1
    ensures |r| == |ls| && r[|ls| - 1] == ls[|ls| - 1]
    ensures forall i :: 0 <= i < |ls| - 1 ==> r[i] == "`" + ls[i] + "`"
  {
    seq(|ls| - 1, i requires 0 <= i < |ls| - 1 => "`" + ls[i] + "`") + [ls[|ls| - 1]]
  }

  lemma RenderStrNodes(ls: seq<string>)
    ensures RenderAll(StrNodes(ls)) == Ok(Lits(ls))
  {
    var ns := StrNodes(ls);
    assert forall i :: 0 <= i < |ns| ==> Render(ns[i]).Ok?;
    assert RenderAll(ns).value == Lits(ls);
  }

  /** A tuple or list of two or more rendered literals: each literal but the
      last comes out in backquotes (the head-literal branch), the last bare
      (the `str` branch reached once the rest is a singleton). */
  lemma {:induction false} DocOfLiteralRun(env: Env, v: PyVal, ls: seq<string>)
    requires IsSeq(v) && v.elems == Lits(ls) && |ls| >= 2
    ensures Doc(env, v) == Ok(Backticked(ls))
    decreases |ls|
  {
    var rest := PyList(v.elems[1..]);
    assert v.elems[1..] == Lits(ls[1..]);
    if |ls| == 2 {
      LastLiteral(env, rest, ls[1]);
    } else {
      DocOfLiteralRun(env, rest, ls[1..]);
    }
    LiteralHead(env, v, ls[0], Backticked(ls[1..]));
    assert Backticked(ls) == ["`" + ls[0] + "`"] + Backticked(ls[1..]);
  }

  /** The last literal of a run, left alone in its list, is shown bare. */
  lemma LastLiteral(env: Env, rest: PyVal, l: string)
    requires rest == PyList(Lits([l]))
    ensures Doc(env, rest) == Ok([l]) && Backticked([l]) == [l]
  {
    var last := PyTuple([PyStrType, PyStr(l)]);
    assert rest.elems == [last];
    assert Unwrap(rest) == Ok(last);
    assert last.elems[1..] == [PyStr(l)];
  }

  /** A list led by a literal is the literal in backquotes, then the rest. */
  lemma LiteralHead(env: Env, v: PyVal, l: string, more: seq<string>)
    requires IsSeq(v) && |v.elems| >= 2 && v.elems[0] == PyTuple([PyStrType, PyStr(l)])
    requires Doc(env, PyList(v.elems[1..])) == Ok(more)
    ensures Doc(env, v) == Ok(["`" + l + "`"] + more)
  {
    assert Dispatch(env, v) == TupleLed(env, v);
  }

  /** The rendering of a sequence of two or more literals is described by
      the literals, all but the last in backquotes. */
  lemma DocOfRenderedLiteralSequence(env: Env, ls: seq<string>)
    requires |ls| >= 2
    ensures Doc(env, Render(Sequence(StrNodes(ls))).value) == Ok(Backticked(ls))
  {
    RenderStrNodes(ls);
    var v := PyTuple(Lits(ls));
    assert Render(Sequence(StrNodes(ls))).value == v;
    DocOfLiteralRun(env, v, ls);
  }

  /** The rendering of a choice between two or more literals is one line
      listing them; a choice with a single literal alternative raises
      TypeError (the unwrapping reaches the literal pair, whose head `str`
      has no length). */
  lemma DocOfRenderedLiteralChoice(env: Env, ls: seq<string>)
    requires |ls| >= 1
    ensures Doc(env, Render(OrderedChoice(StrNodes(ls))).value) ==
      if |ls| == 1 then Err(TypeError) else Ok(["any one of the following: " + Join(", ", ls)])
  {
    RenderStrNodes(ls);
    var alts := PyTuple(Lits(ls));
    var v := PyTuple([PyStr("choice"), alts]);
    assert Render(OrderedChoice(StrNodes(ls))) == Ok(v);
    if |ls| == 1 {
      SingleLiteralChoice(env, ls[0], alts, v);
    } else {
      LiteralChoice(env, ls, alts, v);
    }
  }

  /** The tag "choice" is none of the tags tested before it. */
  lemma ChoiceTagIsNoOther()
    ensures PyStr("choice") !in {PyStr("sequence"), PyStr("0..*"), PyStr("1..*"), PyStr("0..1"), PyStr("or"),
                                 PyStr("regex"), PyStr("special regex")}
  {
    assert |"choice"| == 6;
  }

  lemma SingleLiteralChoice(env: Env, l: string, alts: PyVal, v: PyVal)
    requires alts == PyTuple(Lits([l])) && v == PyTuple([PyStr("choice"), alts])
    ensures Doc(env, v) == Err(TypeError)
  {
    assert v.elems[1..] == [alts];
    assert Unwrap(PyList([alts])) == Unwrap(alts);
    ItemsSmaller(v, 1);
    var lit := PyTuple([PyStrType, PyStr(l)]);
    assert alts.elems == [lit];
    assert Unwrap(alts) == Ok(lit);
    assert Items(lit).value == [PyStrType, PyStr(l)];
    assert Doc(env, PyStrType) == Err(TypeError);
    assert DocAll(env, [PyStrType, PyStr(l)], Size(v)) == Err(TypeError);
    assert Doc(env, v) == Dispatch(env, v);
    ChoiceTagIsNoOther();
  }

  lemma LiteralChoice(env: Env, ls: seq<string>, alts: PyVal, v: PyVal)
    requires |ls| >= 2 && alts == PyTuple(Lits(ls)) && v == PyTuple([PyStr("choice"), alts])
    ensures Doc(env, v) == Ok(["any one of the following: " + Join(", ", ls)])
  {
    assert v.elems[1..] == [alts];
    assert Unwrap(PyList([alts])) == Unwrap(alts);
    ItemsSmaller(v, 1);
    assert Unwrap(alts) == Ok(alts);
    AllItemsSmaller(alts);
    LiteralAlternatives(env, Lits(ls), ls, Size(v));
    assert Doc(env, v) == Dispatch(env, v);
    ChoiceTagIsNoOther();
  }

  lemma {:induction false} LiteralAlternatives(env: Env, ds: seq<PyVal>, ls: seq<string>, bound: nat)
    requires ds == Lits(ls)
    requires forall i :: 0 <= i < |ds| ==> Size(ds[i]) < bound
    ensures DocAll(env, ds, bound) == Ok(ls)
    decreases |ls|
  {
    if ls != [] {
      DocOfRenderedLiteral(env, ls[0]);
      assert ds[1..] == Lits(ls[1..]);
      LiteralAlternatives(env, ds[1..], ls[1..], bound);
      assert ls == [ls[0]] + ls[1..];
    }
  }
}
