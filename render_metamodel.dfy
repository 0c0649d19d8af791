/** textx_dsldoc/render_metamodel.py: the Markdown lines of a parsing
    sequence (`ParsingSequence.item_repr` and `as_markdown`) and the
    documentation sections built from textX classes (`DocSection` and its
    choice, selection and regex variants). */
module RenderMetamodel {
  import opened Common
  import opened PyValues
  import opened Peg
  import opened RenderUtils
  import opened TaggedTree
  import opened RenderArpeggio

  // ---------------------------------------------------------------------
  // ParsingSequence.item_repr

  /** `item_repr(item)`: the singleton wrappers are removed first. */
  function ItemReprOf(env: Env, item: PyVal): (r: Result<seq<string>>)
    ensures IsSeq(item) && |item.elems| == 0 ==> r == Ok([])
    ensures item.PyStr? && |item.s| >= 2 ==> r == Ok([item.s])
    ensures item.PyStr? && |item.s| == 1 ==> r == Err(Diverges)
    decreases Size(item), 3, 0
  {
    var w :- Unwrap(item);
    ReprUnwrapped(env, w)
  }

  /** The dispatch of `item_repr` once no singleton wrapper is left. */
  function ReprUnwrapped(env: Env, w: PyVal): (r: Result<seq<string>>)
    requires Len(w).Ok? && Len(w).value != 1
    ensures Len(w).value == 0 ==> r == Ok([])
    ensures w.PyStr? && |w.s| >= 2 ==> r == Ok([w.s])
    ensures (IsSeq(w) && |w.elems| == 3 && !Hashable(w.elems[0]) && w.elems[0] != PyStr("regex") &&
             w.elems[0] != PyStr("special regex")) ==> r == Err(TypeError)
    decreases Size(w), 2, 0
  {
    var n := Len(w).value;
    if n == 0 then Ok([])
    // the head of a string is a one-character string, which no branch
    // tests for: a string reaches the final branch and is yielded as it is
    else if w.PyStr? then Ok([w.s])
    else
      var es := w.elems;
      AllItemsSmaller(w);
      var head := es[0];
      if head == PyStr("regex") then
        if !es[1].PyStr? then Err(TypeError)
        else Ok(["anything matching regex " + RenderRegex(env, es[1].s, [])])
      else if head == PyStr("special regex") then
        var name :- UpperOf(es[1]);
        Ok(["anything matching standard regex " + name])
      else if n == 3 && !Hashable(head) then Err(TypeError)
      else if n == 3 && (head == PyStr("0..*") || head == PyStr("1..*")) then
        var sep :- ReadablePySep(es[2]);
        var low :- LowerOf(es[1]);
        var lead := if head == PyStr("0..*") then "zero or any number of [" else "at least one [";
        Ok([lead + es[1].s + "](#" + low + ") separated by " + sep])
      else if n == 2 && head == PyStr("0..1") then
        OptionalRepr(env, w)
      else if n == 2 && head == PyStrType then
        var t :- PyStrOf(es[1]);
        Ok(["the string `" + t + "`"])
      else if head == PyStr("choice") then
        if n != 2 then Err(AssertionError)
        else
          var alts :- Items(es[1]);
          AllItemsNotLarger(es[1]);
          ChoiceOf(env, alts, Size(w))
      else if w.PyTuple? then
        var lines :- ReprAll(env, w.elems, Size(w));
        Ok(["in this order:"] + lines)
      else Err(Unmodelled)
  }

  /** The `'0..1'` branch: `'optionally '` before the first line of the
      unwrapped sub-item, the later lines as they are. */
  function OptionalRepr(env: Env, w: PyVal): (r: Result<seq<string>>)
    requires IsSeq(w) && |w.elems| == 2
    decreases Size(w), 1, 0
  {
    ItemsSmaller(w, 1);
    var s :- Unwrap(w.elems[1]);
    var lines :- ItemReprOf(env, s);
    if lines == [] then Err(ValueError)
    else Ok(["optionally " + lines[0]] + lines[1..])
  }

  /** The lines of each item, one after the other. */
  function ReprAll(env: Env, ds: seq<PyVal>, bound: nat): (r: Result<seq<string>>)
    requires forall i :: 0 <= i < |ds| ==> Size(ds[i]) < bound
    decreases bound, 0, |ds|
  {
    if ds == [] then Ok([])
    else
      var head :- ItemReprOf(env, ds[0]);
      var tail :- ReprAll(env, ds[1..], bound);
      Ok(head + tail)
  }

  /** The lines of each alternative; each must have at least one
      (`first, *nexts = ...`). */
  function ReprParts(env: Env, ds: seq<PyVal>, bound: nat): (r: Result<seq<seq<string>>>)
    requires forall i :: 0 <= i < |ds| ==> Size(ds[i]) < bound
    ensures r.Ok? ==> |r.value| == |ds|
    ensures r.Ok? ==> forall i :: 0 <= i < |ds| ==> ItemReprOf(env, ds[i]) == Ok(r.value[i]) && r.value[i] != []
    ensures r.Ok? <==> forall i :: 0 <= i < |ds| ==> ItemReprOf(env, ds[i]).Ok? && ItemReprOf(env, ds[i]).value != []
    decreases bound, 0, |ds|
  {
    if ds == [] then Ok([])
    else
      var head := ItemReprOf(env, ds[0]);
      if head.Err? then Err(head.error)
      else if head.value == [] then Err(ValueError)
      else
        var tail := ReprParts(env, ds[1..], bound);
        assert forall i :: 1 <= i < |ds| ==> ds[i] == ds[1..][i - 1];
        if tail.Err? then Err(tail.error)
        else Ok([head.value] + tail.value)
  }

  /** Alternative `k` is the first whose lines cannot be unpacked, with
      error `e`: the choice branch ends with that error. */
  lemma {:induction false} ReprPartsFirstFailure(env: Env, ds: seq<PyVal>, bound: nat, k: nat, e: Error)
    requires forall i :: 0 <= i < |ds| ==> Size(ds[i]) < bound
    requires k < |ds|
    requires forall j :: 0 <= j < k ==> ItemReprOf(env, ds[j]).Ok? && ItemReprOf(env, ds[j]).value != []
    requires ItemReprOf(env, ds[k]).Err? ==> e == ItemReprOf(env, ds[k]).error
    requires ItemReprOf(env, ds[k]).Ok? ==> ItemReprOf(env, ds[k]).value == [] && e == ValueError
    ensures ReprParts(env, ds, bound) == Err(e)
    decreases k
  {
    if k > 0 {
      assert forall i :: 1 <= i < |ds| ==> ds[i] == ds[1..][i - 1];
      ReprPartsFirstFailure(env, ds[1..], bound, k - 1, e);
    }
  }

  /** The lines of the alternatives as the choice branch lists them: each
      first line as it is, each further line as a sub-item. */
  function ChoiceLines(parts: seq<seq<string>>): (r: seq<string>)
    requires forall i :: 0 <= i < |parts| ==> parts[i] != []
  {
    if parts == [] then []
    else [parts[0][0]] + Prefix("    - ", parts[0][1..]) + ChoiceLines(parts[1..])
  }

  /** Every alternative has exactly one line. */
  predicate AllSingle(parts: seq<seq<string>>) {
    forall i :: 0 <= i < |parts| ==> |parts[i]| == 1
  }

  /** The choice branch: a single `either a or b ...` line when there are
      fewer than four alternatives each shown on one line, otherwise
      `one of the following:` and the lines. */
  function ChoiceOf(env: Env, alts: seq<PyVal>, bound: nat): (r: Result<seq<string>>)
    requires forall i :: 0 <= i < |alts| ==> Size(alts[i]) < bound
    decreases bound, 1, 0
  {
    var parts :- ReprParts(env, alts, bound);
    var lines := ChoiceLines(parts);
    if |alts| < 4 && AllSingle(parts) then Ok(["either " + Join(" or ", lines)])
    else Ok(["one of the following:"] + lines)
  }

  lemma {:induction false} ChoiceLinesAppend(parts: seq<seq<string>>, p: seq<string>)
    requires forall i :: 0 <= i < |parts| ==> parts[i] != []
    requires p != []
    ensures ChoiceLines(parts + [p]) == ChoiceLines(parts) + [p[0]] + Prefix("    - ", p[1..])
    decreases |parts|
  {
    if parts == [] {
      assert [] + [p] == [p];
    } else {
      assert (parts + [p])[1..] == parts[1..] + [p];
      ChoiceLinesAppend(parts[1..], p);
    }
  }

  /** The lines of one more alternative, as the loop over the
      alternatives gathers them. */
  lemma PartsAppend(env: Env, alts: seq<PyVal>, parts: seq<seq<string>>, sub: seq<string>)
    requires |parts| < |alts| && ItemReprOf(env, alts[|parts|]) == Ok(sub) && sub != []
    requires forall j :: 0 <= j < |parts| ==> ItemReprOf(env, alts[j]) == Ok(parts[j]) && parts[j] != []
    ensures forall j :: 0 <= j < |parts| + 1 ==> ItemReprOf(env, alts[j]) == Ok((parts + [sub])[j]) && (parts + [sub])[j] != []
    ensures AllSingle(parts + [sub]) == (AllSingle(parts) && |sub| == 1)
    ensures ChoiceLines(parts + [sub]) == ChoiceLines(parts) + [sub[0]] + Prefix("    - ", sub[1..])
  {
    ChoiceLinesAppend(parts, sub);
    var ps := parts + [sub];
    assert ps[|parts|] == sub;
    assert forall j :: 0 <= j < |parts| ==> ps[j] == parts[j];
  }

  /** A choice entry goes to the choice branch. */
  lemma ChoiceBranch(env: Env, it: PyVal)
    requires IsSeq(it) && |it.elems| == 2 && it.elems[0] == PyStr("choice") && Items(it.elems[1]).Ok?
    ensures Size(it.elems[1]) < Size(it)
    ensures forall i :: 0 <= i < |Items(it.elems[1]).value| ==> Size(Items(it.elems[1]).value[i]) < Size(it)
    ensures ReprUnwrapped(env, it) == ChoiceOf(env, Items(it.elems[1]).value, Size(it))
  {
    ItemsSmaller(it, 1);
    AllItemsNotLarger(it.elems[1]);
  }

  /** `ParsingSequence.item_repr`, step by step: the unwrapping `while`
      loop, then the dispatch (the choice branch by ChoiceRepr). */
  method ItemRepr(env: Env, item: PyVal) returns (r: Result<seq<string>>)
    ensures r == ItemReprOf(env, item)
    decreases Size(item), 1
  {
    var it := item;
    while Len(it).Ok? && Len(it).value == 1
      invariant Unwrap(it) == Unwrap(item)
      invariant Size(it) <= Size(item)
      decreases Size(it)
    {
      if it.PyStr? {
        // `it, = it` gives a one-character string back: the loop never exits
        return Err(Diverges);
      }
      ItemsSmaller(it, 0);
      it := it.elems[0];
    }
    if Len(it).Err? {
      return Err(TypeError);
    }
    assert Unwrap(item) == Ok(it);
    if !(IsSeq(it) && |it.elems| == 2 && it.elems[0] == PyStr("choice")) {
      return ReprUnwrapped(env, it);
    }
    var alts := Items(it.elems[1]);
    if alts.Err? {
      return Err(alts.error);
    }
    ChoiceBranch(env, it);
    r := ChoiceRepr(env, alts.value, Size(it));
  }

  /** The choice branch of `item_repr`: the loop that collects the
      alternatives' lines and clears the `inline` flag at the first
      continuation line. */
  method ChoiceRepr(env: Env, alts: seq<PyVal>, bound: nat) returns (r: Result<seq<string>>)
    requires forall i :: 0 <= i < |alts| ==> Size(alts[i]) < bound
    ensures r == ChoiceOf(env, alts, bound)
    decreases bound, 0
  {
    var lines: seq<string> := [];
    var inline := |alts| < 4;
    ghost var parts: seq<seq<string>> := [];
    var i := 0;
    while i < |alts|
      invariant 0 <= i <= |alts| && |parts| == i
      invariant forall j :: 0 <= j < i ==> ItemReprOf(env, alts[j]) == Ok(parts[j]) && parts[j] != []
      invariant lines == ChoiceLines(parts)
      invariant inline == (|alts| < 4 && AllSingle(parts))
    {
      var sub := ItemRepr(env, alts[i]);
      if sub.Err? || sub.value == [] {
        var e := if sub.Err? then sub.error else ValueError;
        ReprPartsFirstFailure(env, alts, bound, i, e);
        return Err(e);
      }
      lines, inline := AppendAlternative(lines, inline, sub.value);
      PartsAppend(env, alts, parts, sub.value);
      parts := parts + [sub.value];
      i := i + 1;
    }
    ChoiceOfAllOk(env, alts, bound, parts);
    if inline {
      r := Ok(["either " + Join(" or ", lines)]);
    } else {
      r := Ok(["one of the following:"] + lines);
    }
  }

  /** One alternative's lines added to the choice: the first as it is, each
      further one as a sub-item, which rules out the single-line form. */
  method AppendAlternative(lines: seq<string>, inline: bool, sub: seq<string>)
      returns (lines': seq<string>, inline': bool)
    requires sub != []
    ensures lines' == lines + [sub[0]] + Prefix("    - ", sub[1..])
    ensures inline' == (inline && |sub| == 1)
  {
    var nexts := sub[1..];
    lines' := lines + [sub[0]];
    inline' := inline;
    var k := 0;
    while k < |nexts|
      invariant 0 <= k <= |nexts|
      invariant lines' == lines + [sub[0]] + Prefix("    - ", nexts[..k])
      invariant inline' == (inline && k == 0)
    {
      assert Prefix("    - ", nexts[..k + 1]) == Prefix("    - ", nexts[..k]) + ["    - " + nexts[k]];
      lines' := lines' + ["    - " + nexts[k]];
      inline' := false;
      k := k + 1;
    }
    assert nexts[..k] == nexts;
  }

  /** When every alternative has lines, the choice branch is given by them. */
  lemma ChoiceOfAllOk(env: Env, alts: seq<PyVal>, bound: nat, parts: seq<seq<string>>)
    requires forall i :: 0 <= i < |alts| ==> Size(alts[i]) < bound
    requires |parts| == |alts|
    requires forall j :: 0 <= j < |alts| ==> ItemReprOf(env, alts[j]) == Ok(parts[j]) && parts[j] != []
    ensures ChoiceOf(env, alts, bound) ==
      if |alts| < 4 && AllSingle(parts) then Ok(["either " + Join(" or ", ChoiceLines(parts))])
      else Ok(["one of the following:"] + ChoiceLines(parts))
  {
    var rp := ReprParts(env, alts, bound);
    assert rp.Ok? && |rp.value| == |parts|;
    assert forall j :: 0 <= j < |parts| ==> rp.value[j] == parts[j];
    assert rp.value == parts;
  }

  // ---------------------------------------------------------------------
  // Properties of item_repr

  /** Singleton wrappers are transparent, and an empty item has no line. */
  lemma ItemReprUnwraps(env: Env, x: PyVal)
    ensures ItemReprOf(env, PyTuple([x])) == ItemReprOf(env, x)
    ensures ItemReprOf(env, PyTuple([])) == Ok([])
    ensures ItemReprOf(env, PyStr("")) == Ok([])
  {
  }

  /** A `0..*` / `1..*` entry over a named class gives the same line as in
      `str_sequence_doc`: the class linked by its lower-cased anchor, the
      separator read through CHARS_AS_READABLE. */
  lemma ItemReprRepetitionLine(env: Env, tag: string, name: string, sep: Option<string>)
    requires tag == "0..*" || tag == "1..*"
    ensures ItemReprOf(env, PyTuple([PyStr(tag), PyStr(name), SepVal(sep)])) ==
      Ok([(if tag == "0..*" then "zero or any number of [" else "at least one [")
          + name + "](#" + Lower(name) + ") separated by " + ReadableSep(sep)])
  {
    var v := PyTuple([PyStr(tag), PyStr(name), SepVal(sep)]);
    assert Hashable(v.elems[0]);
  }

  /** An optional entry prefixes `optionally ` to the first line of its
      (unwrapped) content only; an optional over nothing raises ValueError. */
  lemma OptionalPrefixesFirstLine(env: Env, sub: PyVal)
    requires Unwrap(sub).Ok? && ItemReprOf(env, Unwrap(sub).value).Ok?
    ensures var lines := ItemReprOf(env, Unwrap(sub).value).value;
      ItemReprOf(env, PyTuple([PyStr("0..1"), sub])) ==
        if lines == [] then Err(ValueError) else Ok(["optionally " + lines[0]] + lines[1..])
  {
    var v := PyTuple([PyStr("0..1"), sub]);
    assert v.elems[1] == sub;
    assert ReprUnwrapped(env, v) == OptionalRepr(env, v);
  }

  lemma {:induction false} ChoiceLinesLength(parts: seq<seq<string>>)
    requires forall i :: 0 <= i < |parts| ==> parts[i] != []
    ensures |ChoiceLines(parts)| >= |parts|
    ensures AllSingle(parts) ==> |ChoiceLines(parts)| == |parts|
    ensures AllSingle(parts) ==> forall i :: 0 <= i < |parts| ==> ChoiceLines(parts)[i] == parts[i][0]
    decreases |parts|
  {
    if parts != [] {
      ChoiceLinesLength(parts[1..]);
      if AllSingle(parts) {
        assert AllSingle(parts[1..]) by {
          forall i | 0 <= i < |parts| - 1 ensures |parts[1..][i]| == 1 {
            assert parts[1..][i] == parts[i + 1];
          }
        }
        assert |parts[0]| == 1 && parts[0][1..] == [];
        forall i | 1 <= i < |parts| ensures ChoiceLines(parts)[i] == parts[i][0] {
          assert ChoiceLines(parts)[i] == ChoiceLines(parts[1..])[i - 1];
          assert parts[1..][i - 1] == parts[i];
        }
      }
    }
  }

  /** A choice is described on a single line exactly when it has fewer than
      four alternatives and each of them is described on one line; that line
      is `either` followed by their lines joined by `or`.  Otherwise the
      first line is `one of the following:`. */
  lemma ChoiceInlineIff(env: Env, alts: seq<PyVal>, bound: nat)
    requires forall i :: 0 <= i < |alts| ==> Size(alts[i]) < bound
    requires ChoiceOf(env, alts, bound).Ok?
    ensures var r := ChoiceOf(env, alts, bound).value;
      (|r| == 1 <==> |alts| < 4 && forall i :: 0 <= i < |alts| ==> |ItemReprOf(env, alts[i]).value| == 1)
    ensures var r := ChoiceOf(env, alts, bound).value;
      |r| == 1 ==> exists firsts: seq<string> ::
        |firsts| == |alts| && r[0] == "either " + Join(" or ", firsts)
        && forall i :: 0 <= i < |alts| ==> ItemReprOf(env, alts[i]).value == [firsts[i]]
    ensures var r := ChoiceOf(env, alts, bound).value;
      |r| != 1 ==> r[0] == "one of the following:"
  {
    var parts := ReprParts(env, alts, bound).value;
    ChoiceLinesLength(parts);
    var lines := ChoiceLines(parts);
    if |alts| < 4 && AllSingle(parts) {
      assert lines == seq(|parts|, i requires 0 <= i < |parts| => parts[i][0]);
      forall i | 0 <= i < |alts| ensures ItemReprOf(env, alts[i]).value == [lines[i]] {
        assert |parts[i]| == 1;
      }
    }
  }

  // ---------------------------------------------------------------------
  // ParsingSequence

  /** A parsing sequence: the tagged tree of a peg rule and its token strings. */
  datatype ParsingSequence = ParsingSequence(sequence: PyVal, sequenceRepr: seq<string>)

  /** `ParsingSequence(peg_rule)`: the tagged tree is built first, so an
      unknown node kind fails with its AssertionError; otherwise the token
      renderer's ValueError surfaces. */
  function ParsingSequenceOf(env: Env, rule: Node): (r: Result<ParsingSequence>)
    ensures r.Ok? ==> Decode(r.value.sequence) == Erase(rule)
    ensures r.Ok? ==> |r.value.sequenceRepr| == |Nodes(rule)|
    ensures KnownKinds(rule) ==> r.Ok?
    ensures r.Err? ==> r.error == (if Render(rule).Err? then AssertionError else ValueError)
  {
    RenderableIffOk(rule);
    assert Render(rule).Ok? ==> Decode(Render(rule).value) == Erase(rule) by {
      if Renderable(rule) {
        DecodeRender(rule);
      }
    }
    assert KnownKinds(rule) ==> Render(rule).Ok? && RenderAsStr(env, rule).Ok? by {
      if KnownKinds(rule) {
        KnownKindsRenderable(rule);
        KnownKindsRenderAsStr(env, rule);
      }
    }
    var sequence :- Render(rule);
    var repr :- RenderAsStr(env, rule);
    Ok(ParsingSequence(sequence, repr))
  }

  predicate StartsWith(s: string, p: string) {
    |p| <= |s| && s[..|p|] == p
  }

  /** The head given to a continuation line of an item. */
  function SubLines(ls: seq<string>): (r: seq<string>)
    ensures |r| == |ls|
    ensures forall i :: 0 <= i < |ls| ==>
      r[i] == (if StartsWith(ls[i], " ") then "    " else "    - ") + ls[i]
    ensures forall i :: 0 <= i < |ls| ==> StartsWith(r[i], "    ")
  {
    var r := seq(|ls|, i requires 0 <= i < |ls| => (if StartsWith(ls[i], " ") then "    " else "    - ") + ls[i]);
    assert forall i :: 0 <= i < |ls| ==> r[i][..4] == "    ";
    r
  }

  /** A line `as_markdown` yields for an item. */
  predicate IsItemLine(l: string) {
    StartsWith(l, "- Type ") || StartsWith(l, "    ")
  }

  /** The lines `as_markdown` yields for one item of the sequence: the
      unpacking `type_line, *sublines` fails on an item with no line. */
  function ItemLines(env: Env, item: PyVal): (r: Result<seq<string>>)
    ensures r.Ok? <==> ItemReprOf(env, item).Ok? && ItemReprOf(env, item).value != []
    ensures r.Ok? ==> forall i :: 0 <= i < |r.value| ==> IsItemLine(r.value[i])
    ensures r.Ok? ==>
      var lines := ItemReprOf(env, item).value;
      var t := if lines[0] != "" then 1 else 0;
      |r.value| == |lines| - 1 + t &&
      (lines[0] != "" ==> r.value[0] == "- Type " + lines[0]) &&
      r.value[t..] == SubLines(lines[1..])
  {
    var lines :- ItemReprOf(env, item);
    if lines == [] then Err(ValueError)
    else
      var head := if lines[0] != "" then ["- Type " + lines[0]] else [];
      var subs := SubLines(lines[1..]);
      assert (head + subs)[|head|..] == subs;
      assert forall i :: 0 <= i < |head| ==> StartsWith(head[i], "- Type ");
      Ok(head + subs)
  }

  /** An item gets a `- Type ` line exactly when its first line is not
      empty; every later line is a continuation line. */
  lemma ItemTypeLine(env: Env, item: PyVal)
    requires ItemLines(env, item).Ok?
    ensures var first := ItemReprOf(env, item).value[0];
      var r := ItemLines(env, item).value;
      (first != "" <==> |r| > 0 && StartsWith(r[0], "- Type "))
  {
    var lines := ItemReprOf(env, item).value;
    var r := ItemLines(env, item).value;
    if lines[0] == "" && |r| > 0 {
      assert r[0] == SubLines(lines[1..])[0];
      assert StartsWith(r[0], "    ");
      assert r[0][0] == ' ';
      assert "- Type "[0] == '-';
    }
  }

  /** The item lines of all the items, in order. */
  function ItemsLines(env: Env, items: seq<PyVal>): (r: Result<seq<string>>)
    ensures r.Ok? <==> forall i :: 0 <= i < |items| ==> ItemLines(env, items[i]).Ok?
    ensures r.Ok? ==> forall i :: 0 <= i < |r.value| ==> IsItemLine(r.value[i])
    decreases |items|
  {
    if items == [] then Ok([])
    else
      var first :- ItemLines(env, items[0]);
      var rest := ItemsLines(env, items[1..]);
      assert forall i :: 1 <= i < |items| ==> items[1..][i - 1] == items[i];
      var others :- rest;
      Ok(first + others)
  }

  /** `ParsingSequence.as_markdown`: a blank line, the token strings joined
      by spaces (converted to HTML) in an indented paragraph, a blank line,
      then the item lines. */
  function SequenceMarkdown(env: Env, ps: ParsingSequence): (r: Result<seq<string>>)
    ensures r.Ok? <==> Items(ps.sequence).Ok? && ItemsLines(env, Items(ps.sequence).value).Ok?
    ensures r.Ok? ==>
      |r.value| >= 3 && r.value[0] == "" && r.value[2] == "" &&
      r.value[1] == "<p style=\"margin-left: 40px\"><tt>" + env.markdown(Join(" ", ps.sequenceRepr)) + "</tt></p>"
    ensures r.Ok? ==> forall i :: 3 <= i < |r.value| ==> IsItemLine(r.value[i])
  {
    var items :- Items(ps.sequence);
    var lines :- ItemsLines(env, items);
    Ok(["", "<p style=\"margin-left: 40px\"><tt>" + env.markdown(Join(" ", ps.sequenceRepr)) + "</tt></p>", ""] + lines)
  }

  // ---------------------------------------------------------------------
  // DocSection and its subclasses

  /** What the subclasses of DocSection add: DocChoiceSection the classes
      (by name) the rule is a choice of, DocSelectionSection a multiplicity
      and its target class, DocRegexSection the rule's regex. */
  datatype SectionKind =
    | Plain
    | Choice(choices: seq<string>)
    | Selection(selection: string, target: string)
    | RegexRule(regex: string)

  datatype DocSection = DocSection(name: string, namesInParents: set<string>, rawDoc: string,
                                   sequence: Option<ParsingSequence>, kind: SectionKind)

  /** `DocSection.__init__` (which the subclasses' constructors end with):
      a missing docstring becomes the empty one, and a peg rule becomes a
      parsing sequence. */
  function NewSection(env: Env, name: string, namesInParents: set<string>, rawDoc: Option<string>,
                      rule: Option<Node>, kind: SectionKind): (r: Result<DocSection>)
    ensures r.Ok? <==> rule.None? || ParsingSequenceOf(env, rule.value).Ok?
    ensures r.Ok? ==>
      r.value.name == name && r.value.namesInParents == namesInParents && r.value.kind == kind &&
      r.value.rawDoc == (if rawDoc.Some? then rawDoc.value else "") &&
      (r.value.sequence.Some? <==> rule.Some?)
    ensures r.Ok? && rule.Some? ==> Decode(r.value.sequence.value.sequence) == Erase(rule.value)
  {
    var sequence :- if rule.Some? then
        var ps :- ParsingSequenceOf(env, rule.value);
        Ok(Some(ps))
      else Ok(None);
    Ok(DocSection(name, namesInParents, if rawDoc.Some? then rawDoc.value else "", sequence, kind))
  }

  /** The first line of a section, and its docstring when there is one. */
  function Heading(d: DocSection): (r: seq<string>)
    ensures |r| == (if d.rawDoc != "" then 2 else 1)
    ensures r[0] == "# " + d.name
    ensures d.rawDoc != "" ==> r[1] == d.rawDoc
  {
    ["# " + d.name] + (if d.rawDoc != "" then [d.rawDoc] else [])
  }

  /** `DocSection.as_markdown`: the heading, then a blank line and the
      parsing sequence's lines when there is a sequence. */
  function BaseMarkdown(env: Env, d: DocSection): (r: Result<seq<string>>)
    ensures r.Ok? <==> d.sequence.None? || SequenceMarkdown(env, d.sequence.value).Ok?
    ensures r.Ok? ==> var h := Heading(d);
      |r.value| >= |h| && r.value[..|h|] == h &&
      r.value[|h|..] == if d.sequence.None? then [] else [""] + SequenceMarkdown(env, d.sequence.value).value
  {
    var rest :- if d.sequence.None? then Ok([])
      else
        var lines :- SequenceMarkdown(env, d.sequence.value);
        Ok([""] + lines);
    assert (Heading(d) + rest)[..|Heading(d)|] == Heading(d);
    Ok(Heading(d) + rest)
  }

  /** The bullet list of a choice section. */
  function ChoiceBullets(env: Env, choices: seq<string>): (r: seq<string>)
    ensures |r| == |choices|
    ensures forall i :: 0 <= i < |choices| ==> r[i] == "- " + env.classStr(choices[i])
  {
    Prefix("- ", seq(|choices|, i requires 0 <= i < |choices| => env.classStr(choices[i])))
  }

  /** The sentence of a selection section; none for an unknown multiplicity. */
  function SelectionLine(env: Env, selection: string, target: string): (r: seq<string>)
    ensures selection == "0..1" ==> r == ["Optionally, type a " + env.classStr(target)]
    ensures selection == "1..*" ==> r == ["Type at least one " + env.classStr(target)]
    ensures selection == "0..*" ==> r == ["Type zero or any number of " + env.classStr(target)]
    ensures selection != "0..1" && selection != "1..*" && selection != "0..*" ==> r == []
  {
    if selection == "0..1" then ["Optionally, type a " + env.classStr(target)]
    else if selection == "1..*" then ["Type at least one " + env.classStr(target)]
    else if selection == "0..*" then ["Type zero or any number of " + env.classStr(target)]
    else []
  }

  /** The lines a regex section adds: a sentence linking the regex, a blank
      line, up to four examples, a blank line. */
  function RegexLines(env: Env, name: string, regex: string): (r: seq<string>)
    ensures var examples := env.matchExamples(regex, 4);
      |r| == 3 + |examples| &&
      StartsWith(r[0], Title(name) + " is a *regex rule*, detecting anything matched by [`/" + regex + "/`](") &&
      r[1] == "" && r[|r| - 1] == "" &&
      forall i :: 0 <= i < |examples| ==> r[2 + i] == "- <pre>" + examples[i] + "</pre>"
  {
    var examples := env.matchExamples(regex, 4);
    var bullets := ExampleBullets(examples);
    [RegexSentence(env, name, regex), ""] + bullets + [""]
  }

  /** The first line of a regex section: the title-cased name and a link to
      the regex. */
  function RegexSentence(env: Env, name: string, regex: string): (r: string)
    ensures StartsWith(r, Title(name) + " is a *regex rule*, detecting anything matched by [`/" + regex + "/`](")
  {
    var pre := Title(name) + " is a *regex rule*, detecting anything matched by ";
    var rr := RenderRegex(env, regex, env.matchExamples(regex, 0));
    StartsWithInside(pre, rr, "[`/" + regex + "/`](", ", such as:");
    pre + rr + ", such as:"
  }

  lemma StartsWithInside(pre: string, s: string, p: string, post: string)
    requires |p| <= |s| && s[..|p|] == p
    ensures StartsWith(pre + s + post, pre + p)
  {
    assert (pre + s + post)[..|pre + p|] == pre + s[..|p|];
  }

  /** One `<pre>` bullet per example. */
  function ExampleBullets(examples: seq<string>): (r: seq<string>)
    ensures |r| == |examples|
    ensures forall i :: 0 <= i < |examples| ==> r[i] == "- <pre>" + examples[i] + "</pre>"
  {
    Prefix("- <pre>", seq(|examples|, i requires 0 <= i < |examples| => examples[i] + "</pre>"))
  }

  /** The lines a subclass's `as_markdown` yields after the superclass's:
      none for DocSection itself, a blank line and one bullet per choice,
      a blank line and the selection sentence (nothing more for an unknown
      multiplicity), or the regex paragraph. */
  function KindLines(env: Env, d: DocSection): (r: seq<string>)
    ensures d.kind.Plain? ==> r == []
    ensures d.kind.Choice? ==>
      |r| == 1 + |d.kind.choices| && r[0] == "" &&
      forall i :: 0 <= i < |d.kind.choices| ==> r[1 + i] == "- " + env.classStr(d.kind.choices[i])
    ensures d.kind.Selection? ==>
      var (sel, t) := (d.kind.selection, d.kind.target);
      |r| >= 1 && r[0] == "" &&
      (sel == "0..1" ==> r[1..] == ["Optionally, type a " + env.classStr(t)]) &&
      (sel == "1..*" ==> r[1..] == ["Type at least one " + env.classStr(t)]) &&
      (sel == "0..*" ==> r[1..] == ["Type zero or any number of " + env.classStr(t)]) &&
      (sel != "0..1" && sel != "1..*" && sel != "0..*" ==> |r| == 1)
    ensures d.kind.RegexRule? ==>
      var examples := env.matchExamples(d.kind.regex, 4);
      |r| == 3 + |examples| &&
      StartsWith(r[0], Title(d.name) + " is a *regex rule*, detecting anything matched by [`/" + d.kind.regex + "/`](") &&
      r[1] == "" && r[|r| - 1] == "" &&
      forall i :: 0 <= i < |examples| ==> r[2 + i] == "- <pre>" + examples[i] + "</pre>"
  {
    match d.kind
    case Plain => []
    case Choice(cs) => ChoiceLinesShape(env, cs); [""] + ChoiceBullets(env, cs)
    case Selection(sel, t) => SelectionLinesShape(env, sel, t); [""] + SelectionLine(env, sel, t)
    case RegexRule(regex) => RegexLines(env, d.name, regex)
  }

  lemma ChoiceLinesShape(env: Env, cs: seq<string>)
    ensures var r := [""] + ChoiceBullets(env, cs);
      |r| == 1 + |cs| && r[0] == "" &&
      forall i :: 0 <= i < |cs| ==> r[1 + i] == "- " + env.classStr(cs[i])
  {
    var r := [""] + ChoiceBullets(env, cs);
    forall i | 0 <= i < |cs| ensures r[1 + i] == "- " + env.classStr(cs[i]) {
      assert r[1 + i] == ChoiceBullets(env, cs)[i];
    }
  }

  lemma SelectionLinesShape(env: Env, sel: string, t: string)
    ensures var r := [""] + SelectionLine(env, sel, t);
      |r| >= 1 && r[0] == "" && r[1..] == SelectionLine(env, sel, t)
  {
    var r := [""] + SelectionLine(env, sel, t);
    assert r[1..] == SelectionLine(env, sel, t);
  }

  /** `as_markdown` of a section of any kind: each subclass yields the
      lines of `DocSection.as_markdown` first, then its own. */
  function SectionMarkdown(env: Env, d: DocSection): (r: Result<seq<string>>)
    ensures r.Ok? <==> BaseMarkdown(env, d).Ok?
    ensures r.Ok? ==>
      var b := BaseMarkdown(env, d).value;
      |r.value| >= |b| && r.value[..|b|] == b && r.value[|b|..] == KindLines(env, d)
  {
    var b :- BaseMarkdown(env, d);
    var own := KindLines(env, d);
    assert (b + own)[..|b|] == b;
    assert (b + own)[|b|..] == own;
    Ok(b + own)
  }

  // ---------------------------------------------------------------------
  // DocSection.from_textx_class

  /** What `from_textx_class` returns: None, the bare name of a base type,
      or a section. */
  datatype Classified = NoSection | BaseTypeName(typeName: string) | Section(section: DocSection)

  /** `DocSection.from_textx_class(e)`.  An attribute object has no
      `__name__` and fails the assertion; a class without `_tx_attrs` gives
      None.  A rule that is a single non-empty regex gives a regex section;
      a base type gives its name.  A raw choice (no attribute, some
      subclasses) passes the keyword `choice` to a constructor that expects
      `choices`, a TypeError.  Any other rule gives a plain section over its
      peg rule. */
  function FromTextxClass(env: Env, e: Entity): (r: Result<Classified>)
    ensures e.MetaAttr? ==> r == Err(AssertionError)
    ensures e.MetaClass? && e.attrs.None? ==> r == Ok(NoSection)
    ensures r.Ok? && r.value.BaseTypeName? ==> r.value.typeName == e.name && IsSpecialName(e.name)
    ensures e.MetaClass? && e.attrs.Some? && IsSpecialName(e.name) && !(AsRegexOf(e).Some? && AsRegexOf(e).value != "") ==>
      r == Ok(BaseTypeName(e.name))
    ensures AsRegexOf(e).Some? && AsRegexOf(e).value != "" ==>
      r.Ok? && r.value.Section? && r.value.section.kind == RegexRule(AsRegexOf(e).value) &&
      r.value.section.sequence.None?
    ensures r.Ok? && r.value.Section? ==>
      var d := r.value.section;
      d.name == e.name && d.namesInParents == {} &&
      d.rawDoc == (if DocFromClass(e.doc).Some? then e.doc.value else "") &&
      (d.kind.RegexRule? || (d.kind.Plain? && e.pegRule.Some? && d.sequence.Some? &&
                             Decode(d.sequence.value.sequence) == Erase(e.pegRule.value)))
    ensures e.MetaClass? && e.attrs == Some([]) && e.inhBy != [] && !IsSpecialName(e.name) ==> r == Err(TypeError)
  {
    match e
    case MetaAttr(_, _) => Err(AssertionError)
    case MetaClass(name, attrs, pegRule, inhBy, doc) =>
      var rawDoc := DocFromClass(doc);
      if attrs.None? then Ok(NoSection)
      else
        var regex := AsRegexOf(e);
        if regex.Some? && regex.value != "" then
          Ok(Section(NewSection(env, name, {}, rawDoc, None, RegexRule(regex.value)).value))
        else if IsSpecialName(name) then Ok(BaseTypeName(name))
        else if attrs.value == [] && inhBy != [] then Err(TypeError)
        else if pegRule.None? then Err(AttributeError)
        else
          var d :- NewSection(env, name, {}, rawDoc, pegRule, Plain);
          Ok(Section(d))
  }

  /** The class textX builds for a one-attribute regex rule gives a regex
      section whose Markdown is its heading, its docstring when it has one,
      and the regex paragraph. */
  lemma RegexRuleSection(env: Env, name: string, attr: Attr, p: string, doc: Option<string>)
    requires p != ""
    ensures var e := MetaClass(name, Some([attr]), Some(Sequence([Sequence([Sequence([RegExMatch(p)])])])), [], doc);
      var r := FromTextxClass(env, e);
      r.Ok? && r.value.Section? && r.value.section.kind == RegexRule(p) &&
      var d := r.value.section;
      SectionMarkdown(env, d).Ok? &&
      SectionMarkdown(env, d).value == Heading(d) + KindLines(env, d)
  {
    var e := MetaClass(name, Some([attr]), Some(Sequence([Sequence([Sequence([RegExMatch(p)])])])), [], doc);
    AsRegexOfTextxRegexRule(name, attr, p, doc);
    var r := FromTextxClass(env, e);
    assert r.Ok? && r.value.Section? && r.value.section.sequence.None?;
    NoSequenceMarkdown(env, r.value.section);
  }

  /** A section without a rule sequence is its heading and its own lines. */
  lemma NoSequenceMarkdown(env: Env, d: DocSection)
    requires d.sequence.None?
    ensures SectionMarkdown(env, d).Ok? && SectionMarkdown(env, d).value == Heading(d) + KindLines(env, d)
  {
    var m := SectionMarkdown(env, d).value;
    var b := BaseMarkdown(env, d).value;
    assert b == Heading(d);
    assert m == m[..|b|] + m[|b|..];
  }
}
