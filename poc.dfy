/** The proof-of-concept script (poc.py): its own `doc_from_class`, a
    `render_arpeggio_sequence` that renders a parsing-expression tree as one
    line of text, and an earlier `search_for_structure_info` whose entries
    hold that text.  Its `as_regex` is the packaged one, `RenderUtils.AsRegex`. */
module Poc {
  import opened Common
  import opened Peg
  import opened RenderUtils
  import opened TaggedTree
  import opened StructureInfo

  // ---------------------------------------------------------------------
  // doc_from_class

  /** poc.py's `doc_from_class`: only the marker line drops a docstring;
      textX's default docstring is kept. */
  function PocDocFromClass(doc: Option<string>): (r: Option<string>)
    ensures r.None? <==> doc.None? || HasMarkerLine(doc.value)
    ensures r.Some? ==> r == doc
  {
    if doc.None? || HasMarkerLine(doc.value) then None else doc
  }

  /** The packaged version filters more: it keeps a docstring only when the
      poc's keeps it, and keeps every one the poc keeps but textX's default. */
  lemma PackagedDocFilterRefinesPoc(doc: Option<string>)
    ensures DocFromClass(doc).Some? ==> PocDocFromClass(doc) == DocFromClass(doc)
    ensures PocDocFromClass(doc).Some? && !Contains(doc.value, DefaultTextxDoc) ==>
      DocFromClass(doc) == PocDocFromClass(doc)
  {
  }

  /** A marker line drops the docstring here too. */
  lemma PocMarkerLineDropsDoc(pre: string, post: string)
    requires pre == [] || pre[|pre| - 1] != '\r'
    ensures PocDocFromClass(Some(pre + "\n" + NotDocumentedMarker + "\n" + post)) == None
  {
    var doc := pre + "\n" + NotDocumentedMarker + "\n" + post;
    MarkerLineIsALine(pre, post);
    MarkerIsStripped();
    var lines := SplitLines(doc);
    var i :| 0 <= i < |lines| && lines[i] == NotDocumentedMarker;
    assert Strip(lines[i]) == NotDocumentedMarker;
  }

  // ---------------------------------------------------------------------
  // render_arpeggio_sequence, string version

  /** The local SPECIAL_REGEXES of the string renderer, keyed by pattern. */
  const PocSpecialRegexes: map<string, string> := map[
    @"[-+]?[0-9]+\b" := "INT",
    @"[^\d\W]\w*\b" := "ID",
    @"(True|true|False|false|0|1)\b" := "BOOL",
    @"(""(\\""|[^""])*"")|(\'(\\\'|[^\'])*\')" := "STRING",
    @"[+-]?(\d+(\.\d*)?|\.\d+)([eE][+-]?\d+)?(?<=[\w\.])(?![\w\.])" := "FLOAT"
  ]

  /** It is the packaged SPECIAL_REGEXES_REV: the same five patterns, each
      naming the same base type. */
  lemma PocTableIsRev()
    ensures PocSpecialRegexes == SpecialRegexesRev
  {
    PocListsThePatterns();
    PocNamesThePatterns();
    assert PocSpecialRegexes.Keys == SpecialRegexesRev.Keys;
  }

  /** Its keys are the patterns of SPECIAL_REGEXES. */
  lemma PocListsThePatterns()
    ensures forall p :: p in PocSpecialRegexes ==> exists i :: 0 <= i < |SpecialRegexes| && SpecialRegexes[i].1 == p
    ensures forall i :: 0 <= i < |SpecialRegexes| ==> SpecialRegexes[i].1 in PocSpecialRegexes
  {
    forall p | p in PocSpecialRegexes
      ensures exists i :: 0 <= i < |SpecialRegexes| && SpecialRegexes[i].1 == p
    {
      assert p == SpecialRegexes[0].1 || p == SpecialRegexes[1].1 || p == SpecialRegexes[2].1 ||
             p == SpecialRegexes[3].1 || p == SpecialRegexes[4].1;
    }
  }

  /** Each pattern names the base type SPECIAL_REGEXES pairs it with. */
  lemma PocNamesThePatterns()
    ensures forall i :: 0 <= i < |SpecialRegexes| ==>
      SpecialRegexes[i].1 in PocSpecialRegexes && PocSpecialRegexes[SpecialRegexes[i].1] == SpecialRegexesRev[SpecialRegexes[i].1]
  {
    forall i | 0 <= i < |SpecialRegexes|
      ensures SpecialRegexes[i].1 in PocSpecialRegexes && PocSpecialRegexes[SpecialRegexes[i].1] == SpecialRegexesRev[SpecialRegexes[i].1]
    {
      SpecialRegexesRevInverts(i);
      PocNamesThePattern(i);
    }
  }

  lemma PocNamesThePattern(i: nat)
    requires i < |SpecialRegexes|
    ensures SpecialRegexes[i].1 in PocSpecialRegexes && PocSpecialRegexes[SpecialRegexes[i].1] == SpecialRegexes[i].0
  {
    var p := SpecialRegexes[i].1;
    var ps := [SpecialRegexes[0].1, SpecialRegexes[1].1, SpecialRegexes[2].1, SpecialRegexes[3].1, SpecialRegexes[4].1];
    assert |ps[0]| == 12 && |ps[1]| == 13 && |ps[2]| == 29 && |ps[3]| == 60 && |ps[4]| == 35;
  }

  /** `seq.sep or ""`. */
  function SepText(sep: Option<string>): (r: string)
    ensures SepIsSet(sep) ==> r == sep.value
    ensures !SepIsSet(sep) ==> r == ""
  {
    if SepIsSet(sep) then sep.value else ""
  }

  /** How a repetition shows its element `c` with separator text `s`. */
  function RepetitionText(k: RepeatKind, c: string, s: string): (r: string)
    ensures k.OptionalKind? ==> r == "[" + c + "]"
    ensures k.ZeroOrMoreKind? ==> r == "[" + c + "_1" + s + " …" + s + " " + c + "_n]"
    ensures k.OneOrMoreKind? ==> r == c + "_1[" + s + " …" + s + " " + c + "_n]"
  {
    match k
    case ZeroOrMoreKind => "[" + c + "_1" + s + " …" + s + " " + c + "_n]"
    case OneOrMoreKind => c + "_1[" + s + " …" + s + " " + c + "_n]"
    case OptionalKind => "[" + c + "]"
  }

  /** `render_arpeggio_sequence` of poc.py.  It fails (on its final
      assertion) exactly where the packaged renderer fails: at a node of
      unknown kind that is rendered. */
  function PocRender(n: Node): (r: Result<string>)
    ensures r.Ok? <==> Renderable(n)
    ensures r.Err? ==> r.error == AssertionError
    ensures n.StrMatch? ==> r == Ok(n.lit)
    ensures n.RegExMatch? && n.pattern in PocSpecialRegexes ==> r == Ok(PocSpecialRegexes[n.pattern])
    ensures n.RegExMatch? && n.pattern !in PocSpecialRegexes ==> r == Ok("/" + n.pattern + "/")
    decreases n
  {
    match n
    case StrMatch(lit) => Ok(lit)
    case OrderedChoice(ns) =>
      var cs :- PocRenderAll(ns);
      Ok("(" + Join(") OR (", cs) + ")")
    case Repetition(k, c, cls, sep, _) =>
      var child :- if cls.Some? then Ok(cls.value) else PocRender(c);
      Ok(RepetitionText(k, child, SepText(sep)))
    case RegExMatch(p) =>
      if p in PocSpecialRegexes then Ok(PocSpecialRegexes[p]) else Ok("/" + p + "/")
    case Sequence(ns) =>
      var cs :- PocRenderAll(ns);
      Ok(Join(" ", cs))
    case Other(_, _) => Err(AssertionError)
  }

  /** `map(render_arpeggio_sequence, nodes)`, one text per node. */
  function PocRenderAll(ns: seq<Node>): (r: Result<seq<string>>)
    ensures r.Ok? <==> forall i :: 0 <= i < |ns| ==> Renderable(ns[i])
    ensures r.Ok? ==> |r.value| == |ns| && forall i :: 0 <= i < |ns| ==> PocRender(ns[i]) == Ok(r.value[i])
    ensures r.Err? ==> r.error == AssertionError
    decreases ns
  {
    if ns == [] then Ok([])
    else
      var head :- PocRender(ns[0]);
      var tail :- PocRenderAll(ns[1..]);
      assert forall i :: 1 <= i < |ns| ==> ns[i] == ns[1..][i - 1];
      Ok([head] + tail)
  }

  /** Both renderers fail on the same trees. */
  lemma PocRenderFailsWithRender(n: Node)
    ensures PocRender(n).Ok? <==> Render(n).Ok?
  {
    RenderableIffOk(n);
  }

  /** The string renderer names a base type exactly where the packaged
      renderer tags it as a special regex, and both give the same name (the
      packaged one in lower case). */
  lemma PocSpecialAgrees(p: string)
    ensures p in PocSpecialRegexes <==> Render(RegExMatch(p)).value.elems[0] == PyValues.PyStr("special regex")
    ensures p in PocSpecialRegexes ==>
      Render(RegExMatch(p)).value.elems[1] == PyValues.PyStr(Lower(PocRender(RegExMatch(p)).value))
  {
    PocTableIsRev();
    FindSpecialIsRevLookup(p);
  }

  /** A sequence of literals is the literals joined by spaces. */
  lemma PocLiteralSequence(ls: seq<string>)
    ensures PocRender(Sequence(StrNodes(ls))) == Ok(Join(" ", ls))
  {
    var r := PocRenderAll(StrNodes(ls));
    assert r.Ok?;
    assert r.value == ls;
  }

  /** A choice of literals lists each in parentheses, separated by OR. */
  lemma PocLiteralChoice(ls: seq<string>)
    ensures PocRender(OrderedChoice(StrNodes(ls))) == Ok("(" + Join(") OR (", ls) + ")")
  {
    var r := PocRenderAll(StrNodes(ls));
    assert r.Ok?;
    assert r.value == ls;
  }

  /** A repetition over a textX class shows the class's name, not its rule,
      with an absent or empty separator shown as nothing. */
  lemma PocClassRepetition(k: RepeatKind, child: Node, cls: string, sep: Option<string>, attr: string)
    ensures PocRender(Repetition(k, child, Some(cls), sep, attr)) ==
      Ok(match k
         case OptionalKind => "[" + cls + "]"
         case ZeroOrMoreKind => "[" + cls + "_1" + SepText(sep) + " …" + SepText(sep) + " " + cls + "_n]"
         case OneOrMoreKind => cls + "_1[" + SepText(sep) + " …" + SepText(sep) + " " + cls + "_n]")
  {
  }
}
