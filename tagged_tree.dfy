/** `render_arpeggio_sequence` of textx_dsldoc/render_utils.py: the tagged
    tree (nested Python tuples) a parsing-expression tree is rendered into,
    and a decoder that reads the node back from it. */
module TaggedTree {
  import opened Common
  import opened PyValues
  import opened Peg
  import opened RenderUtils

  /** How a repetition's `sep` appears in the tagged tree. */
  function SepVal(sep: Option<string>): (r: PyVal)
    ensures r.PyNone? <==> sep.None?
  {
    if sep.None? then PyNone else PyStr(sep.value)
  }

  function RepeatTag(k: RepeatKind): string {
    match k
    case OptionalKind => "0..1"
    case ZeroOrMoreKind => "0..*"
    case OneOrMoreKind => "1..*"
  }

  /** `render_arpeggio_sequence(n)`.  Only an unknown node kind fails (the
      final `assert isinstance(seq, arpeggio.Sequence)`); the child of a
      repetition over a textX class is that class's name and is not
      rendered. */
  function Render(n: Node): (r: Result<PyVal>)
    ensures r.Ok? ==> r.value.PyTuple?
    ensures r.Err? ==> r.error == AssertionError
    decreases n
  {
    match n
    case StrMatch(lit) => Ok(PyTuple([PyStrType, PyStr(lit)]))
    case OrderedChoice(ns) =>
      var cs :- RenderAll(ns);
      Ok(PyTuple([PyStr("choice"), PyTuple(cs)]))
    case Repetition(k, c, cls, sep, _) =>
      var child :- if cls.Some? then Ok(PyStr(cls.value)) else Render(c);
      if k.OptionalKind? then Ok(PyTuple([PyStr("0..1"), child]))
      else Ok(PyTuple([PyStr(RepeatTag(k)), child, SepVal(sep)]))
    case RegExMatch(p) =>
      var special := FindSpecial(SpecialRegexes, p);
      if special.Some? then Ok(PyTuple([PyStr("special regex"), PyStr(Lower(special.value))]))
      else Ok(PyTuple([PyStr("regex"), PyStr(p)]))
    case Sequence(ns) =>
      var cs :- RenderAll(ns);
      Ok(PyTuple(cs))
    case Other(_, _) => Err(AssertionError)
  }

  /** `tuple(map(render_arpeggio_sequence, nodes))`: one rendering per node,
      in order. */
  function RenderAll(ns: seq<Node>): (r: Result<seq<PyVal>>)
    ensures r.Ok? <==> forall i :: 0 <= i < |ns| ==> Render(ns[i]).Ok?
    ensures r.Ok? ==> |r.value| == |ns| && forall i :: 0 <= i < |ns| ==> Render(ns[i]) == Ok(r.value[i])
    ensures r.Err? ==> r.error == AssertionError
    decreases ns
  {
    if ns == [] then Ok([])
    else
      var head :- Render(ns[0]);
      var tail :- RenderAll(ns[1..]);
      assert forall i :: 1 <= i < |ns| ==> ns[i] == ns[1..][i - 1];
      Ok([head] + tail)
  }

  /** No unknown node kind is reached by the rendering. */
  predicate Renderable(n: Node)
    decreases n
  {
    match n
    case StrMatch(_) => true
    case RegExMatch(_) => true
    case OrderedChoice(ns) => forall i :: 0 <= i < |ns| ==> Renderable(ns[i])
    case Sequence(ns) => forall i :: 0 <= i < |ns| ==> Renderable(ns[i])
    case Repetition(_, c, cls, _, _) => cls.Some? || Renderable(c)
    case Other(_, _) => false
  }

  lemma {:induction false} RenderableIffOk(n: Node)
    ensures Render(n).Ok? <==> Renderable(n)
    decreases n
  {
    match n
    case StrMatch(_) =>
    case RegExMatch(_) =>
    case OrderedChoice(ns) =>
      forall i | 0 <= i < |ns| ensures Render(ns[i]).Ok? <==> Renderable(ns[i]) {
        RenderableIffOk(ns[i]);
      }
    case Sequence(ns) =>
      forall i | 0 <= i < |ns| ensures Render(ns[i]).Ok? <==> Renderable(ns[i]) {
        RenderableIffOk(ns[i]);
      }
    case Repetition(_, c, cls, _, _) =>
      if cls.None? { RenderableIffOk(c); }
    case Other(_, _) =>
  }

  /** A tree with no unknown node kind anywhere is renderable (the converse
      fails only below a repetition over a textX class, which is not
      rendered). */
  lemma {:induction false} KnownKindsRenderable(n: Node)
    requires KnownKinds(n)
    ensures Renderable(n)
    decreases n
  {
    match n
    case OrderedChoice(ns) =>
      forall i | 0 <= i < |ns| ensures Renderable(ns[i]) { KnownKindsRenderable(ns[i]); }
    case Sequence(ns) =>
      forall i | 0 <= i < |ns| ensures Renderable(ns[i]) { KnownKindsRenderable(ns[i]); }
    case Repetition(_, c, cls, _, _) => KnownKindsRenderable(c);
    case _ =>
  }

  // ---------------------------------------------------------------------
  // Reading a node back from its tagged tree

  /** The node with what the tagged tree does not record erased: the
      attribute name of each repetition, the separator of an optional, and
      the subtree under a repetition over a textX class (replaced by an empty
      sequence). */
  function Erase(n: Node): Node
    decreases n
  {
    match n
    case StrMatch(_) => n
    case RegExMatch(_) => n
    case OrderedChoice(ns) => OrderedChoice(EraseAll(ns))
    case Sequence(ns) => Sequence(EraseAll(ns))
    case Repetition(k, c, cls, sep, _) =>
      Repetition(k, if cls.Some? then Sequence([]) else Erase(c), cls,
                 if k.OptionalKind? then None else sep, "")
    case Other(t, ns) => Other(t, EraseAll(ns))
  }

  function EraseAll(ns: seq<Node>): (r: seq<Node>)
    ensures |r| == |ns|
    ensures forall i :: 0 <= i < |ns| ==> r[i] == Erase(ns[i])
    decreases ns
  {
    if ns == [] then []
    else
      var r := [Erase(ns[0])] + EraseAll(ns[1..]);
      assert forall i :: 1 <= i < |ns| ==> ns[i] == ns[1..][i - 1];
      r
  }

  lemma SizeSumOfTwoOrThree(es: seq<PyVal>)
    requires |es| == 2 || |es| == 3
    ensures |es| == 2 ==> SizeSum(es) == Size(es[0]) + Size(es[1])
    ensures |es| == 3 ==> SizeSum(es) == Size(es[0]) + Size(es[1]) + Size(es[2])
  {
    var t := es[1..];
    assert SizeSum(es) == Size(es[0]) + SizeSum(t);
    assert SizeSum(t) == Size(t[0]) + SizeSum(t[1..]);
    if |es| == 3 {
      assert SizeSum(t[1..]) == Size(t[1]) + SizeSum(t[2..]);
    }
  }

  /** A repetition child read back: a class name, or a rendered subtree. */
  function DecodeChild(c: PyVal): (r: (Node, Option<string>))
    decreases Size(c), 1
  {
    if c.PyStr? then (Sequence([]), Some(c.s)) else (Decode(c), None)
  }

  function DecodeSep(s: PyVal): Option<string> {
    if s.PyStr? then Some(s.s) else None
  }

  /** The node a tagged tree stands for (an unknown shape reads as an
      unknown node kind). */
  function Decode(v: PyVal): Node
    decreases Size(v), 0
  {
    if !v.PyTuple? then Other("", [])
    else
      var es := v.elems;
      if |es| == 2 && es[0] == PyStrType && es[1].PyStr? then StrMatch(es[1].s)
      else if |es| == 2 && es[0] == PyStr("choice") && es[1].PyTuple? then
        SizeSumOfTwoOrThree(es);
        OrderedChoice(DecodeAll(es[1].elems))
      else if |es| == 2 && es[0] == PyStr("0..1") then
        SizeSumOfTwoOrThree(es);
        var (c, cls) := DecodeChild(es[1]);
        Repetition(OptionalKind, c, cls, None, "")
      else if |es| == 3 && (es[0] == PyStr("0..*") || es[0] == PyStr("1..*")) then
        SizeSumOfTwoOrThree(es);
        var (c, cls) := DecodeChild(es[1]);
        var k := if es[0] == PyStr("0..*") then ZeroOrMoreKind else OneOrMoreKind;
        Repetition(k, c, cls, DecodeSep(es[2]), "")
      else if |es| == 2 && es[0] == PyStr("special regex") && es[1].PyStr? then
        var p := SpecialRegexOf(Upper(es[1].s));
        if p.Ok? then RegExMatch(p.value) else Other("", [])
      else if |es| == 2 && es[0] == PyStr("regex") && es[1].PyStr? then RegExMatch(es[1].s)
      else Sequence(DecodeAll(es))
  }

  function DecodeAll(vs: seq<PyVal>): (r: seq<Node>)
    ensures |r| == |vs|
    decreases SizeSum(vs), 1
  {
    if vs == [] then []
    else
      SizeSumBounds(vs, 0);
      [Decode(vs[0])] + DecodeAll(vs[1..])
  }

  lemma {:induction false} DecodeAllPointwise(vs: seq<PyVal>, i: nat)
    requires i < |vs|
    ensures DecodeAll(vs)[i] == Decode(vs[i])
    decreases |vs|
  {
    if i > 0 {
      DecodeAllPointwise(vs[1..], i - 1);
    }
  }

  /** The names of SPECIAL_REGEXES are upper case: lowering and raising one
      gives it back. */
  lemma SpecialNamesRoundTrip(i: nat)
    requires i < |SpecialRegexes|
    ensures Upper(Lower(SpecialRegexes[i].0)) == SpecialRegexes[i].0
  {
    var k := SpecialRegexes[i].0;
    assert forall j :: 0 <= j < |k| ==> 'A' <= k[j] <= 'Z';
    assert Upper(Lower(k)) == k;
  }

  /** The first name listed with a pattern is the name SPECIAL_REGEXES maps
      to it. */
  lemma SpecialNameLooksUpPattern(p: string)
    requires FindSpecial(SpecialRegexes, p).Some?
    ensures SpecialRegexOf(FindSpecial(SpecialRegexes, p).value) == Ok(p)
  {
    var k := FindSpecial(SpecialRegexes, p).value;
    var i :| 0 <= i < |SpecialRegexes| && SpecialRegexes[i] == (k, p);
    var r := SpecialRegexOf(k);
    var j :| 0 <= j < |SpecialRegexes| && SpecialRegexes[j] == (k, r.value);
    SpecialNameLength(i);
    SpecialNameLength(j);
  }

  /** The names of SPECIAL_REGEXES have distinct lengths, so no two are
      equal. */
  lemma SpecialNameLength(i: nat)
    requires i < |SpecialRegexes|
    ensures |SpecialRegexes[i].0| == i + 2
  {
  }

  /** The tagged tree records everything of a renderable node but the
      attribute names and what lies below a repetition over a textX class:
      reading it back gives the erased node.  In particular the rendering of
      a sequence or choice has one entry per child, in order. */
  lemma {:induction false} DecodeRender(n: Node)
    requires Renderable(n)
    ensures Render(n).Ok? && Decode(Render(n).value) == Erase(n)
    decreases n
  {
    RenderableIffOk(n);
    match n
    case StrMatch(_) =>
    case RegExMatch(p) => DecodeRenderRegex(p);
    case OrderedChoice(ns) =>
      DecodeAllRender(ns, RenderAll(ns).value);
    case Sequence(ns) => DecodeRenderSequence(ns);
    case Repetition(k, c, cls, sep, _) =>
      if cls.None? {
        DecodeRender(c);
      }
    case Other(_, _) =>
  }

  lemma DecodeRenderRegex(p: string)
    ensures Decode(Render(RegExMatch(p)).value) == RegExMatch(p)
  {
    var special := FindSpecial(SpecialRegexes, p);
    if special.Some? {
      var k := special.value;
      var i :| 0 <= i < |SpecialRegexes| && SpecialRegexes[i] == (k, p);
      SpecialNamesRoundTrip(i);
      SpecialNameLooksUpPattern(p);
      DecodeSpecial(Lower(k), p);
    } else {
      DecodeRegex(p);
    }
  }

  lemma DecodeSpecial(s: string, p: string)
    requires SpecialRegexOf(Upper(s)) == Ok(p)
    ensures Decode(PyTuple([PyStr("special regex"), PyStr(s)])) == RegExMatch(p)
  {
  }

  lemma DecodeRegex(p: string)
    ensures Decode(PyTuple([PyStr("regex"), PyStr(p)])) == RegExMatch(p)
  {
  }

  lemma {:induction false} DecodeRenderSequence(ns: seq<Node>)
    requires forall i :: 0 <= i < |ns| ==> Renderable(ns[i])
    requires RenderAll(ns).Ok?
    ensures Render(Sequence(ns)).Ok? && Decode(Render(Sequence(ns)).value) == Sequence(EraseAll(ns))
    decreases ns, 2
  {
    var cs := RenderAll(ns).value;
    DecodeAllRender(ns, cs);
    assert Render(Sequence(ns)) == Ok(PyTuple(cs));
    if |cs| == 2 || |cs| == 3 {
      assert Render(ns[0]) == Ok(cs[0]);
      assert cs[0].PyTuple?;
    }
  }

  lemma {:induction false} DecodeAllRender(ns: seq<Node>, cs: seq<PyVal>)
    requires forall i :: 0 <= i < |ns| ==> Renderable(ns[i])
    requires RenderAll(ns) == Ok(cs)
    ensures DecodeAll(cs) == EraseAll(ns)
    decreases ns, 1
  {
    forall i | 0 <= i < |ns| ensures DecodeAll(cs)[i] == EraseAll(ns)[i] {
      DecodeRender(ns[i]);
      DecodeAllPointwise(cs, i);
    }
  }
}
