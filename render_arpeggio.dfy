/** textx_dsldoc/render_arpeggio.py: the one-line-per-node rendering of a
    parsing expression, `render_arpeggio_sequence_as_str`. */
module RenderArpeggio {
  import opened Common
  import opened Peg
  import opened RenderUtils
  import opened TaggedTree

  /** REPEAT_TO_STR: the regular-expression suffix of each repetition,
      one character, a different one per kind. */
  function RepeatToStr(k: RepeatKind): (r: string)
    ensures |r| == 1
    ensures k.OptionalKind? ==> r == "?"
    ensures k.ZeroOrMoreKind? ==> r == "*"
    ensures k.OneOrMoreKind? ==> r == "+"
  {
    match k
    case OptionalKind => "?"
    case ZeroOrMoreKind => "*"
    case OneOrMoreKind => "+"
  }

  /** The Markdown link to the section of a class: the anchor is its
      lower-cased name. */
  function ClassLink(name: string): string {
    "[" + name + "](#" + Lower(name) + ")"
  }

  /** `[sep]` when the repetition has a (non-empty) separator, nothing
      otherwise. */
  function SepSuffix(sep: Option<string>): (r: string)
    ensures SepIsSet(sep) ==> r == "[" + sep.value + "]"
    ensures !SepIsSet(sep) ==> r == ""
  {
    if SepIsSet(sep) then "[" + sep.value + "]" else ""
  }

  /** `render_arpeggio_sequence_as_str(rule)`: the strings the generator
      yields, one per node of `rule.nodes`; an unknown node kind among them
      raises ValueError. */
  function RenderAsStr(env: Env, rule: Node): (r: Result<seq<string>>)
    ensures r.Ok? <==> forall i :: 0 <= i < |Nodes(rule)| ==> ItemStr(env, Nodes(rule)[i]).Ok?
    ensures r.Ok? ==> |r.value| == |Nodes(rule)|
    ensures r.Ok? ==> forall i :: 0 <= i < |Nodes(rule)| ==> ItemStr(env, Nodes(rule)[i]) == Ok(r.value[i])
    ensures r.Err? ==> r.error == ValueError
    decreases rule, 0, |Nodes(rule)| + 1
  {
    Tokens(env, rule, 0)
  }

  /** The strings yielded for the nodes of `rule` from index `i` on. */
  function Tokens(env: Env, rule: Node, i: nat): (r: Result<seq<string>>)
    requires i <= |Nodes(rule)|
    ensures r.Ok? <==> forall j :: i <= j < |Nodes(rule)| ==> ItemStr(env, Nodes(rule)[j]).Ok?
    ensures r.Ok? ==> |r.value| == |Nodes(rule)| - i
    ensures r.Ok? ==> forall j :: 0 <= j < |r.value| ==> ItemStr(env, Nodes(rule)[i + j]) == Ok(r.value[j])
    ensures r.Err? ==> r.error == ValueError
    decreases rule, 0, |Nodes(rule)| - i
  {
    if i == |Nodes(rule)| then Ok([])
    else
      var head := ItemStr(env, Nodes(rule)[i]);
      if head.Err? then Err(head.error)
      else
        var tail := Tokens(env, rule, i + 1);
        if tail.Err? then Err(tail.error)
        else Ok([head.value] + tail.value)
  }

  /** The string one node yields. */
  function ItemStr(env: Env, item: Node): (r: Result<string>)
    ensures item.StrMatch? ==> r == Ok(item.lit)
    ensures r.Err? ==> r.error == ValueError
    decreases item, 1, 0
  {
    match item
    case StrMatch(lit) => Ok(lit)
    case Repetition(k, c, cls, sep, attr) =>
      if cls.Some? then
        Ok(attr + RepeatToStr(k) + "=" + ClassLink(cls.value) + SepSuffix(sep))
      else
        var sub :- RenderAsStr(env, c);
        Ok(attr + RepeatToStr(k) + "=" + Join(" ", sub) + SepSuffix(sep))
    case RegExMatch(p) =>
      if p in SpecialRegexesRev then Ok(ClassLink(SpecialRegexesRev[p]))
      else Ok(RenderRegex(env, p, []))
    case OrderedChoice(_) =>
      var alts :- RenderAsStr(env, item);
      Ok("(" + Join("|", alts) + ")")
    case Sequence(_) =>
      var parts :- RenderAsStr(env, item);
      Ok(Join("  ", parts))
    case Other(_, _) => Err(ValueError)
  }

  // ---------------------------------------------------------------------
  // Properties

  /** A pattern of SPECIAL_REGEXES is shown as a link to the section of its
      base type, found back through SPECIAL_REGEXES_REV. */
  lemma SpecialRegexToken(env: Env, i: nat)
    requires i < |SpecialRegexes|
    ensures ItemStr(env, RegExMatch(SpecialRegexes[i].1)) == Ok(ClassLink(SpecialRegexes[i].0))
  {
    SpecialRegexesRevInverts(i);
  }

  /** Rendering a sequence of nodes `a + b` yields the strings of `a` then
      those of `b`. */
  lemma RenderConcat(env: Env, a: seq<Node>, b: seq<Node>)
    requires RenderAsStr(env, Sequence(a)).Ok? && RenderAsStr(env, Sequence(b)).Ok?
    ensures RenderAsStr(env, Sequence(a + b)) ==
      Ok(RenderAsStr(env, Sequence(a)).value + RenderAsStr(env, Sequence(b)).value)
  {
    var ra := RenderAsStr(env, Sequence(a)).value;
    var rb := RenderAsStr(env, Sequence(b)).value;
    var ab := a + b;
    assert Nodes(Sequence(ab)) == ab && Nodes(Sequence(a)) == a && Nodes(Sequence(b)) == b;
    forall j | 0 <= j < |ab| ensures ItemStr(env, ab[j]) == Ok((ra + rb)[j]) {
      if j < |a| {
        assert ab[j] == a[j];
      } else {
        assert ab[j] == b[j - |a|];
      }
    }
    var r := RenderAsStr(env, Sequence(ab));
    assert r.Ok?;
    assert |r.value| == |ra + rb|;
    forall j | 0 <= j < |ab| ensures r.value[j] == (ra + rb)[j] {
      assert ItemStr(env, ab[j]) == Ok(r.value[j]);
    }
    assert r.value == ra + rb;
  }

  /** A choice between literals is shown as `(a|b|...)`. */
  lemma ChoiceOfLiteralsToken(env: Env, ls: seq<string>)
    ensures ItemStr(env, OrderedChoice(StrNodes(ls))) == Ok("(" + Join("|", ls) + ")")
  {
    var r := RenderAsStr(env, OrderedChoice(StrNodes(ls)));
    assert r.Ok?;
    assert r.value == ls;
  }

  /** A repetition whose child is a run of literals is shown as the
      attribute name, the repeat suffix, `=`, the literals separated by
      spaces, and `[sep]` when there is a separator. */
  lemma RepetitionOfLiteralsToken(env: Env, k: RepeatKind, ls: seq<string>, sep: Option<string>, attr: string)
    ensures ItemStr(env, Repetition(k, Sequence(StrNodes(ls)), None, sep, attr)) ==
      Ok(attr + RepeatToStr(k) + "=" + Join(" ", ls) + SepSuffix(sep))
  {
    var r := RenderAsStr(env, Sequence(StrNodes(ls)));
    assert r.Ok?;
    assert r.value == ls;
  }

  /** A rule with no unknown node kind anywhere below it is rendered
      without error (and so is its tagged tree, by KnownKindsRenderable). */
  lemma {:induction false} KnownKindsRenderAsStr(env: Env, rule: Node)
    requires KnownKinds(rule)
    ensures RenderAsStr(env, rule).Ok?
    decreases rule, 0
  {
    forall i | 0 <= i < |Nodes(rule)| ensures ItemStr(env, Nodes(rule)[i]).Ok? {
      KnownKindsItem(env, Nodes(rule)[i]);
    }
  }

  lemma {:induction false} KnownKindsItem(env: Env, item: Node)
    requires KnownKinds(item)
    ensures ItemStr(env, item).Ok?
    decreases item, 1
  {
    match item
    case Repetition(_, c, cls, _, _) =>
      if cls.None? { KnownKindsRenderAsStr(env, c); }
    case OrderedChoice(_) => KnownKindsRenderAsStr(env, item);
    case Sequence(_) => KnownKindsRenderAsStr(env, item);
    case _ =>
  }

  /** The token renderer fails exactly on a node of unknown kind: a rule
      whose nodes are all of known kinds below renders, and one holding an
      unknown node among its own nodes fails with ValueError. */
  lemma UnknownNodeFails(env: Env, rule: Node, i: nat)
    requires i < |Nodes(rule)| && Nodes(rule)[i].Other?
    ensures RenderAsStr(env, rule) == Err(ValueError)
  {
  }
}
