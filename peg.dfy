/** The two object models the documentation generator reads.

    An Arpeggio parsing-expression tree: string and regex terminals, ordered
    choices, sequences, and the three repetitions (which in Arpeggio all
    derive from `Repetition`, carry one child node and an optional
    separator, and are tagged by textX with the attribute name they assign).
    A repetition whose child is a textX rule reference carries that rule's
    class name.  Any other Arpeggio node kind (end of file, syntax
    predicates, unordered groups, ...) is `Other`.

    The textX metamodel: a graph of classes (with their attributes, peg rule,
    the classes that inherit from them, and docstring) and of the attribute
    objects (`MetaAttr`, with multiplicity and target class) that the
    classes' `_tx_attrs` map to.  Python object identity becomes a `ClassId`. */
module Peg {
  import opened Common

  datatype RepeatKind = OptionalKind | ZeroOrMoreKind | OneOrMoreKind

  datatype Node =
    | StrMatch(lit: string)
    | RegExMatch(pattern: string)
    | OrderedChoice(nodes: seq<Node>)
    | Sequence(nodes: seq<Node>)
    | Repetition(kind: RepeatKind, child: Node, childClass: Option<string>, sep: Option<string>, attrName: string)
    | Other(typeName: string, nodes: seq<Node>)

  /** `node.nodes` in Arpeggio: terminals have none, a repetition has its one child. */
  function Nodes(n: Node): (r: seq<Node>)
    ensures n.Repetition? ==> r == [n.child]
    ensures n.StrMatch? || n.RegExMatch? ==> r == []
    ensures forall i :: 0 <= i < |r| ==> r[i] < n
  {
    match n
    case StrMatch(_) => []
    case RegExMatch(_) => []
    case OrderedChoice(ns) => ns
    case Sequence(ns) => ns
    case Repetition(_, c, _, _, _) => [c]
    case Other(_, ns) => ns
  }

  /** No unknown node kind anywhere in the tree. */
  predicate KnownKinds(n: Node)
    decreases n
  {
    match n
    case StrMatch(_) => true
    case RegExMatch(_) => true
    case OrderedChoice(ns) => forall i :: 0 <= i < |ns| ==> KnownKinds(ns[i])
    case Sequence(ns) => forall i :: 0 <= i < |ns| ==> KnownKinds(ns[i])
    case Repetition(_, c, _, _, _) => KnownKinds(c)
    case Other(_, _) => false
  }

  /** One string match per literal. */
  function StrNodes(ls: seq<string>): (r: seq<Node>)
    ensures |r| == |ls|
    ensures forall i :: 0 <= i < |ls| ==> r[i] == StrMatch(ls[i])
  {
    seq(|ls|, i requires 0 <= i < |ls| => StrMatch(ls[i]))
  }

  /** `isinstance(n, arpeggio.Sequence)`: Arpeggio's `OrderedChoice` is a
      subclass of `Sequence`. */
  predicate IsSequenceKind(n: Node) {
    n.Sequence? || n.OrderedChoice?
  }

  /** Python truthiness of a repetition's `sep`. */
  predicate SepIsSet(sep: Option<string>) {
    sep.Some? && sep.value != ""
  }

  type ClassId = nat

  /** One entry of a class's `_tx_attrs`: attribute name and its MetaAttr. */
  datatype Attr = Attr(name: string, meta: ClassId)

  datatype Entity =
      /** A textX class.  `attrs == None` when it has no `_tx_attrs`,
          `pegRule == None` when it has no `_tx_peg_rule`, `doc == None` when
          its `__doc__` is missing or None. */
    | MetaClass(name: string, attrs: Option<seq<Attr>>, pegRule: Option<Node>,
                inhBy: seq<ClassId>, doc: Option<string>)
      /** A textX attribute: multiplicity ('0..1', '1..*', ...) and target class. */
    | MetaAttr(mult: string, cls: ClassId)

  type Graph = map<ClassId, Entity>

  /** The ids a metamodel object refers to. */
  function Refs(e: Entity): seq<ClassId> {
    match e
    case MetaAttr(_, c) => [c]
    case MetaClass(_, attrs, _, inhBy, _) =>
      (if attrs.Some? then AttrTargets(attrs.value) else []) + inhBy
  }

  function AttrTargets(attrs: seq<Attr>): (r: seq<ClassId>)
    ensures |r| == |attrs|
    ensures forall i :: 0 <= i < |attrs| ==> r[i] == attrs[i].meta
  {
    seq(|attrs|, i requires 0 <= i < |attrs| => attrs[i].meta)
  }

  /** Attribute names are distinct (`_tx_attrs` is a dictionary). */
  predicate DistinctAttrNames(attrs: seq<Attr>) {
    forall i, j :: 0 <= i < j < |attrs| ==> attrs[i].name != attrs[j].name
  }

  /** Every reference of the metamodel resolves to an object of it. */
  predicate WellFormed(g: Graph) {
    (forall id, k :: id in g && 0 <= k < |Refs(g[id])| ==> Refs(g[id])[k] in g) &&
    (forall id :: id in g && g[id].MetaClass? && g[id].attrs.Some? ==> DistinctAttrNames(g[id].attrs.value))
  }
}
