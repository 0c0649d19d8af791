/** poc.py's `search_for_structure_info`: the earlier memoised walk.  As
    in the packaged walk, the entry is stored before anything below it is
    walked, so no object is expanded twice and the walk ends on cyclic
    metamodels; unlike it, a revisit returns the stored entry untouched,
    an entry records only the first name it was reached by, a raw choice
    records only its subclasses' entries, and a rule's `'str'` is the
    one-line text of `Poc.PocRender`. */
module PocSearch {
  import opened Common
  import opened Peg
  import opened RenderUtils
  import opened StructureInfo
  import opened Poc

  datatype PocKind =
      /** stored before the walk below it; not filled yet */
    | PocPending
      /** `'regex'`: the name it was reached by, and the pattern */
    | PocRegex(attrName: Option<string>, regex: string)
      /** `'select'`: multiplicity and the target class's entry */
    | PocSelect(mult: string, target: ClassId)
      /** `'choice'`: the subclasses' entries */
    | PocChoice(subs: seq<ClassId>)
      /** `'type'` */
    | PocType
      /** `'children'` and `'str'` */
    | PocRule(children: seq<(string, ClassId)>, str: string)

  /** An entry: `'name in parent'` (when the first visit had a name),
      `'name'` (for a class), and the rest by kind. */
  datatype PocInfo = PocInfo(nameInParent: Option<string>, name: Option<string>, kind: PocKind)

  type PocTable = map<ClassId, PocInfo>

  predicate PocRefsIn(k: PocKind, keys: set<ClassId>) {
    match k
    case PocSelect(_, t) => t in keys
    case PocChoice(subs) => forall i :: 0 <= i < |subs| ==> subs[i] in keys
    case PocRule(cs, _) => forall i :: 0 <= i < |cs| ==> cs[i].1 in keys
    case _ => true
  }

  lemma PocRefsInMono(k: PocKind, a: set<ClassId>, b: set<ClassId>)
    requires PocRefsIn(k, a) && a <= b
    ensures PocRefsIn(k, b)
  {
  }

  predicate PocClosed(t: PocTable) {
    forall k :: k in t ==> PocRefsIn(t[k].kind, t.Keys)
  }

  lemma PocClosedSet(t: PocTable, id: ClassId, info: PocInfo)
    requires PocClosed(t) && PocRefsIn(info.kind, t.Keys + {id})
    ensures PocClosed(t[id := info])
  {
    var u := t[id := info];
    forall k | k in u ensures PocRefsIn(u[k].kind, u.Keys) {
      if k != id {
        PocRefsInMono(t[k].kind, t.Keys, u.Keys);
      } else {
        PocRefsInMono(info.kind, t.Keys + {id}, u.Keys);
      }
    }
  }

  /** The table's entries are objects of the metamodel under their own
      names, and refer to entries. */
  predicate PocValid(g: Graph, t: PocTable) {
    t.Keys <= g.Keys && PocClosed(t) &&
    forall k :: k in t ==> t[k].name == OwnName(g[k])
  }

  /** `after` keeps every entry of `before` as it was. */
  predicate Keeps(before: PocTable, after: PocTable) {
    before.Keys <= after.Keys && forall k :: k in before ==> after[k] == before[k]
  }

  /** `after` keeps every entry of `before` but `id` as it was, and `id`'s
      names. */
  predicate KeepsBut(before: PocTable, after: PocTable, id: ClassId) {
    before.Keys <= after.Keys &&
    (id in before ==> after[id].name == before[id].name && after[id].nameInParent == before[id].nameInParent) &&
    forall k :: k in before && k != id ==> after[k] == before[k]
  }

  lemma KeepsIsKeepsBut(a: PocTable, b: PocTable, id: ClassId)
    requires Keeps(a, b)
    ensures KeepsBut(a, b, id)
  {
  }

  lemma KeepsFill(a: PocTable, b: PocTable, id: ClassId, k: PocKind)
    requires Keeps(a, b) && id in a
    ensures KeepsBut(a, b[id := b[id].(kind := k)], id)
  {
  }

  lemma KeepsButStep(t: PocTable, a: PocTable, b: PocTable, id: ClassId)
    requires KeepsBut(t, a, id) && Keeps(a, b) && id in a
    ensures KeepsBut(t, b, id)
  {
  }

  lemma KeepsButFill(t: PocTable, a: PocTable, b: PocTable, id: ClassId, k: PocKind)
    requires KeepsBut(t, a, id) && Keeps(a, b) && id in a
    ensures KeepsBut(t, b[id := b[id].(kind := k)], id)
  {
  }

  /** Every entry a successful walk added to `before` has been classified:
      none is left pending. */
  predicate PocClassified(before: PocTable, after: PocTable) {
    forall c :: c in after && c !in before ==> !after[c].kind.PocPending?
  }

  lemma PocClassifiedKeeps(a: PocTable, b: PocTable, c: PocTable)
    requires PocClassified(a, b) && Keeps(b, c) && PocClassified(b, c)
    ensures PocClassified(a, c)
  {
  }

  lemma PocClassifiedKeepsBut(a: PocTable, b: PocTable, c: PocTable, id: ClassId)
    requires PocClassified(a, b) && KeepsBut(b, c, id) && PocClassified(b, c) && id in a
    ensures PocClassified(a, c)
  {
  }

  lemma PocClassifiedFill(a: PocTable, b: PocTable, id: ClassId, k: PocKind)
    requires PocClassified(a, b) && id in a && id in b
    ensures PocClassified(a, b[id := b[id].(kind := k)])
  {
  }

  /** The new entry itself, once classified, and what the walk below it
      added. */
  lemma PocClassifiedNew(t: PocTable, t1: PocTable, t2: PocTable, id: ClassId)
    requires id !in t && id in t1 && t1 == t[id := t1[id]] && PocClassified(t1, t2)
    requires id in t2 && !t2[id].kind.PocPending?
    ensures PocClassified(t, t2)
  {
  }

  /** `if name: outdict['name in parent'] = name`. */
  function FirstName(name: Option<string>): (r: Option<string>)
    ensures r.Some? <==> NameGiven(name)
    ensures r.Some? ==> r == name
  {
    if NameGiven(name) then name else None
  }

  /** The kind the poc walk gives an object it meets for the first time, or
      the error it raises on the object itself. */
  function PocKindOf(g: Graph, id: ClassId, name: Option<string>): (r: Result<PocKind>)
    requires WellFormed(g) && id in g
    ensures r.Ok? ==> PocRefsIn(r.value, g.Keys) && !r.value.PocPending?
    ensures r.Ok? && r.value.PocRegex? ==> AsRegexOf(g[id]) == Some(r.value.regex)
    ensures g[id].MetaAttr? ==> r == Ok(PocSelect(g[id].mult, g[id].cls))
    ensures r.Ok? && r.value.PocRule? ==> g[id].pegRule.Some? && PocRender(g[id].pegRule.value) == Ok(r.value.str)
  {
    var e := g[id];
    assert forall k :: 0 <= k < |Refs(e)| ==> Refs(e)[k] in g;
    var regex := AsRegexOf(e);
    if regex.Some? && regex.value != "" then Ok(PocRegex(name, regex.value))
    else if e.MetaAttr? then
      assert Refs(e)[0] == e.cls;
      Ok(PocSelect(e.mult, e.cls))
    else if e.attrs.None? then Err(AttributeError)
    else if e.attrs.value == [] && e.inhBy != [] then
      assert forall i :: 0 <= i < |e.inhBy| ==> e.inhBy[i] == Refs(e)[|AttrTargets(e.attrs.value)| + i];
      Ok(PocChoice(e.inhBy))
    else if e.name in BaseTypes then Ok(PocType)
    else if e.pegRule.None? then Err(AttributeError)
    else
      var s :- PocRender(e.pegRule.value);
      assert forall i :: 0 <= i < |e.attrs.value| ==> e.attrs.value[i].meta == Refs(e)[i];
      Ok(PocRule(AttrPairs(e.attrs.value), s))
  }

  /** What the poc records of a packaged entry's kind, for the kinds whose
      text it does not render. */
  function Forget(k: Kind): (r: PocKind)
    requires !k.RuleInfo? && !k.Pending?
    ensures k.ChoiceInfo? ==> r == PocChoice(k.subs)
    ensures k.RegexInfo? ==> r == PocRegex(k.attrName, k.regex)
    ensures k.SelectInfo? ==> r == PocSelect(k.mult, k.target)
    ensures k.TypeInfo? ==> r == PocType
  {
    match k
    case RegexInfo(a, rx) => PocRegex(a, rx)
    case SelectInfo(m, c) => PocSelect(m, c)
    case ChoiceInfo(subs, _, _) => PocChoice(subs)
    case TypeInfo => PocType
  }

  /** The poc walk fails on an object only where the packaged walk does,
      and agrees with it on every kind but a rule's, whose children are
      the same and whose text succeeds together with the packaged one. */
  lemma PocKindOfAgrees(g: Graph, id: ClassId, name: Option<string>)
    requires WellFormed(g) && id in g
    ensures PocKindOf(g, id, name).Err? ==> KindOf(g, id, name).Err?
    ensures KindOf(g, id, name).Ok? && !KindOf(g, id, name).value.RuleInfo? ==>
      PocKindOf(g, id, name) == Ok(Forget(KindOf(g, id, name).value))
    ensures KindOf(g, id, name).Ok? && KindOf(g, id, name).value.RuleInfo? ==>
      PocKindOf(g, id, name).Ok? && PocKindOf(g, id, name).value.PocRule? &&
      PocKindOf(g, id, name).value.children == KindOf(g, id, name).value.children
  {
    var e := g[id];
    if e.MetaClass? && e.pegRule.Some? {
      PocRenderFailsWithRender(e.pegRule.value);
    }
  }

  /** The first clause of PocKindOfAgrees has no converse. A raw choice over
      an attribute object is a KeyError for the packaged walk, which reads
      the `name` of every subclass. The poc walk only visits the
      subclasses. */
  lemma PocKindOfNotConverse()
    ensures var g := map[0 := MetaClass("C", Some([]), None, [1], None), 1 := MetaAttr("1", 0)];
      WellFormed(g) && KindOf(g, 0, None) == Err(KeyError) && PocKindOf(g, 0, None).Ok?
  {
    var g := map[0 := MetaClass("C", Some([]), None, [1], None), 1 := MetaAttr("1", 0)];
    assert Refs(g[0]) == [1];
    assert SubNames(g, [1]).Err?;
  }

  /** poc.py's `search_for_structure_info(id, name=name)` on the table `t`,
      giving the table after the call. */
  method PocSearchIn(g: Graph, t: PocTable, id: ClassId, name: Option<string>)
      returns (t': PocTable, r: Result<PocInfo>)
    requires WellFormed(g) && PocValid(g, t) && id in g
    ensures id in t' && PocValid(g, t') && Keeps(t, t')
    ensures r.Ok? ==> r.value == t'[id]
    ensures id in t ==> t' == t && r == Ok(t[id])
    ensures id !in t ==> t'[id].nameInParent == FirstName(name)
    ensures id !in t && r.Ok? ==> PocKindOf(g, id, name) == Ok(t'[id].kind)
    ensures id !in t && PocKindOf(g, id, name).Err? ==> r.Err?
    ensures r.Ok? ==> PocClassified(t, t')
    decreases |g.Keys - t.Keys|, 4
  {
    if id in t {
      return t, Ok(t[id]);
    }
    var info := PocInfo(FirstName(name), OwnName(g[id]), PocPending);
    PocClosedSet(t, id, info);
    var t1 := t[id := info];
    t', r := PocExpand(g, t1, id, name, t.Keys);
    KeepsButNew(t, t1, t', id);
    if r.Ok? {
      PocClassifiedNew(t, t1, t', id);
    }
  }

  /** What the walk below a new entry keeps of the table before the entry
      was stored. */
  lemma KeepsButNew(t: PocTable, t1: PocTable, t2: PocTable, id: ClassId)
    requires id !in t && id in t1 && t1 == t[id := t1[id]] && KeepsBut(t1, t2, id)
    ensures Keeps(t, t2)
  {
  }

  /** A nested call of the walk, as the loops below see it. */
  method PocVisit(g: Graph, t: PocTable, id: ClassId, name: Option<string>)
      returns (t': PocTable, r: Result<PocInfo>)
    requires WellFormed(g) && PocValid(g, t) && id in g
    ensures id in t' && PocValid(g, t') && Keeps(t, t')
    ensures r.Ok? ==> PocClassified(t, t')
    decreases |g.Keys - t.Keys|, 5
  {
    t', r := PocSearchIn(g, t, id, name);
  }

  /** Sets the kind of a stored entry whose references are entries. */
  method PocFill(g: Graph, t: PocTable, id: ClassId, k: PocKind) returns (t': PocTable)
    requires PocValid(g, t) && id in t && PocRefsIn(k, t.Keys)
    ensures PocValid(g, t') && t' == t[id := t[id].(kind := k)]
  {
    PocClosedSet(t, id, t[id].(kind := k));
    t' := t[id := t[id].(kind := k)];
  }

  /** The walk below an object met for the first time, whose entry has
      just been stored. */
  method PocExpand(g: Graph, t: PocTable, id: ClassId, name: Option<string>, ghost entry: set<ClassId>)
      returns (t': PocTable, r: Result<PocInfo>)
    requires WellFormed(g) && PocValid(g, t) && id in g && id in t && id !in entry && entry <= t.Keys
    requires t[id].kind == PocPending
    ensures id in t' && PocValid(g, t') && KeepsBut(t, t', id)
    ensures r.Ok? ==> r.value == t'[id] && PocKindOf(g, id, name) == Ok(t'[id].kind)
    ensures PocKindOf(g, id, name).Err? ==> r.Err?
    ensures r.Ok? ==> PocClassified(t, t')
    decreases |g.Keys - entry|, 3
  {
    var e := g[id];
    var regex := AsRegex(e);
    t' := t;
    var k;
    if regex.Some? && regex.value != "" {
      k := PocRegex(name, regex.value);
    } else if e.MetaAttr? {
      assert Refs(e)[0] == e.cls;
      Shrinks(g.Keys, entry, t.Keys, id);
      var sub;
      t', sub := PocVisit(g, t', e.cls, name);
      if sub.Err? {
        KeepsIsKeepsBut(t, t', id);
        return t', Err(sub.error);
      }
      k := PocSelect(e.mult, e.cls);
    } else if e.attrs.None? {
      KeepsIsKeepsBut(t, t', id);
      return t', Err(AttributeError);
    } else {
      t', r := PocExpandClass(g, t, id, name, entry);
      return t', r;
    }
    KeepsFill(t, t', id, k);
    PocClassifiedFill(t, t', id, k);
    t' := PocFill(g, t', id, k);
    return t', Ok(t'[id]);
  }

  /** The walk below a class with `_tx_attrs` that is not a regex rule. */
  method PocExpandClass(g: Graph, t: PocTable, id: ClassId, name: Option<string>, ghost entry: set<ClassId>)
      returns (t': PocTable, r: Result<PocInfo>)
    requires WellFormed(g) && PocValid(g, t) && id in g && id in t && id !in entry && entry <= t.Keys
    requires t[id].kind == PocPending
    requires g[id].MetaClass? && g[id].attrs.Some? && !(AsRegexOf(g[id]).Some? && AsRegexOf(g[id]).value != "")
    ensures id in t' && PocValid(g, t') && KeepsBut(t, t', id)
    ensures r.Ok? ==> r.value == t'[id] && PocKindOf(g, id, name) == Ok(t'[id].kind)
    ensures PocKindOf(g, id, name).Err? ==> r.Err?
    ensures r.Ok? ==> PocClassified(t, t')
    decreases |g.Keys - entry|, 2
  {
    var e := g[id];
    t' := t;
    var k;
    if e.attrs.value == [] && e.inhBy != [] {
      assert forall i :: 0 <= i < |e.inhBy| ==> e.inhBy[i] == Refs(e)[i] by {
        assert AttrTargets(e.attrs.value) == [];
      }
      var walked;
      t', walked := PocWalkAll(g, t', id, e.inhBy, name, entry);
      if walked.Err? {
        KeepsIsKeepsBut(t, t', id);
        return t', Err(walked.error);
      }
      k := PocChoice(e.inhBy);
    } else if e.name in BaseTypes {
      k := PocType;
    } else if e.pegRule.None? {
      KeepsIsKeepsBut(t, t', id);
      return t', Err(AttributeError);
    } else {
      var s := PocRender(e.pegRule.value);
      if s.Err? {
        KeepsIsKeepsBut(t, t', id);
        return t', Err(s.error);
      }
      assert forall j :: 0 <= j < |e.attrs.value| ==> e.attrs.value[j].meta == Refs(e)[j];
      t', r := PocWalkAttrs(g, t', id, e.attrs.value, s.value, entry);
      return t', r;
    }
    KeepsFill(t, t', id, k);
    PocClassifiedFill(t, t', id, k);
    t' := PocFill(g, t', id, k);
    return t', Ok(t'[id]);
  }

  /** The walk of each subclass of a raw choice, in order. */
  method PocWalkAll(g: Graph, t: PocTable, id: ClassId, subs: seq<ClassId>, name: Option<string>,
                    ghost entry: set<ClassId>) returns (t': PocTable, r: Result<()>)
    requires WellFormed(g) && PocValid(g, t) && id in t && id !in entry && entry <= t.Keys
    requires forall i :: 0 <= i < |subs| ==> subs[i] in g
    ensures PocValid(g, t') && Keeps(t, t')
    ensures r.Ok? ==> forall i :: 0 <= i < |subs| ==> subs[i] in t'
    ensures r.Ok? ==> PocClassified(t, t')
    decreases |g.Keys - entry|, 0
  {
    t' := t;
    var i := 0;
    while i < |subs|
      invariant 0 <= i <= |subs|
      invariant PocValid(g, t') && Keeps(t, t') && PocClassified(t, t')
      invariant forall j :: 0 <= j < i ==> subs[j] in t'
      decreases |subs| - i
    {
      ShrinksNot(g.Keys, t.Keys, t'.Keys);
      Shrinks(g.Keys, entry, t.Keys, id);
      var t0 := t';
      var sub;
      t', sub := PocVisit(g, t', subs[i], name);
      if sub.Err? {
        return t', Err(sub.error);
      }
      AllIn(subs, i, t0.Keys, t'.Keys);
      PocClassifiedKeeps(t, t0, t');
      i := i + 1;
    }
    return t', Ok(());
  }

  /** The regular-rule branch: the entry gets its text, then each
      attribute is walked under its own name and appended to the
      children. */
  method PocWalkAttrs(g: Graph, t: PocTable, id: ClassId, attrs: seq<Attr>, text: string,
                      ghost entry: set<ClassId>) returns (t': PocTable, r: Result<PocInfo>)
    requires WellFormed(g) && PocValid(g, t) && id in t && id !in entry && entry <= t.Keys
    requires forall j :: 0 <= j < |attrs| ==> attrs[j].meta in g
    requires t[id].kind == PocPending
    ensures id in t' && PocValid(g, t') && KeepsBut(t, t', id)
    ensures r.Ok? ==> r.value == t'[id] && t'[id].kind == PocRule(AttrPairs(attrs), text)
    ensures r.Ok? ==> PocClassified(t, t')
    decreases |g.Keys - entry|, 1
  {
    var pairs := AttrPairs(attrs);
    t' := PocFill(g, t, id, PocRule(pairs[..0], text));
    var i := 0;
    while i < |attrs|
      invariant 0 <= i <= |attrs|
      invariant id in t' && PocValid(g, t') && KeepsBut(t, t', id) && PocClassified(t, t')
      invariant t'[id].kind == PocRule(pairs[..i], text)
      decreases |attrs| - i
    {
      var t0 := t';
      var ok;
      t', ok := PocWalkAttr(g, t, t', id, attrs, pairs, i, text, entry);
      if ok.Err? {
        return t', Err(ok.error);
      }
      PocClassifiedKeepsBut(t, t0, t', id);
      i := i + 1;
    }
    assert pairs[..i] == pairs;
    return t', Ok(t'[id]);
  }

  /** One attribute of the regular-rule branch: walked under its own name,
      then appended to the children. */
  method PocWalkAttr(g: Graph, t: PocTable, t0: PocTable, id: ClassId, attrs: seq<Attr>,
                     pairs: seq<(string, ClassId)>, i: nat, text: string, ghost entry: set<ClassId>)
      returns (t': PocTable, r: Result<()>)
    requires WellFormed(g) && PocValid(g, t0) && id in t && id !in entry && entry <= t.Keys
    requires i < |attrs| && attrs[i].meta in g && pairs == AttrPairs(attrs)
    requires id in t0 && KeepsBut(t, t0, id) && t0[id].kind == PocRule(pairs[..i], text)
    ensures id in t' && PocValid(g, t') && KeepsBut(t, t', id)
    ensures r.Ok? ==> t'[id].kind == PocRule(pairs[..i + 1], text)
    ensures r.Ok? ==> KeepsBut(t0, t', id) && PocClassified(t0, t')
    decreases |g.Keys - entry|, 0
  {
    ShrinksNot(g.Keys, t.Keys, t0.Keys);
    Shrinks(g.Keys, entry, t.Keys, id);
    var sub;
    t', sub := PocVisit(g, t0, attrs[i].meta, Some(attrs[i].name));
    if sub.Err? {
      KeepsButStep(t, t0, t', id);
      return t', Err(sub.error);
    }
    PocChildAdded(t0[id].kind, pairs, i, text, t0.Keys, t'.Keys);
    KeepsButFill(t, t0, t', id, PocRule(pairs[..i + 1], text));
    KeepsFill(t0, t', id, PocRule(pairs[..i + 1], text));
    PocClassifiedFill(t0, t', id, PocRule(pairs[..i + 1], text));
    t' := PocFill(g, t', id, PocRule(pairs[..i + 1], text));
    r := Ok(());
  }

  lemma PocChildAdded(k: PocKind, cs: seq<(string, ClassId)>, i: nat, text: string, a: set<ClassId>, b: set<ClassId>)
    requires i < |cs| && k == PocRule(cs[..i], text) && PocRefsIn(k, a) && a <= b && cs[i].1 in b
    ensures PocRefsIn(PocRule(cs[..i + 1], text), b)
  {
    assert cs[..i + 1] == cs[..i] + [cs[i]];
  }

  /** The shared `treated_classes` table of poc.py's walk over one
      metamodel whose references resolve. */
  class PocStructureTable {
    const g: Graph
    var treated: PocTable

    ghost predicate Valid()
      reads this
    {
      WellFormed(g) && PocValid(g, treated)
    }

    constructor (g: Graph)
      requires WellFormed(g)
      ensures Valid() && this.g == g && treated == map[]
    {
      this.g := g;
      treated := map[];
    }

    /** One top-level call `search_for_structure_info(id, name=name)`. */
    method Search(id: ClassId, name: Option<string>) returns (r: Result<PocInfo>)
      requires Valid() && id in g
      modifies this
      ensures id in treated && Valid() && Keeps(old(treated), treated)
      ensures r.Ok? ==> r.value == treated[id]
      ensures id in old(treated) ==> treated == old(treated) && r == Ok(treated[id])
      ensures id !in old(treated) ==> treated[id].nameInParent == FirstName(name)
      ensures id !in old(treated) && r.Ok? ==> PocKindOf(g, id, name) == Ok(treated[id].kind)
      ensures id !in old(treated) && PocKindOf(g, id, name).Err? ==> r.Err?
      ensures r.Ok? ==> PocClassified(old(treated), treated)
    {
      treated, r := PocSearchIn(g, treated, id, name);
    }
  }
}
