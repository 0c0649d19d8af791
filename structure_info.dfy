/** `search_for_structure_info` (textx_dsldoc/render_utils.py): the
    memoised walk of a textX metamodel into a table holding one entry per
    class or attribute object met.

    Python's result dictionaries hold each other (the entry of an attribute
    holds its target's entry, a rule's entry its attributes' entries), and
    the entry returned for a class is the very dictionary stored in
    `treated_classes`.  Here the table maps each object's `ClassId` to an
    `Info`, and entries refer to each other by `ClassId`, which keeps that
    sharing: what a later visit adds to an entry is seen by every entry
    that refers to it. */
module StructureInfo {
  import opened Common
  import opened PyValues
  import opened Peg
  import opened RenderUtils
  import opened TaggedTree
  import opened SequenceDoc

  /** The names `search_for_structure_info` records as base types. */
  const BaseTypes: set<string> := {"STRING", "INT", "FLOAT", "ID", "BOOL", "NUMBER"}

  /** Which keys an entry has besides `'names in parent'` and `'name'`. */
  datatype Kind =
      /** inserted before the walk below it; not filled yet */
    | Pending
      /** `'regex'`: the attribute name it was reached by, and the pattern */
    | RegexInfo(attrName: Option<string>, regex: string)
      /** `'select'`: multiplicity and the target class's entry */
    | SelectInfo(mult: string, target: ClassId)
      /** `'choice'`, `'str'` (`('or', names)`) and `'doc'` */
    | ChoiceInfo(subs: seq<ClassId>, names: seq<string>, doc: Option<string>)
      /** `'type'` */
    | TypeInfo
      /** `'children'` (attribute name and entry), `'str'` and `'doc'` */
    | RuleInfo(children: seq<(string, ClassId)>, str: PyVal, doc: Option<string>)

  datatype Info = Info(namesInParent: set<string>, name: Option<string>, kind: Kind)

  type Table = map<ClassId, Info>

  /** `hasattr(c, '__name__')`: classes have a name, attribute objects not. */
  function OwnName(e: Entity): (r: Option<string>)
    ensures r.Some? <==> e.MetaClass?
  {
    if e.MetaClass? then Some(e.name) else None
  }

  /** Python truthiness of the `name` argument. */
  predicate NameGiven(name: Option<string>) {
    name.Some? && name.value != ""
  }

  /** `if name: outdict['names in parent'].add(name)`. */
  function WithName(i: Info, name: Option<string>): (r: Info)
    ensures r.name == i.name && r.kind == i.kind
    ensures r.namesInParent == i.namesInParent + (if NameGiven(name) then {name.value} else {})
  {
    if NameGiven(name) then i.(namesInParent := i.namesInParent + {name.value}) else i
  }

  /** The entries an entry refers to are among `keys`. */
  predicate RefsIn(k: Kind, keys: set<ClassId>) {
    match k
    case SelectInfo(_, t) => t in keys
    case ChoiceInfo(subs, _, _) => forall i :: 0 <= i < |subs| ==> subs[i] in keys
    case RuleInfo(cs, _, _) => forall i :: 0 <= i < |cs| ==> cs[i].1 in keys
    case _ => true
  }

  lemma RefsInMono(k: Kind, a: set<ClassId>, b: set<ClassId>)
    requires RefsIn(k, a) && a <= b
    ensures RefsIn(k, b)
  {
  }

  /** Every entry's references are entries of the table. */
  predicate Closed(t: Table) {
    forall k :: k in t ==> RefsIn(t[k].kind, t.Keys)
  }

  /** Storing an entry whose references are entries keeps the table closed. */
  lemma ClosedSet(t: Table, id: ClassId, info: Info)
    requires Closed(t) && RefsIn(info.kind, t.Keys + {id})
    ensures Closed(t[id := info])
  {
    var u := t[id := info];
    forall k | k in u ensures RefsIn(u[k].kind, u.Keys) {
      if k != id {
        RefsInMono(t[k].kind, t.Keys, u.Keys);
      } else {
        RefsInMono(info.kind, t.Keys + {id}, u.Keys);
      }
    }
  }

  /** `after` keeps every entry of `before` but `id`, with its name and
      kind; only the names in parent may have grown.  `id` keeps its name
      and its names in parent. */
  predicate GrowsBut(before: Table, after: Table, id: ClassId) {
    before.Keys <= after.Keys &&
    (id in before ==> after[id].name == before[id].name &&
                      before[id].namesInParent <= after[id].namesInParent) &&
    forall k :: k in before && k != id ==>
      after[k].name == before[k].name && after[k].kind == before[k].kind &&
      before[k].namesInParent <= after[k].namesInParent
  }

  /** `after` keeps every entry of `before`, with its name and kind; only
      the names in parent may have grown. */
  predicate Grows(before: Table, after: Table) {
    before.Keys <= after.Keys &&
    forall k :: k in before ==>
      after[k].name == before[k].name && after[k].kind == before[k].kind &&
      before[k].namesInParent <= after[k].namesInParent
  }

  /** `treated_classes[subclass]['name']` for each subclass, once each has
      an entry: a KeyError for an attribute object. */
  function SubNames(g: Graph, subs: seq<ClassId>): (r: Result<seq<string>>)
    requires forall i :: 0 <= i < |subs| ==> subs[i] in g
    ensures r.Ok? <==> forall i :: 0 <= i < |subs| ==> g[subs[i]].MetaClass?
    ensures r.Ok? ==> |r.value| == |subs| && forall i :: 0 <= i < |subs| ==> r.value[i] == g[subs[i]].name
    ensures r.Err? ==> r.error == KeyError
  {
    if subs == [] then Ok([])
    else if !g[subs[0]].MetaClass? then Err(KeyError)
    else
      var rest := SubNames(g, subs[1..]);
      assert forall i :: 1 <= i < |subs| ==> subs[1..][i - 1] == subs[i];
      if rest.Err? then Err(KeyError) else Ok([g[subs[0]].name] + rest.value)
  }

  /** The attributes of a class as `'children'` pairs. */
  function AttrPairs(attrs: seq<Attr>): (r: seq<(string, ClassId)>)
    ensures |r| == |attrs|
    ensures forall i :: 0 <= i < |attrs| ==> r[i] == (attrs[i].name, attrs[i].meta)
  {
    seq(|attrs|, i requires 0 <= i < |attrs| => (attrs[i].name, attrs[i].meta))
  }

  /** The kind the walk gives an object it meets for the first time, or the
      error it raises on the object itself: a class without `_tx_attrs`
      (which only an attribute object may lack here), a rule without a peg
      rule, a peg rule with an unknown node kind, a choice over an
      attribute object. */
  function KindOf(g: Graph, id: ClassId, name: Option<string>): (r: Result<Kind>)
    requires WellFormed(g) && id in g
    ensures r.Ok? ==> RefsIn(r.value, g.Keys) && !r.value.Pending?
    ensures r.Ok? && r.value.RegexInfo? ==> AsRegexOf(g[id]) == Some(r.value.regex)
    ensures g[id].MetaAttr? ==> r == Ok(SelectInfo(g[id].mult, g[id].cls))
  {
    var e := g[id];
    assert forall k :: 0 <= k < |Refs(e)| ==> Refs(e)[k] in g;
    var regex := AsRegexOf(e);
    if regex.Some? && regex.value != "" then Ok(RegexInfo(name, regex.value))
    else if e.MetaAttr? then
      assert Refs(e)[0] == e.cls;
      Ok(SelectInfo(e.mult, e.cls))
    else if e.attrs.None? then Err(AttributeError)
    else if e.attrs.value == [] && e.inhBy != [] then
      assert forall i :: 0 <= i < |e.inhBy| ==> e.inhBy[i] == Refs(e)[|AttrTargets(e.attrs.value)| + i];
      var names :- SubNames(g, e.inhBy);
      Ok(ChoiceInfo(e.inhBy, names, DocFromClass(e.doc)))
    else if e.name in BaseTypes then Ok(TypeInfo)
    else if e.pegRule.None? then Err(AttributeError)
    else
      var s :- Render(e.pegRule.value);
      assert forall i :: 0 <= i < |e.attrs.value| ==> e.attrs.value[i].meta == Refs(e)[i];
      Ok(RuleInfo(AttrPairs(e.attrs.value), s, DocFromClass(e.doc)))
  }

  /** The table's entries are objects of the metamodel under their own
      names, and refer to entries. */
  predicate ValidTable(g: Graph, t: Table) {
    t.Keys <= g.Keys && Closed(t) &&
    forall k :: k in t ==> t[k].name == OwnName(g[k])
  }

  /** Every entry a successful walk added to `before` has been classified:
      none is left pending. */
  predicate Classified(before: Table, after: Table) {
    forall c :: c in after && c !in before ==> !after[c].kind.Pending?
  }

  lemma ClassifiedGrows(a: Table, b: Table, c: Table)
    requires Classified(a, b) && Grows(b, c) && Classified(b, c)
    ensures Classified(a, c)
  {
  }

  lemma ClassifiedGrowsBut(a: Table, b: Table, c: Table, id: ClassId)
    requires Classified(a, b) && GrowsBut(b, c, id) && Classified(b, c) && id in a
    ensures Classified(a, c)
  {
  }

  /** Filling an entry of `before` after a successful walk keeps both the
      old entries and the classification of the new ones. */
  lemma FillKeeps(before: Table, after: Table, id: ClassId, k: Kind)
    requires Grows(before, after) && Classified(before, after) && id in before
    ensures GrowsBut(before, after[id := after[id].(kind := k)], id)
    ensures Classified(before, after[id := after[id].(kind := k)])
  {
  }

  lemma ClassifiedFill(a: Table, b: Table, id: ClassId, k: Kind)
    requires Classified(a, b) && id in a && id in b
    ensures Classified(a, b[id := b[id].(kind := k)])
  {
  }

  /** The new entry itself, once classified, and what the walk below it
      added. */
  lemma ClassifiedNew(t: Table, t1: Table, t2: Table, id: ClassId)
    requires id !in t && id in t1 && t1 == t[id := t1[id]] && Classified(t1, t2)
    requires id in t2 && !t2[id].kind.Pending?
    ensures Classified(t, t2)
  {
  }

  /** `search_for_structure_info(id, name=name)` on the table `t`, giving
      the table after the call.  A revisit only adds `name` to the stored
      entry and returns it; a first visit stores the entry before walking
      below it, so no object is expanded twice and the walk ends on cyclic
      metamodels. */
  method SearchIn(g: Graph, t: Table, id: ClassId, name: Option<string>) returns (t': Table, r: Result<Info>)
    requires WellFormed(g) && ValidTable(g, t) && id in g
    ensures id in t' && ValidTable(g, t') && Grows(t, t')
    ensures r.Ok? ==> r.value == t'[id]
    ensures id in t ==> t' == t[id := WithName(t[id], name)] && r == Ok(t'[id])
    ensures id !in t && NameGiven(name) ==> name.value in t'[id].namesInParent
    ensures id !in t && r.Ok? ==> KindOf(g, id, name) == Ok(t'[id].kind)
    ensures id !in t && KindOf(g, id, name).Err? ==> r.Err?
    ensures r.Ok? ==> Classified(t, t')
    decreases |g.Keys - t.Keys|, 5
  {
    if id in t {
      StoreValid(g, t, id, WithName(t[id], name));
      t' := t[id := WithName(t[id], name)];
      RevisitGrows(t, id, name);
      return t', Ok(t'[id]);
    }
    var stored := WithName(Info({}, OwnName(g[id]), Pending), name);
    StoreValid(g, t, id, stored);
    var t1 := t[id := stored];
    t', r := Expand(g, t1, id, name, t.Keys);
    StoredThenGrown(t, t1, t', id, stored);
    if r.Ok? {
      ClassifiedNew(t, t1, t', id);
    }
  }

  /** Storing an entry for an object of the metamodel, under its own
      name and referring to entries, keeps the table valid. */
  lemma StoreValid(g: Graph, t: Table, id: ClassId, info: Info)
    requires ValidTable(g, t) && id in g && info.name == OwnName(g[id]) && RefsIn(info.kind, t.Keys + {id})
    ensures ValidTable(g, t[id := info])
  {
    ClosedSet(t, id, info);
  }

  /** A revisit changes only the names in parent of the entry. */
  lemma RevisitGrows(t: Table, id: ClassId, name: Option<string>)
    requires id in t
    ensures Grows(t, t[id := WithName(t[id], name)])
  {
  }

  /** An entry stored for a new object and then filled: every earlier
      entry is kept, and the new one keeps the names stored with it. */
  lemma StoredThenGrown(t: Table, t1: Table, t': Table, id: ClassId, stored: Info)
    requires id !in t && t1 == t[id := stored] && GrowsBut(t1, t', id)
    ensures Grows(t, t') && id in t' && stored.namesInParent <= t'[id].namesInParent
  {
  }

  /** A nested call of the walk, as the loops below see it: only the
      table's invariant and growth matter to them. */
  method Visit(g: Graph, t: Table, id: ClassId, name: Option<string>) returns (t': Table, r: Result<Info>)
    requires WellFormed(g) && ValidTable(g, t) && id in g
    ensures id in t' && ValidTable(g, t') && Grows(t, t')
    ensures r.Ok? ==> Classified(t, t')
    decreases |g.Keys - t.Keys|, 6
  {
    t', r := SearchIn(g, t, id, name);
  }

  /** The walk below an object met for the first time, whose entry has
      just been stored. */
  method Expand(g: Graph, t: Table, id: ClassId, name: Option<string>, ghost entry: set<ClassId>)
      returns (t': Table, r: Result<Info>)
    requires WellFormed(g) && ValidTable(g, t) && id in g && id in t && id !in entry && entry <= t.Keys
    requires t[id].kind == Pending
    ensures id in t' && ValidTable(g, t') && GrowsBut(t, t', id)
    ensures r.Ok? ==> r.value == t'[id] && KindOf(g, id, name) == Ok(t'[id].kind)
    ensures KindOf(g, id, name).Err? ==> r.Err?
    ensures r.Ok? ==> Classified(t, t')
    decreases |g.Keys - entry|, 4
  {
    var e := g[id];
    var regex := AsRegex(e);
    t' := t;
    var k;
    if regex.Some? && regex.value != "" {
      k := RegexInfo(name, regex.value);
    } else if e.MetaAttr? {
      assert Refs(e)[0] == e.cls;
      Shrinks(g.Keys, entry, t.Keys, id);
      var sub;
      t', sub := Visit(g, t', e.cls, name);
      if sub.Err? {
        GrowsIsGrowsBut(t, t', id);
        return t', sub;
      }
      k := SelectInfo(e.mult, e.cls);
    } else if e.attrs.None? {
      GrowsIsGrowsBut(t, t', id);
      return t', Err(AttributeError);
    } else {
      t', r := ExpandClass(g, t, id, name, entry);
      return t', r;
    }
    FillKeeps(t, t', id, k);
    t' := Fill(g, t', id, k);
    return t', Ok(t'[id]);
  }

  /** The walk below a class with `_tx_attrs` that is not a regex rule: a
      raw choice, a base type, or a rule over its attributes. */
  method ExpandClass(g: Graph, t: Table, id: ClassId, name: Option<string>, ghost entry: set<ClassId>)
      returns (t': Table, r: Result<Info>)
    requires WellFormed(g) && ValidTable(g, t) && id in g && id in t && id !in entry && entry <= t.Keys
    requires t[id].kind == Pending
    requires g[id].MetaClass? && g[id].attrs.Some? && !(AsRegexOf(g[id]).Some? && AsRegexOf(g[id]).value != "")
    ensures id in t' && ValidTable(g, t') && GrowsBut(t, t', id)
    ensures r.Ok? ==> r.value == t'[id] && KindOf(g, id, name) == Ok(t'[id].kind)
    ensures KindOf(g, id, name).Err? ==> r.Err?
    ensures r.Ok? ==> Classified(t, t')
    decreases |g.Keys - entry|, 3
  {
    var e := g[id];
    if e.attrs.value == [] && e.inhBy != [] {
      t', r := ExpandChoice(g, t, id, name, entry);
    } else if e.name in BaseTypes {
      GrowsFill(t, t, id, TypeInfo);
      t' := Fill(g, t, id, TypeInfo);
      r := Ok(t'[id]);
    } else if e.pegRule.None? {
      t', r := t, Err(AttributeError);
    } else {
      t', r := ExpandRule(g, t, id, name, entry);
    }
  }

  /** A raw choice: each subclass is walked, then the entry gets the
      subclasses, their names and the docstring. */
  method ExpandChoice(g: Graph, t: Table, id: ClassId, name: Option<string>, ghost entry: set<ClassId>)
      returns (t': Table, r: Result<Info>)
    requires WellFormed(g) && ValidTable(g, t) && id in g && id in t && id !in entry && entry <= t.Keys
    requires t[id].kind == Pending
    requires g[id].MetaClass? && g[id].attrs.Some? && !(AsRegexOf(g[id]).Some? && AsRegexOf(g[id]).value != "")
    requires g[id].attrs.value == [] && g[id].inhBy != []
    ensures id in t' && ValidTable(g, t') && GrowsBut(t, t', id)
    ensures r.Ok? ==> r.value == t'[id] && KindOf(g, id, name) == Ok(t'[id].kind)
    ensures KindOf(g, id, name).Err? ==> r.Err?
    ensures r.Ok? ==> Classified(t, t')
    decreases |g.Keys - entry|, 2
  {
    var e := g[id];
    assert forall i :: 0 <= i < |e.inhBy| ==> e.inhBy[i] == Refs(e)[i] by {
      assert AttrTargets(e.attrs.value) == [];
    }
    var walked;
    t', walked := WalkAll(g, t, id, e.inhBy, name, entry);
    if walked.Err? {
      GrowsIsGrowsBut(t, t', id);
      return t', Err(walked.error);
    }
    var names := SubNames(g, e.inhBy);
    if names.Err? {
      GrowsIsGrowsBut(t, t', id);
      return t', Err(KeyError);
    }
    var k := ChoiceInfo(e.inhBy, names.value, DocFromClass(e.doc));
    FillKeeps(t, t', id, k);
    t' := Fill(g, t', id, k);
    return t', Ok(t'[id]);
  }

  /** A regular rule: its peg rule is rendered, then its attributes are
      walked. */
  method ExpandRule(g: Graph, t: Table, id: ClassId, name: Option<string>, ghost entry: set<ClassId>)
      returns (t': Table, r: Result<Info>)
    requires WellFormed(g) && ValidTable(g, t) && id in g && id in t && id !in entry && entry <= t.Keys
    requires t[id].kind == Pending
    requires g[id].MetaClass? && g[id].attrs.Some? && !(AsRegexOf(g[id]).Some? && AsRegexOf(g[id]).value != "")
    requires !(g[id].attrs.value == [] && g[id].inhBy != []) && g[id].name !in BaseTypes && g[id].pegRule.Some?
    ensures id in t' && ValidTable(g, t') && GrowsBut(t, t', id)
    ensures r.Ok? ==> r.value == t'[id] && KindOf(g, id, name) == Ok(t'[id].kind)
    ensures KindOf(g, id, name).Err? ==> r.Err?
    ensures r.Ok? ==> Classified(t, t')
    decreases |g.Keys - entry|, 2
  {
    var e := g[id];
    var s := Render(e.pegRule.value);
    if s.Err? {
      return t, Err(s.error);
    }
    assert forall j :: 0 <= j < |e.attrs.value| ==> e.attrs.value[j].meta == Refs(e)[j];
    t', r := WalkAttrs(g, t, id, e.attrs.value, s.value, DocFromClass(e.doc), entry);
  }

  lemma GrowsIsGrowsBut(a: Table, b: Table, id: ClassId)
    requires Grows(a, b)
    ensures GrowsBut(a, b, id)
  {
  }

  lemma GrowsFill(a: Table, b: Table, id: ClassId, k: Kind)
    requires Grows(a, b) && id in a
    ensures GrowsBut(a, b[id := b[id].(kind := k)], id)
  {
  }

  /** Sets the kind of a stored entry whose references are entries. */
  method Fill(g: Graph, t: Table, id: ClassId, k: Kind) returns (t': Table)
    requires ValidTable(g, t) && id in t && RefsIn(k, t.Keys)
    ensures ValidTable(g, t') && t' == t[id := t[id].(kind := k)]
  {
    ClosedSet(t, id, t[id].(kind := k));
    t' := t[id := t[id].(kind := k)];
  }

  /** `search_for_structure_info(sub, name=name)` for each subclass of a
      raw choice, in order. */
  method WalkAll(g: Graph, t: Table, id: ClassId, subs: seq<ClassId>, name: Option<string>, ghost entry: set<ClassId>)
      returns (t': Table, r: Result<()>)
    requires WellFormed(g) && ValidTable(g, t) && id in t && id !in entry && entry <= t.Keys
    requires forall i :: 0 <= i < |subs| ==> subs[i] in g
    ensures ValidTable(g, t') && Grows(t, t')
    ensures r.Ok? ==> forall i :: 0 <= i < |subs| ==> subs[i] in t'
    ensures r.Ok? ==> Classified(t, t')
    decreases |g.Keys - entry|, 0
  {
    t' := t;
    var i := 0;
    while i < |subs|
      invariant 0 <= i <= |subs|
      invariant ValidTable(g, t') && Grows(t, t') && Classified(t, t')
      invariant forall j :: 0 <= j < i ==> subs[j] in t'
      decreases |subs| - i
    {
      ShrinksNot(g.Keys, t.Keys, t'.Keys);
      Shrinks(g.Keys, entry, t.Keys, id);
      var t0 := t';
      var sub;
      t', sub := Visit(g, t', subs[i], name);
      if sub.Err? {
        return t', Err(sub.error);
      }
      AllIn(subs, i, t0.Keys, t'.Keys);
      ClassifiedGrows(t, t0, t');
      i := i + 1;
    }
    return t', Ok(());
  }

  /** The regular-rule branch: the entry gets its tagged tree and
      docstring, then each attribute is walked (under its own name) and
      appended to the entry's children. */
  method WalkAttrs(g: Graph, t: Table, id: ClassId, attrs: seq<Attr>, tree: PyVal, doc: Option<string>,
                   ghost entry: set<ClassId>) returns (t': Table, r: Result<Info>)
    requires WellFormed(g) && ValidTable(g, t) && id in t && id !in entry && entry <= t.Keys
    requires forall j :: 0 <= j < |attrs| ==> attrs[j].meta in g
    requires t[id].kind == Pending
    ensures id in t' && ValidTable(g, t') && GrowsBut(t, t', id)
    ensures r.Ok? ==> r.value == t'[id] && t'[id].kind == RuleInfo(AttrPairs(attrs), tree, doc)
    ensures r.Ok? ==> Classified(t, t')
    decreases |g.Keys - entry|, 1
  {
    var pairs := AttrPairs(attrs);
    t' := Fill(g, t, id, RuleInfo(pairs[..0], tree, doc));
    var i := 0;
    while i < |attrs|
      invariant 0 <= i <= |attrs|
      invariant id in t' && ValidTable(g, t') && GrowsBut(t, t', id) && Classified(t, t')
      invariant t'[id].kind == RuleInfo(pairs[..i], tree, doc)
      decreases |attrs| - i
    {
      var t0 := t';
      var ok;
      t', ok := WalkAttr(g, t, t', id, attrs, pairs, i, tree, doc, entry);
      if ok.Err? {
        return t', Err(ok.error);
      }
      ClassifiedGrowsBut(t, t0, t', id);
      i := i + 1;
    }
    assert pairs[..i] == pairs;
    return t', Ok(t'[id]);
  }

  /** One attribute of the regular-rule branch: walked under its own name,
      then appended to the entry's children. */
  method WalkAttr(g: Graph, t: Table, t0: Table, id: ClassId, attrs: seq<Attr>, pairs: seq<(string, ClassId)>,
                  i: nat, tree: PyVal, doc: Option<string>, ghost entry: set<ClassId>)
      returns (t': Table, r: Result<()>)
    requires WellFormed(g) && ValidTable(g, t0) && id in t && id !in entry && entry <= t.Keys
    requires i < |attrs| && attrs[i].meta in g && pairs == AttrPairs(attrs)
    requires id in t0 && GrowsBut(t, t0, id) && t0[id].kind == RuleInfo(pairs[..i], tree, doc)
    ensures id in t' && ValidTable(g, t') && GrowsBut(t, t', id)
    ensures r.Ok? ==> t'[id].kind == RuleInfo(pairs[..i + 1], tree, doc)
    ensures r.Ok? ==> GrowsBut(t0, t', id) && Classified(t0, t')
    decreases |g.Keys - entry|, 0
  {
    ShrinksNot(g.Keys, t.Keys, t0.Keys);
    Shrinks(g.Keys, entry, t.Keys, id);
    var sub;
    t', sub := Visit(g, t0, attrs[i].meta, Some(attrs[i].name));
    if sub.Err? {
      GrowsButGrows(t, t0, t', id);
      return t', Err(sub.error);
    }
    AddChild(g, t, t0, t', id, pairs, i, tree, doc);
    GrowsFill(t0, t', id, RuleInfo(pairs[..i + 1], tree, doc));
    ClassifiedFill(t0, t', id, RuleInfo(pairs[..i + 1], tree, doc));
    t' := Fill(g, t', id, RuleInfo(pairs[..i + 1], tree, doc));
    r := Ok(());
  }

  lemma AllIn(ids: seq<ClassId>, i: nat, a: set<ClassId>, b: set<ClassId>)
    requires i < |ids| && a <= b && ids[i] in b
    requires forall j :: 0 <= j < i ==> ids[j] in a
    ensures forall j :: 0 <= j < i + 1 ==> ids[j] in b
  {
  }

  lemma ChildAdded(k: Kind, cs: seq<(string, ClassId)>, i: nat, tree: PyVal, doc: Option<string>,
                   a: set<ClassId>, b: set<ClassId>)
    requires i < |cs| && k == RuleInfo(cs[..i], tree, doc) && RefsIn(k, a) && a <= b && cs[i].1 in b
    ensures RefsIn(RuleInfo(cs[..i + 1], tree, doc), b)
  {
    assert cs[..i + 1] == cs[..i] + [cs[i]];
  }

  /** One more attribute walked: the entry's children can take it, and
      every other entry is kept. */
  lemma AddChild(g: Graph, t: Table, t0: Table, t1: Table, id: ClassId, pairs: seq<(string, ClassId)>, i: nat,
                 tree: PyVal, doc: Option<string>)
    requires i < |pairs| && id in t0 && GrowsBut(t, t0, id) && Grows(t0, t1) && ValidTable(g, t0)
    requires t0[id].kind == RuleInfo(pairs[..i], tree, doc) && pairs[i].1 in t1
    ensures RefsIn(RuleInfo(pairs[..i + 1], tree, doc), t1.Keys)
    ensures GrowsBut(t, t1[id := t1[id].(kind := RuleInfo(pairs[..i + 1], tree, doc))], id)
  {
    ChildAdded(t0[id].kind, pairs, i, tree, doc, t0.Keys, t1.Keys);
    GrowsButFill(t, t0, t1, id, RuleInfo(pairs[..i + 1], tree, doc));
  }

  lemma GrowsButGrows(t: Table, a: Table, b: Table, id: ClassId)
    requires GrowsBut(t, a, id) && Grows(a, b) && id in a
    ensures GrowsBut(t, b, id)
  {
  }

  lemma GrowsButFill(t: Table, a: Table, b: Table, id: ClassId, k: Kind)
    requires GrowsBut(t, a, id) && Grows(a, b) && id in a
    ensures GrowsBut(t, b[id := b[id].(kind := k)], id)
  {
  }

  /** The shared `treated_classes` table of `search_for_structure_info`
      (its mutable default argument persists from call to call) over one
      metamodel whose references resolve. */
  class StructureTable {
    const g: Graph
    var treated: Table

    ghost predicate Valid()
      reads this
    {
      WellFormed(g) && ValidTable(g, treated)
    }

    constructor (g: Graph)
      requires WellFormed(g)
      ensures Valid() && this.g == g && treated == map[]
    {
      this.g := g;
      treated := map[];
    }

    /** One top-level call `search_for_structure_info(id, name=name)`. */
    method Search(id: ClassId, name: Option<string>) returns (r: Result<Info>)
      requires Valid() && id in g
      modifies this
      ensures id in treated && Valid() && Grows(old(treated), treated)
      ensures r.Ok? ==> r.value == treated[id]
      ensures id in old(treated) ==>
        treated == old(treated)[id := WithName(old(treated)[id], name)] && r == Ok(treated[id])
      ensures id !in old(treated) && NameGiven(name) ==> name.value in treated[id].namesInParent
      ensures id !in old(treated) && r.Ok? ==> KindOf(g, id, name) == Ok(treated[id].kind)
      ensures id !in old(treated) && KindOf(g, id, name).Err? ==> r.Err?
      ensures r.Ok? ==> Classified(old(treated), treated)
    {
      treated, r := SearchIn(g, treated, id, name);
    }
  }
}
