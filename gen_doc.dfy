/** `gen_doc` (textx_dsldoc/render_utils.py): the depth-first generation of
    Markdown from the table `search_for_structure_info` fills.  Each named
    entry is documented once: the set of names already written
    (`done_classes`, a mutable default argument shared by all calls)
    grows with every entry documented, and an entry whose name is in it
    yields nothing.  The lines the generator yields are collected; an
    exception raised part way makes the whole result that error, while the
    names added before it stay added. */
module GenDoc {
  import opened Common
  import opened PyValues
  import opened Peg
  import opened RenderUtils
  import opened SequenceDoc
  import opened StructureInfo

  /** The line `gen_doc` yields before each child's documentation. */
  const ChildBreak := "\n\n<br/>\n\n"

  /** The names of the table's entries. */
  function TableNames(t: Table): (r: set<string>)
    ensures forall k :: k in t && t[k].name.Some? ==> t[k].name.value in r
  {
    set k | k in t && t[k].name.Some? :: t[k].name.value
  }

  /** A choice's `'str'`: `('or', names)`. */
  function OrStr(names: seq<string>): (r: PyVal)
    ensures r.PyTuple? && |r.elems| == 2 && r.elems[0] == PyStr("or")
    ensures r.elems[1].PyTuple? && |r.elems[1].elems| == |names|
    ensures forall i :: 0 <= i < |names| ==> r.elems[1].elems[i] == PyStr(names[i])
  {
    PyTuple([PyStr("or"), PyTuple(seq(|names|, i requires 0 <= i < |names| => PyStr(names[i])))])
  }

  /** `if tree_model['doc']: yield tree_model['doc']`. */
  function DocLines(doc: Option<string>): (r: seq<string>)
    ensures r == [] <==> doc.None? || doc.value == ""
    ensures r != [] ==> r == [doc.value]
  {
    if doc.Some? && doc.value != "" then [doc.value] else []
  }

  /** Whether `gen_doc` documents the entry as a regex and walks no further:
      it has a `'regex'` key, or its name is a key of SPECIAL_REGEXES. */
  predicate AsRegexEntry(info: Info)
    requires info.name.Some?
  {
    info.kind.RegexInfo? || IsSpecialName(info.name.value)
  }

  /** The lines `gen_doc` yields for a named entry after its heading and
      before its children: the tagged tree's description, then the
      docstring when it is not empty.  An entry with neither `'regex'` nor
      `'str'` (a base type missing from SPECIAL_REGEXES, an attribute
      object, an entry whose walk failed) raises KeyError. */
  function EntryHead(env: Env, info: Info): (r: Result<seq<string>>)
    requires info.name.Some?
    ensures (!info.kind.RegexInfo? && !IsSpecialName(info.name.value) && !info.kind.RuleInfo? &&
             !info.kind.ChoiceInfo?) ==> r == Err(KeyError)
    ensures (info.kind.RuleInfo? || info.kind.ChoiceInfo?) && !IsSpecialName(info.name.value) && r.Ok? ==>
      |DocLines(info.kind.doc)| <= |r.value| &&
      r.value[|r.value| - |DocLines(info.kind.doc)|..] == DocLines(info.kind.doc)
  {
    if info.kind.RegexInfo? then Doc(env, PyTuple([PyStr("regex"), PyStr(info.kind.regex)]))
    else if IsSpecialName(info.name.value) then Doc(env, PyTuple([PyStr("special regex"), PyStr(info.name.value)]))
    else match info.kind
      case RuleInfo(_, s, doc) =>
        var lines :- Doc(env, s);
        Ok(lines + DocLines(doc))
      case ChoiceInfo(_, names, doc) =>
        var lines :- Doc(env, OrStr(names));
        Ok(lines + DocLines(doc))
      case _ => Err(KeyError)
  }

  /** The entries `gen_doc` recurses into, in order.  A rule's child is an
      attribute entry, replaced by the class it selects; an attribute entry
      without `'select'` stays a pair, and documenting a pair raises
      TypeError.  A choice's children are its subclasses' entries. */
  function Targets(t: Table, info: Info): (r: seq<Result<ClassId>>)
    requires info.name.Some? && Closed(t) && RefsIn(info.kind, t.Keys)
    ensures AsRegexEntry(info) ==> r == []
    ensures forall i :: 0 <= i < |r| && r[i].Ok? ==> r[i].value in t
    ensures forall i :: 0 <= i < |r| ==> r[i].Ok? || r[i] == Err(TypeError)
    ensures !AsRegexEntry(info) && info.kind.ChoiceInfo? ==>
      |r| == |info.kind.subs| && forall i :: 0 <= i < |r| ==> r[i] == Ok(info.kind.subs[i])
    ensures !AsRegexEntry(info) && info.kind.RuleInfo? ==> |r| == |info.kind.children|
  {
    if AsRegexEntry(info) then []
    else match info.kind
      case RuleInfo(cs, _, _) => Selected(t, cs)
      case ChoiceInfo(subs, _, _) => Wrapped(subs)
      case _ => []
  }

  /** What each attribute entry selects, or TypeError. */
  function Selected(t: Table, cs: seq<(string, ClassId)>): (r: seq<Result<ClassId>>)
    requires Closed(t) && forall i :: 0 <= i < |cs| ==> cs[i].1 in t
    ensures |r| == |cs|
    ensures forall i :: 0 <= i < |cs| ==>
      r[i] == if t[cs[i].1].kind.SelectInfo? then Ok(t[cs[i].1].kind.target) else Err(TypeError)
  {
    seq(|cs|, i requires 0 <= i < |cs| =>
      var k := t[cs[i].1].kind;
      if k.SelectInfo? then Ok(k.target) else Err(TypeError))
  }

  function Wrapped(ids: seq<ClassId>): (r: seq<Result<ClassId>>)
    ensures |r| == |ids| && forall i :: 0 <= i < |ids| ==> r[i] == Ok(ids[i])
  {
    seq(|ids|, i requires 0 <= i < |ids| => Ok(ids[i]))
  }

  /** The elements of a sequence. */
  function Elems(s: seq<string>): (r: set<string>)
    ensures forall i :: 0 <= i < |s| ==> s[i] in r
  {
    set i | 0 <= i < |s| :: s[i]
  }

  lemma ElemsOne(x: string)
    ensures Elems([x]) == {x}
  {
    assert [x][0] == x;
  }

  lemma ElemsConcat(a: seq<string>, b: seq<string>)
    ensures Elems(a + b) == Elems(a) + Elems(b)
  {
    forall x | x in Elems(a + b) ensures x in Elems(a) + Elems(b) {
      var i :| 0 <= i < |a + b| && (a + b)[i] == x;
      if i >= |a| {
        assert b[i - |a|] == x;
      }
    }
    forall x | x in Elems(a) ensures x in Elems(a + b) {
      var i :| 0 <= i < |a| && a[i] == x;
      assert (a + b)[i] == x;
    }
    forall x | x in Elems(b) ensures x in Elems(a + b) {
      var i :| 0 <= i < |b| && b[i] == x;
      assert (a + b)[|a| + i] == x;
    }
  }

  /** The names are distinct, and none of them is in `done`. */
  predicate Fresh(s: seq<string>, done: set<string>) {
    (forall i, j :: 0 <= i < j < |s| ==> s[i] != s[j]) &&
    forall i :: 0 <= i < |s| ==> s[i] !in done
  }

  /** What documenting a named entry whose name is not done yet gives: the
      name becomes done and is the first documented; the heading and the
      entry's own lines come first; an error in the entry's own lines stops
      the call before any child; an entry without children gives just
      those lines. */
  predicate Documents(env: Env, t: Table, id: ClassId, done: set<string>, done': set<string>,
                      r: Result<seq<string>>, documented: seq<string>)
    requires id in t && Closed(t) && t[id].name.Some?
  {
    var n := t[id].name.value;
    var head := EntryHead(env, t[id]);
    |documented| > 0 && documented[0] == n &&
    (head.Err? ==> done' == done + {n} && r == Err(head.error)) &&
    (r.Ok? ==> head.Ok? && |r.value| >= 1 + |head.value| && r.value[..1 + |head.value|] == ["# " + n] + head.value) &&
    (head.Ok? && Targets(t, t[id]) == [] ==> done' == done + {n} && r == Ok(["# " + n] + head.value))
  }

  /** `list(gen_doc(t[id], done_classes=done))` and the set of names done
      after it, with, as a ghost, the names documented by the call in the
      order their headings appear. */
  method GenDocIn(env: Env, t: Table, id: ClassId, done: set<string>)
      returns (done': set<string>, r: Result<seq<string>>, ghost documented: seq<string>)
    requires id in t && Closed(t)
    ensures Fresh(documented, done) && Elems(documented) <= TableNames(t)
    ensures done' == done + Elems(documented)
    ensures t[id].name.None? ==> done' == done && r == Err(KeyError)
    ensures t[id].name.Some? && t[id].name.value in done ==> done' == done && r == Ok([])
    ensures t[id].name.Some? && t[id].name.value !in done ==> Documents(env, t, id, done, done', r, documented)
    decreases |TableNames(t) - done|, 2
  {
    if t[id].name.None? {
      return done, Err(KeyError), [];
    }
    if t[id].name.value in done {
      return done, Ok([]), [];
    }
    done', r, documented := Document(env, t, id, done);
  }

  /** `gen_doc` on a named entry whose name is not done yet. */
  method Document(env: Env, t: Table, id: ClassId, done: set<string>)
      returns (done': set<string>, r: Result<seq<string>>, ghost documented: seq<string>)
    requires id in t && Closed(t) && t[id].name.Some? && t[id].name.value !in done
    ensures Fresh(documented, done) && Elems(documented) <= TableNames(t)
    ensures done' == done + Elems(documented)
    ensures Documents(env, t, id, done, done', r, documented)
    ensures done < done' <= done + TableNames(t) && t[id].name.value in done'
    ensures r.Ok? ==> |r.value| >= 1 && r.value[0] == "# " + t[id].name.value
    decreases |TableNames(t) - done|, 1
  {
    var n := t[id].name.value;
    ElemsOne(n);
    var head := EntryHead(env, t[id]);
    if head.Err? {
      DocumentsOwnLines(env, t, id, done);
      return done + {n}, Err(head.error), [n];
    }
    var targets := Targets(t, t[id]);
    if targets == [] {
      DocumentsOwnLines(env, t, id, done);
      return done + {n}, Ok(["# " + n] + head.value), [n];
    }
    Shrinks(TableNames(t), done, done + {n}, n);
    var rest;
    ghost var restDocumented;
    done', rest, restDocumented := GenTargets(env, t, targets, done + {n}, done);
    PrependDocumented(TableNames(t), n, restDocumented, done, done');
    documented := [n] + restDocumented;
    r := if rest.Err? then Err(rest.error) else Ok(["# " + n] + head.value + rest.value);
    DocumentsWithChildren(env, t, id, done, done', rest, restDocumented);
  }

  /** An entry whose own lines fail, or that has no child, documents just
      itself. */
  lemma DocumentsOwnLines(env: Env, t: Table, id: ClassId, done: set<string>)
    requires id in t && Closed(t) && t[id].name.Some?
    requires EntryHead(env, t[id]).Err? || Targets(t, t[id]) == []
    ensures var n := t[id].name.value; var head := EntryHead(env, t[id]);
      Documents(env, t, id, done, done + {n},
                if head.Err? then Err(head.error) else Ok(["# " + n] + head.value), [n])
  {
  }

  /** An entry with children puts its heading and its own lines before
      theirs. */
  lemma DocumentsWithChildren(env: Env, t: Table, id: ClassId, done: set<string>, done': set<string>,
                              rest: Result<seq<string>>, restDocumented: seq<string>)
    requires id in t && Closed(t) && t[id].name.Some?
    requires EntryHead(env, t[id]).Ok? && Targets(t, t[id]) != []
    ensures var n := t[id].name.value; var head := EntryHead(env, t[id]).value;
      Documents(env, t, id, done, done',
                if rest.Err? then Err(rest.error) else Ok(["# " + n] + head + rest.value),
                [n] + restDocumented)
  {
    var n := t[id].name.value;
    var head := EntryHead(env, t[id]).value;
    if rest.Ok? {
      assert (["# " + n] + head + rest.value)[..1 + |head|] == ["# " + n] + head;
    }
  }

  /** A nested call of `gen_doc`, as the loop over children sees it. */
  method GenChild(env: Env, t: Table, id: ClassId, done: set<string>)
      returns (done': set<string>, r: Result<seq<string>>, ghost documented: seq<string>)
    requires id in t && Closed(t)
    ensures Fresh(documented, done) && Elems(documented) <= TableNames(t)
    ensures done' == done + Elems(documented)
    ensures done <= done' <= done + TableNames(t)
    ensures t[id].name.None? ==> done' == done && r == Err(KeyError)
    ensures t[id].name.Some? ==> t[id].name.value in done'
    decreases |TableNames(t) - done|, 3
  {
    done', r, documented := GenDocIn(env, t, id, done);
  }

  /** The loop over an entry's children: a break line, then the child's
      documentation, for each in order.  `entry` is the set of names done
      when the entry's own call began; the entry's name has been added
      since. */
  method GenTargets(env: Env, t: Table, targets: seq<Result<ClassId>>, done: set<string>,
                    ghost entry: set<string>)
      returns (done': set<string>, r: Result<seq<string>>, ghost documented: seq<string>)
    requires Closed(t) && forall i :: 0 <= i < |targets| && targets[i].Ok? ==> targets[i].value in t
    requires entry <= done <= entry + TableNames(t) && |TableNames(t) - done| < |TableNames(t) - entry|
    ensures Fresh(documented, done) && Elems(documented) <= TableNames(t)
    ensures done' == done + Elems(documented)
    ensures targets == [] ==> r == Ok([])
    ensures r.Ok? ==> |r.value| >= |targets| && forall i :: 0 <= i < |targets| ==> targets[i].Ok?
    decreases |TableNames(t) - entry|, 0
  {
    done' := done;
    documented := [];
    var lines: seq<string> := [];
    var i := 0;
    while i < |targets|
      invariant 0 <= i <= |targets|
      invariant Fresh(documented, done) && Elems(documented) <= TableNames(t)
      invariant done' == done + Elems(documented)
      invariant |lines| >= i && forall j :: 0 <= j < i ==> targets[j].Ok?
      invariant i == 0 ==> lines == []
    {
      lines := lines + [ChildBreak];
      if targets[i].Err? {
        return done', Err(targets[i].error), documented;
      }
      ShrinksNot(TableNames(t), done, done');
      var sub;
      ghost var subDocumented;
      done', sub, subDocumented := GenChild(env, t, targets[i].value, done');
      AppendDocumented(TableNames(t), documented, subDocumented, done);
      documented := documented + subDocumented;
      if sub.Err? {
        return done', sub, documented;
      }
      lines := lines + sub.value;
      OkPrefix(targets, i);
      i := i + 1;
    }
    return done', Ok(lines), documented;
  }

  lemma OkPrefix(targets: seq<Result<ClassId>>, i: nat)
    requires i < |targets| && targets[i].Ok? && forall j :: 0 <= j < i ==> targets[j].Ok?
    ensures forall j :: 0 <= j < i + 1 ==> targets[j].Ok?
  {
  }

  /** The entry's own name, then the names its children document. */
  lemma PrependDocumented(names: set<string>, n: string, rest: seq<string>, done: set<string>, done': set<string>)
    requires n in names && n !in done
    requires Fresh(rest, done + {n}) && Elems(rest) <= names && done' == done + {n} + Elems(rest)
    ensures Fresh([n] + rest, done) && Elems([n] + rest) <= names && done' == done + Elems([n] + rest)
  {
    ElemsOne(n);
    FreshConcat([n], rest, done);
  }

  /** The names documented so far, then those of one more child. */
  lemma AppendDocumented(names: set<string>, a: seq<string>, b: seq<string>, done: set<string>)
    requires Fresh(a, done) && Elems(a) <= names
    requires Fresh(b, done + Elems(a)) && Elems(b) <= names
    ensures Fresh(a + b, done) && Elems(a + b) <= names
    ensures done + Elems(a) + Elems(b) == done + Elems(a + b)
  {
    FreshConcat(a, b, done);
  }

  /** Names documented by a later call are new to the earlier one. */
  lemma FreshConcat(a: seq<string>, b: seq<string>, done: set<string>)
    requires Fresh(a, done) && Fresh(b, done + Elems(a))
    ensures Fresh(a + b, done) && Elems(a + b) == Elems(a) + Elems(b)
  {
    ElemsConcat(a, b);
    forall i, j | 0 <= i < j < |a + b| ensures (a + b)[i] != (a + b)[j] {
      if j >= |a| && i < |a| {
        assert (a + b)[j] == b[j - |a|];
        assert a[i] in Elems(a);
      }
    }
    forall i | 0 <= i < |a + b| ensures (a + b)[i] !in done {
      if i >= |a| {
        assert (a + b)[i] == b[i - |a|];
      }
    }
  }

  // ---------------------------------------------------------------------
  // Properties of an entry's own lines

  /** A regex entry is described by its pattern, rendered as a link, and
      the examples found for it, one per line. */
  lemma RegexEntryHead(env: Env, info: Info)
    requires info.name.Some? && info.kind.RegexInfo?
    ensures var ex := env.matchExamples(info.kind.regex, 3);
      EntryHead(env, info) ==
        Ok(["anything matching the regex " + RenderRegex(env, info.kind.regex, ex) + " For example:", ""]
           + ExampleLines(ex))
  {
    var v := PyTuple([PyStr("regex"), PyStr(info.kind.regex)]);
    assert v.elems[1..] == [PyStr(info.kind.regex)];
    assert Unwrap(v) == Ok(v);
    assert EntryHead(env, info) == Doc(env, v) == Dispatch(env, v);
  }

  lemma UpperOfUpper(s: string)
    requires forall i :: 0 <= i < |s| ==> !('a' <= s[i] <= 'z')
    ensures Upper(s) == s
  {
  }

  /** An entry named after a key of SPECIAL_REGEXES, whatever else it
      holds, is described by that key's regex: two lines, the examples in
      bold, then the regex as a link. */
  lemma SpecialEntryHead(env: Env, info: Info, i: nat)
    requires i < |SpecialRegexes| && info.name == Some(SpecialRegexes[i].0) && !info.kind.RegexInfo?
    ensures var name := SpecialRegexes[i].0;
      var ex := env.matchExamples(SpecialRegexes[i].1, 3);
      EntryHead(env, info) ==
        Ok(["Anything corresponding to the " + name + " regex, for example " + Join(", ", Bold(ex)) + ".",
            "The " + name + " regex is " + RenderRegex(env, SpecialRegexes[i].1, ex)])
  {
    var name := SpecialRegexes[i].0;
    assert IsSpecialName(name);
    UpperOfUpper(name);
    assert SpecialRegexOf(name) == Ok(SpecialRegexes[i].1);
    DocSpecialRegex(env, name);
  }

  /** A base type the walk records but SPECIAL_REGEXES does not list has
      neither `'regex'` nor `'str'`: documenting it raises KeyError. */
  lemma UnlistedBaseTypeFails(env: Env, info: Info)
    requires info.name.Some? && info.kind.TypeInfo? && !IsSpecialName(info.name.value)
    ensures EntryHead(env, info) == Err(KeyError)
  {
  }

  /** NUMBER is such a base type. */
  lemma NumberIsUnlisted()
    ensures "NUMBER" in BaseTypes && !IsSpecialName("NUMBER")
  {
  }

  /** The links `('or', names)` is described by, one per name. */
  function NameLinks(names: seq<string>): (r: seq<string>)
    ensures |r| == |names|
    ensures forall i :: 0 <= i < |names| ==> r[i] == "- <a href=\"#" + names[i] + "\">" + names[i] + "</a>"
  {
    seq(|names|, i requires 0 <= i < |names| => "- <a href=\"#" + names[i] + "\">" + names[i] + "</a>")
  }

  lemma {:induction false} OrLinksOfNames(names: seq<string>)
    ensures OrLinks(OrStr(names).elems[1].elems) == Ok(NameLinks(names))
  {
    var vs := OrStr(names).elems[1].elems;
    if names != [] {
      OrLinksOfNames(names[1..]);
      assert OrStr(names[1..]).elems[1].elems == vs[1..];
      assert NameLinks(names) == [NameLinks(names)[0]] + NameLinks(names[1..]);
    }
  }

  /** A raw choice not named after a special regex is described as "one
      of:" followed by one link per subclass name, then its docstring when
      it is not empty. */
  lemma ChoiceEntryHead(env: Env, info: Info)
    requires info.name.Some? && info.kind.ChoiceInfo? && !IsSpecialName(info.name.value)
    ensures EntryHead(env, info) == Ok(["one of:", ""] + NameLinks(info.kind.names) + DocLines(info.kind.doc))
  {
    var v := OrStr(info.kind.names);
    assert v.elems[1..] == [v.elems[1]];
    OrLinksOfNames(info.kind.names);
    assert Unwrap(v) == Ok(v);
    assert Doc(env, v) == Dispatch(env, v);
    assert Doc(env, v) == Ok(["one of:", ""] + NameLinks(info.kind.names));
  }

  /** `gen_doc` with its `done_classes` default set, shared by every call. */
  class DocGenerator {
    var done: set<string>

    constructor ()
      ensures done == {}
    {
      done := {};
    }

    /** One call `gen_doc(t[id])`. */
    method Generate(env: Env, t: Table, id: ClassId) returns (r: Result<seq<string>>)
      requires id in t && Closed(t)
      modifies this
      ensures old(done) <= done <= old(done) + TableNames(t)
      ensures t[id].name.None? ==> done == old(done) && r == Err(KeyError)
      ensures t[id].name.Some? && t[id].name.value in old(done) ==> done == old(done) && r == Ok([])
      ensures t[id].name.Some? && t[id].name.value !in old(done) ==>
        t[id].name.value in done &&
        (r.Ok? ==> EntryHead(env, t[id]).Ok? && |r.value| >= 1 + |EntryHead(env, t[id]).value| &&
                   r.value[..1 + |EntryHead(env, t[id]).value|] == ["# " + t[id].name.value] + EntryHead(env, t[id]).value)
    {
      ghost var documented;
      done, r, documented := GenDocIn(env, t, id, done);
    }
  }
}
