/** textx_dsldoc/render_utils.py: the tables of standard regexes and readable
    separators, the docstring filter, the single-regex detector, the
    rendering of a parsing-expression tree into a tagged tree, and the
    dispatch of `str_sequence_doc` over tagged trees. */
module RenderUtils {
  import opened Common
  import opened PyValues
  import opened Peg

  // ---------------------------------------------------------------------
  // SPECIAL_REGEXES and SPECIAL_REGEXES_REV

  /** The textX base types and the regex textX matches each with, in the
      dictionary's order. */
  const SpecialRegexes: seq<(string, string)> := [
    ("ID", @"[^\d\W]\w*\b"),
    ("INT", @"[-+]?[0-9]+\b"),
    ("BOOL", @"(True|true|False|false|0|1)\b"),
    ("FLOAT", @"[+-]?(\d+(\.\d*)?|\.\d+)([eE][+-]?\d+)?(?<=[\w\.])(?![\w\.])"),
    ("STRING", @"(""(\\""|[^""])*"")|(\'(\\\'|[^\'])*\')")
  ]

  /** `{v: k for k, v in d.items()}`: a later pair overrides an earlier one. */
  function Reverse(pairs: seq<(string, string)>): (r: map<string, string>)
    ensures forall i :: 0 <= i < |pairs| ==> pairs[i].1 in r
    ensures forall v :: v in r ==> exists i :: 0 <= i < |pairs| && pairs[i] == (r[v], v)
  {
    if pairs == [] then map[]
    else
      var init := pairs[..|pairs| - 1];
      var last := pairs[|pairs| - 1];
      var r := Reverse(init)[last.1 := last.0];
      assert forall i :: 0 <= i < |init| ==> init[i] == pairs[i];
      r
  }

  const SpecialRegexesRev: map<string, string> := Reverse(SpecialRegexes)

  predicate DistinctPatterns(pairs: seq<(string, string)>) {
    forall i, j :: 0 <= i < j < |pairs| ==> pairs[i].1 != pairs[j].1
  }

  /** With distinct patterns, the reversed dictionary maps each pattern back
      to the name it came from. */
  lemma {:induction false} ReverseInverts(pairs: seq<(string, string)>, i: nat)
    requires DistinctPatterns(pairs) && i < |pairs|
    ensures Reverse(pairs)[pairs[i].1] == pairs[i].0
    decreases |pairs|
  {
    var init := pairs[..|pairs| - 1];
    if i < |pairs| - 1 {
      assert init[i] == pairs[i];
      assert DistinctPatterns(init) by {
        forall a, b | 0 <= a < b < |init| ensures init[a].1 != init[b].1 {
          assert init[a] == pairs[a] && init[b] == pairs[b];
        }
      }
      ReverseInverts(init, i);
    }
  }

  lemma SpecialPatternsDistinct()
    ensures DistinctPatterns(SpecialRegexes)
  {
  }

  /** SPECIAL_REGEXES_REV inverts SPECIAL_REGEXES. */
  lemma SpecialRegexesRevInverts(i: nat)
    requires i < |SpecialRegexes|
    ensures SpecialRegexesRev[SpecialRegexes[i].1] == SpecialRegexes[i].0
  {
    SpecialPatternsDistinct();
    ReverseInverts(SpecialRegexes, i);
  }

  /** `name in SPECIAL_REGEXES`. */
  predicate IsSpecialName(name: string) {
    exists i :: 0 <= i < |SpecialRegexes| && SpecialRegexes[i].0 == name
  }

  /** `SPECIAL_REGEXES[name]`, a KeyError for an unknown name. */
  function SpecialRegexOf(name: string): (r: Result<string>)
    ensures r.Ok? <==> IsSpecialName(name)
    ensures r.Ok? ==> exists i :: 0 <= i < |SpecialRegexes| && SpecialRegexes[i] == (name, r.value)
  {
    SpecialFrom(SpecialRegexes, name)
  }

  function SpecialFrom(pairs: seq<(string, string)>, name: string): (r: Result<string>)
    ensures r.Ok? <==> exists i :: 0 <= i < |pairs| && pairs[i].0 == name
    ensures r.Ok? ==> exists i :: 0 <= i < |pairs| && pairs[i] == (name, r.value)
  {
    if pairs == [] then Err(KeyError)
    else if pairs[0].0 == name then Ok(pairs[0].1)
    else
      var r := SpecialFrom(pairs[1..], name);
      assert forall i :: 0 <= i < |pairs| - 1 ==> pairs[1..][i] == pairs[i + 1];
      assert r.Ok? ==> exists i :: 1 <= i < |pairs| && pairs[i] == (name, r.value);
      r
  }

  /** The loop of `render_arpeggio_sequence` over SPECIAL_REGEXES: the first
      name whose pattern is `p`. */
  function FindSpecial(pairs: seq<(string, string)>, p: string): (r: Option<string>)
    ensures r.Some? ==> exists i :: 0 <= i < |pairs| && pairs[i] == (r.value, p)
    ensures r.None? ==> forall i :: 0 <= i < |pairs| ==> pairs[i].1 != p
  {
    if pairs == [] then None
    else if pairs[0].1 == p then Some(pairs[0].0)
    else
      var r := FindSpecial(pairs[1..], p);
      assert forall i :: 0 <= i < |pairs| - 1 ==> pairs[1..][i] == pairs[i + 1];
      r
  }

  /** The loop over SPECIAL_REGEXES and the lookup in SPECIAL_REGEXES_REV
      agree: a pattern is found by one exactly when it is found by the other,
      with the same name. */
  lemma FindSpecialIsRevLookup(p: string)
    ensures FindSpecial(SpecialRegexes, p).Some? <==> p in SpecialRegexesRev
    ensures p in SpecialRegexesRev ==> FindSpecial(SpecialRegexes, p) == Some(SpecialRegexesRev[p])
  {
    var r := FindSpecial(SpecialRegexes, p);
    if r.Some? {
      var i :| 0 <= i < |SpecialRegexes| && SpecialRegexes[i] == (r.value, p);
      SpecialRegexesRevInverts(i);
    }
    if p in SpecialRegexesRev {
      var i :| 0 <= i < |SpecialRegexes| && SpecialRegexes[i] == (SpecialRegexesRev[p], p);
      SpecialRegexesRevInverts(i);
    }
  }

  // ---------------------------------------------------------------------
  // CHARS_AS_READABLE

  const CharsAsReadable: map<Option<string>, string> := map[
    None := "any space, including line break",
    Some(",") := "comma",
    Some(";") := "semicolon",
    Some("\n") := "line break",
    Some(" ") := "space",
    Some(".") := "dot"
  ]

  /** `CHARS_AS_READABLE.get(sep, "'" + str(sep) + "'")` for a separator
      given by its text (None when there is no separator). */
  function ReadableSep(sep: Option<string>): (r: string)
    ensures sep in CharsAsReadable ==> r == CharsAsReadable[sep]
    ensures sep !in CharsAsReadable ==> sep.Some? && r == "'" + sep.value + "'"
  {
    if sep in CharsAsReadable then CharsAsReadable[sep] else "'" + sep.value + "'"
  }

  /** The same lookup on the Python value a tagged tree holds as separator.
      A value holding a list is unhashable. */
  function ReadablePySep(sep: PyVal): (r: Result<string>)
    ensures sep.PyNone? ==> r == Ok(CharsAsReadable[None])
    ensures sep.PyStr? ==> r == Ok(ReadableSep(Some(sep.s)))
  {
    match sep
    case PyNone => Ok(ReadableSep(None))
    case PyStr(s) => Ok(ReadableSep(Some(s)))
    case _ =>
      if !Hashable(sep) then Err(TypeError)
      else
        var t :- PyStrOf(sep);
        Ok("'" + t + "'")
  }

  // ---------------------------------------------------------------------
  // render_regex

  /** What the renderers call and the model does not compute: URL quoting
      (`urllib.parse.quote`), `get_match_examples(regex, amount)` (which
      draws on Python's regex engine, random choice and a regex generator),
      the Markdown-to-HTML conversion `markdown.markdown`, and the `str()`
      of a textX class, given its name. */
  datatype Env = Env(quote: string -> string, matchExamples: (string, nat) -> seq<string>,
                     markdown: string -> string, classStr: string -> string)

  const PythexUrl := "https://pythex.org/?regex="
  const PythexTest := "&test_string="

  /** `render_regex(regex, examples)`: a Markdown link showing `/regex/` and
      pointing at an online regex tester, loaded with the quoted regex and
      the examples one per line (three drawn from the oracle when none are
      given; the empty sequence stands for None as well as for no
      examples). */
  function RenderRegex(env: Env, regex: string, examples: seq<string>): (r: string)
    ensures |r| > |regex| + 7 && r[..|regex| + 7] == "[`/" + regex + "/`](" && r[|r| - 1] == ')'
  {
    var ex := if examples == [] then env.matchExamples(regex, 3) else examples;
    var url := PythexUrl + env.quote(regex) + PythexTest + env.quote(Join("\n", ex));
    var lead := "[`/" + regex + "/`](";
    assert (lead + url + ")")[..|lead|] == lead;
    lead + url + ")"
  }

  // ---------------------------------------------------------------------
  // doc_from_class

  const NotDocumentedMarker := "Not documented by textx-dsldoc."
  const DefaultTextxDoc := "Dynamically created class. Each textX rule will result in"

  /** Some line of `doc`, stripped of surrounding whitespace, is the marker. */
  predicate HasMarkerLine(doc: string) {
    var lines := SplitLines(doc);
    exists i :: 0 <= i < |lines| && Strip(lines[i]) == NotDocumentedMarker
  }

  /** `doc_from_class`, given the class's `__doc__` (None when it is missing
      or None). */
  function DocFromClass(doc: Option<string>): (r: Option<string>)
    ensures r.Some? ==> r == doc
  {
    if doc.None? then None
    else if HasMarkerLine(doc.value) then None
    else if Contains(doc.value, DefaultTextxDoc) then None
    else doc
  }

  /** A docstring is dropped exactly when it is absent, has a marker line, or
      is textX's default docstring. */
  lemma DocFromClassDrops(doc: Option<string>)
    ensures DocFromClass(doc).None? <==>
      (doc.None? || HasMarkerLine(doc.value) || Contains(doc.value, DefaultTextxDoc))
  {
  }

  /** Filtering twice is filtering once. */
  lemma DocFromClassIdempotent(doc: Option<string>)
    ensures DocFromClass(DocFromClass(doc)) == DocFromClass(doc)
  {
  }

  lemma MarkerIsPrintable()
    ensures forall i :: 0 <= i < |NotDocumentedMarker| ==> 32 <= NotDocumentedMarker[i] as int <= 126
  {
  }

  lemma MarkerIsStripped()
    ensures Strip(NotDocumentedMarker) == NotDocumentedMarker
  {
    var m := NotDocumentedMarker;
    assert m[0] == 'N' && m[|m| - 1] == '.';
    assert !IsSpace(m[0]) && !IsSpace(m[|m| - 1]);
    assert StripLeft(m) == m;
    assert StripRight(m) == m;
  }

  lemma MarkerLineIsALine(pre: string, post: string)
    requires pre == [] || pre[|pre| - 1] != '\r'
    ensures NotDocumentedMarker in SplitLines(pre + "\n" + NotDocumentedMarker + "\n" + post)
  {
    var rest := NotDocumentedMarker + "\n" + post;
    assert pre + "\n" + NotDocumentedMarker + "\n" + post == pre + "\n" + rest;
    SplitLinesSuffix([], pre, rest);
    var p :| SplitLinesFrom([], pre + "\n" + rest) == p + SplitLinesFrom([], rest);
    MarkerIsPrintable();
    SplitLinesThroughNewline([], NotDocumentedMarker, post);
    assert SplitLinesFrom([], rest)[0] == NotDocumentedMarker;
  }

  /** A docstring holding the marker on a line of its own (surrounded by
      "\n", the text before not ending in "\r") is dropped, whatever else it
      says. */
  lemma MarkerLineDropsDoc(pre: string, post: string)
    requires pre == [] || pre[|pre| - 1] != '\r'
    ensures DocFromClass(Some(pre + "\n" + NotDocumentedMarker + "\n" + post)) == None
  {
    var doc := pre + "\n" + NotDocumentedMarker + "\n" + post;
    MarkerLineIsALine(pre, post);
    MarkerIsStripped();
    var lines := SplitLines(doc);
    var i :| 0 <= i < |lines| && lines[i] == NotDocumentedMarker;
    assert Strip(lines[i]) == NotDocumentedMarker;
  }

  // ---------------------------------------------------------------------
  // as_regex

  /** One step of the descent of `as_regex` is possible from `n`. */
  predicate CanDescend(n: Node) {
    |Nodes(n)| == 1 && IsSequenceKind(Nodes(n)[0])
  }

  /** `n` after `k` steps down first children (stopping at a leaf). */
  function Follow(n: Node, k: nat): Node {
    if k == 0 || |Nodes(n)| == 0 then n else Follow(Nodes(n)[0], k - 1)
  }

  /** The first `k` steps down from `n` all went through a lone child of
      sequence kind. */
  predicate ChainOf(n: Node, k: nat) {
    forall j :: 0 <= j < k ==> CanDescend(Follow(n, j))
  }

  /** Where the `while` loop of `as_regex` stops. */
  function Descend(n: Node): (r: Node)
    ensures !CanDescend(r)
  {
    if CanDescend(n) then Descend(Nodes(n)[0]) else n
  }

  lemma {:induction false} FollowStep(n: Node, k: nat)
    requires CanDescend(n)
    ensures Follow(n, k + 1) == Follow(Nodes(n)[0], k)
  {
  }

  /** The loop's exit is reached from its start by a chain of lone
      sequence-kind children... */
  lemma {:induction false} DescendIsChainEnd(n: Node)
    ensures exists k: nat :: ChainOf(n, k) && Descend(n) == Follow(n, k)
  {
    if CanDescend(n) {
      var c := Nodes(n)[0];
      DescendIsChainEnd(c);
      var k: nat :| ChainOf(c, k) && Descend(c) == Follow(c, k);
      FollowStep(n, k);
      forall j | 0 <= j < k + 1 ensures CanDescend(Follow(n, j)) {
        if j > 0 { FollowStep(n, j - 1); }
      }
      assert ChainOf(n, k + 1);
    } else {
      assert ChainOf(n, 0) && Descend(n) == Follow(n, 0);
    }
  }

  /** ...and it is the only such chain that ends where no step is possible. */
  lemma {:induction false} ChainEndIsDescend(n: Node, k: nat)
    requires ChainOf(n, k) && !CanDescend(Follow(n, k))
    ensures Descend(n) == Follow(n, k)
  {
    if k > 0 {
      assert CanDescend(Follow(n, 0));
      var c := Nodes(n)[0];
      forall j | 0 <= j < k - 1 ensures CanDescend(Follow(c, j)) {
        FollowStep(n, j);
        assert CanDescend(Follow(n, j + 1));
      }
      FollowStep(n, k - 1);
      ChainEndIsDescend(c, k - 1);
    }
  }

  /** The class has exactly one attribute and a peg rule. */
  predicate RegexCandidate(e: Entity) {
    e.MetaClass? && e.attrs.Some? && |e.attrs.value| == 1 && e.pegRule.Some?
  }

  /** What `as_regex` returns. */
  function AsRegexOf(e: Entity): (r: Option<string>)
    ensures r.Some? ==> RegexCandidate(e)
  {
    if !RegexCandidate(e) then None
    else
      var d := Descend(e.pegRule.value);
      if |Nodes(d)| == 1 && Nodes(d)[0].RegExMatch? then Some(Nodes(d)[0].pattern) else None
  }

  /** `as_regex` finds a pattern exactly when, below a chain of lone
      sequence-kind children of the class's peg rule, the node reached has one
      child and it is that regex. */
  lemma AsRegexChain(e: Entity, p: string)
    ensures AsRegexOf(e) == Some(p) <==>
      RegexCandidate(e) &&
      exists k: nat :: ChainOf(e.pegRule.value, k) && Nodes(Follow(e.pegRule.value, k)) == [RegExMatch(p)]
  {
    if RegexCandidate(e) {
      var n := e.pegRule.value;
      if AsRegexOf(e) == Some(p) {
        DescendIsChainEnd(n);
        var k: nat :| ChainOf(n, k) && Descend(n) == Follow(n, k);
        assert Nodes(Follow(n, k)) == [RegExMatch(p)];
      }
      if exists k: nat :: ChainOf(n, k) && Nodes(Follow(n, k)) == [RegExMatch(p)] {
        var k: nat :| ChainOf(n, k) && Nodes(Follow(n, k)) == [RegExMatch(p)];
        ChainEndIsDescend(n, k);
      }
    }
  }

  /** `as_regex` returns None when the chain ends at a node that has not
      exactly one child. */
  lemma AsRegexStopsAtBranching(e: Entity, k: nat)
    requires RegexCandidate(e)
    requires ChainOf(e.pegRule.value, k) && |Nodes(Follow(e.pegRule.value, k))| != 1
    ensures AsRegexOf(e) == None
  {
    ChainEndIsDescend(e.pegRule.value, k);
  }

  /** The rule textX builds for a one-attribute regex rule (two nested
      sequences above the regex) is recognised. */
  lemma AsRegexOfTextxRegexRule(name: string, attr: Attr, p: string, doc: Option<string>)
    ensures AsRegexOf(MetaClass(name, Some([attr]), Some(Sequence([Sequence([Sequence([RegExMatch(p)])])])), [], doc)) == Some(p)
  {
    var r3 := Sequence([RegExMatch(p)]);
    var r2 := Sequence([r3]);
    var r1 := Sequence([r2]);
    assert Nodes(r3) == [RegExMatch(p)] && !CanDescend(r3);
    assert Descend(r2) == r3;
    assert Descend(r1) == r3;
  }

  /** `as_regex`: the `while` loop walks down lone sequence-kind children. */
  method AsRegex(e: Entity) returns (r: Option<string>)
    ensures r == AsRegexOf(e)
  {
    if !e.MetaClass? || e.attrs.None? {
      return None;
    }
    if |e.attrs.value| == 1 && e.pegRule.Some? {
      var pegRule := e.pegRule.value;
      while |Nodes(pegRule)| == 1 && IsSequenceKind(Nodes(pegRule)[0])
        invariant Descend(pegRule) == Descend(e.pegRule.value)
        decreases pegRule
      {
        pegRule := Nodes(pegRule)[0];
      }
      if |Nodes(pegRule)| == 1 {
        pegRule := Nodes(pegRule)[0];
      } else {
        return None;
      }
      if pegRule.RegExMatch? {
        return Some(pegRule.pattern);
      }
    }
    return None;
  }
}
