# textx-dsldoc in Dafny

textx-dsldoc writes Markdown documentation for a textX grammar. textX
compiles a grammar into a metamodel: a graph of classes (each with its
attributes, its parsing-expression rule, the classes that inherit from it
and its docstring) and of attribute objects (multiplicity and target
class). Each rule is an Arpeggio parsing-expression tree made of string and
regex terminals, ordered choices, sequences and the three repetitions
(optional, zero-or-more, one-or-more, each with an optional separator).
The documentation generator walks these structures:

- `as_regex` recognises a rule that is a single regex.
- `render_arpeggio_sequence` turns a rule into a *tagged tree*: nested
  tuples headed by `'choice'`, `'0..*'`, `'1..*'`, `'0..1'`, `'regex'`,
  `'special regex'` or the type `str`.
- `render_arpeggio_sequence_as_str` turns a rule into one token per node.
- `str_sequence_doc` and `ParsingSequence.item_repr` turn tagged trees into
  Markdown lines.
- `search_for_structure_info` walks the metamodel into a memo table.
- `gen_doc` writes one section per class, each class once.
- `DocSection.from_textx_class` and the `DocSection` family build one
  section per class.

The repository also ships an early copy of this code (`poc.py`). It also
ships an example light-show language (`examples/example.py`), whose
interpreter keeps named groups of devices and registered callbacks in a
shared context.

Module by module:

- `Common`: Option and Result (Python's None and raised exceptions as
  values), and the few `str` operations used: join, ASCII lower/upper/title,
  strip, splitlines, `in`.
- `PyValues`: the Python values that tagged trees are made of, with `len`,
  iteration, truthiness, and the `while len(x) == 1: x, = x` unwrapping
  loop.
- `Peg`: the Arpeggio node datatype and the textX metamodel graph. Object
  identity is a `ClassId`.
- `RenderUtils`, `TaggedTree`, `SequenceDoc`, `StructureInfo`, `GenDoc`:
  textx_dsldoc/render_utils.py.
- `RenderArpeggio`: textx_dsldoc/render_arpeggio.py.
- `RenderMetamodel`: textx_dsldoc/render_metamodel.py.
- `Poc`, `PocSearch`: poc.py. Its `as_regex` is the packaged function word
  for word, so `RenderUtils.AsRegex` models both.
- `LaumioDsl`: examples/example.py. The context is the class `Interpreter`.
  Each command's effect is the function `Exec` on a `State` value, and
  every method of the class is proved to leave the object in the state
  that `Exec` gives. `Exec` runs a `Color` command in the corrected
  reading of its specifier: the specifier's text, which is the
  identifier's `.id` on the first run and the value stored by that run
  afterwards (see "## Findings").

Points where the code, not a reading of its intent, decides the model:

- Arpeggio's `OrderedChoice` is a subclass of `Sequence`. So the descent
  of `as_regex` (its `isinstance(..., arpeggio.Sequence)` test) also goes
  through a single-child ordered choice.
- The unwrapping loop `while len(x) == 1: x, = x` never exits on a
  one-character string. It is modelled as the error `Diverges`.
- The generators are collected into lists. An exception raised part way
  makes the whole result that exception.
- In `str_sequence_doc`, a run of literals in a sequence comes out with
  every literal but the last in backquotes (`DocOfLiteralRun`). A choice
  with a single literal alternative raises TypeError
  (`DocOfRenderedLiteralChoice`).
- `from_textx_class` passes the keyword `choice` where `DocChoiceSection`
  expects `choices`. A raw choice therefore raises TypeError
  (`FromTextxClass`). An attribute object has no `__name__`, so it fails
  that function's assertion.
- A `Group` command overwrites its own `groupname` with a string, so
  running it a second time raises AttributeError (`GroupTwiceFails`).
  `Require.execute` reads an attribute that does not exist, so it always
  raises AttributeError. As written, `Color.execute` raises AttributeError
  for every ring or column command, because it calls `.lower()` on the
  `Identifier` object itself (see "## Findings"). The interpreter follows
  the corrected reading: the specifier's text, the identifier's `.id` on
  the first run and the stored value on a later run of the same command
  (`RingRerun`, `ColumnRerun`). Even there, in the ring
  branch, a word that `ENUMERATION_WORDS` lists becomes a number, and
  calling `.lower()` on that number raises AttributeError. These last two
  are modelled without a contract of their own.

## Model

| member | source | states |
|---|---|---|
| `PyValues.Unwrap` | textx_dsldoc/render_metamodel.py:35 | the unwrapping loop ends at a value whose length is not one and that is no larger than the input; its only failures are a value without a length (TypeError) and a loop that never ends (a one-character string) |
| `PyValues.UnwrapSingleton` | textx_dsldoc/render_utils.py:267 | a one-element tuple or list unwraps exactly as its element |
| `PyValues.UnwrapIdempotent` | textx_dsldoc/render_utils.py:325 | unwrapping an unwrapped value changes nothing |
| `RenderUtils.Reverse` | textx_dsldoc/render_utils.py:148 | the reversed dictionary has every pattern as a key, and maps each key to a name listed with it |
| `RenderUtils.ReverseInverts` | textx_dsldoc/render_utils.py:148 | when the patterns are distinct, the reversed dictionary maps each pattern back to its own name |
| `RenderUtils.SpecialPatternsDistinct` | textx_dsldoc/render_utils.py:141-147 | the five SPECIAL_REGEXES patterns are pairwise distinct |
| `RenderUtils.SpecialRegexesRevInverts` | textx_dsldoc/render_utils.py:141-148 | `SPECIAL_REGEXES_REV[SPECIAL_REGEXES[k]] == k` for every key k |
| `RenderUtils.SpecialRegexOf` | textx_dsldoc/render_utils.py:318 | `SPECIAL_REGEXES[name]` succeeds exactly for a key and gives its pattern; otherwise it is a KeyError |
| `RenderUtils.FindSpecial` | textx_dsldoc/render_utils.py:184-187 | the loop over SPECIAL_REGEXES finds a name listed with the pattern, and finds none exactly when no entry has that pattern |
| `RenderUtils.FindSpecialIsRevLookup` | textx_dsldoc/render_utils.py:184-186 | the loop over SPECIAL_REGEXES and the `SPECIAL_REGEXES_REV` lookup succeed on the same patterns and give the same name |
| `RenderUtils.ReadableSep` | textx_dsldoc/render_utils.py:254-261 | a listed separator (None included) reads as its CHARS_AS_READABLE text; any other separator is quoted |
| `RenderUtils.ReadablePySep` | textx_dsldoc/render_utils.py:288 | None reads as "any space, including line break", a string as ReadableSep gives it |
| `RenderUtils.RenderRegex` | textx_dsldoc/render_utils.py:151-158 | the result is a Markdown link whose text is `` `/regex/` `` |
| `RenderUtils.DocFromClass` | textx_dsldoc/render_utils.py:96-108 | a docstring that is kept is returned unchanged |
| `RenderUtils.DocFromClassDrops` | textx_dsldoc/render_utils.py:98-106 | the result is None exactly when the docstring is missing, has a line that strips to the marker, or contains textX's default docstring |
| `RenderUtils.DocFromClassIdempotent` | textx_dsldoc/render_utils.py:96-108 | filtering a filtered docstring changes nothing |
| `RenderUtils.MarkerLineDropsDoc` | textx_dsldoc/render_utils.py:103-104 | a docstring with the marker on a line of its own is dropped, whatever else it holds |
| `RenderUtils.Descend` | textx_dsldoc/render_utils.py:132-133 | where the descent stops, no further step through a single sequence-kind child is possible |
| `RenderUtils.DescendIsChainEnd` | textx_dsldoc/render_utils.py:132-133 | the stop is reached from the rule by a chain of single sequence-kind children |
| `RenderUtils.ChainEndIsDescend` | textx_dsldoc/render_utils.py:132-133 | any such chain that ends where no step is possible ends where the descent stops |
| `RenderUtils.AsRegexOf` | textx_dsldoc/render_utils.py:129-130 | a pattern is found only for a class with exactly one attribute and a peg rule |
| `RenderUtils.AsRegexChain` | textx_dsldoc/render_utils.py:132-138 | `as_regex` gives pattern p exactly when the class qualifies and, below a chain of single sequence-kind children, the node reached has the regex p as its only child |
| `RenderUtils.AsRegexStopsAtBranching` | textx_dsldoc/render_utils.py:134-136 | a chain ending at a node without exactly one child gives None |
| `RenderUtils.AsRegexOfTextxRegexRule` | textx_dsldoc/render_utils.py:115-126 | the rule textX builds for a one-attribute regex rule (two sequences nested over the regex) is recognised |
| `RenderUtils.AsRegex` | textx_dsldoc/render_utils.py:111-138 | the `while` loop over `peg_rule.nodes` returns what AsRegexOf specifies |
| `TaggedTree.Render` | textx_dsldoc/render_utils.py:161-189 | every rendering is a tuple; the only error is the AssertionError for an unknown node kind |
| `TaggedTree.RenderAll` | textx_dsldoc/render_utils.py:167 | one rendering per child, in order; it fails exactly when a child fails |
| `TaggedTree.RenderableIffOk` | textx_dsldoc/render_utils.py:188 | rendering succeeds exactly when no unknown node kind is reached (the subtree of a repetition over a class is not visited) |
| `TaggedTree.KnownKindsRenderable` | textx_dsldoc/render_utils.py:161-189 | a tree of known node kinds renders |
| `TaggedTree.SpecialNamesRoundTrip` | textx_dsldoc/render_utils.py:186 | the lower-cased key that the tagged tree holds, upper-cased again, is the key |
| `TaggedTree.SpecialNameLooksUpPattern` | textx_dsldoc/render_utils.py:184-186 | the name found for a pattern looks that pattern up again in SPECIAL_REGEXES |
| `TaggedTree.DecodeRender` | textx_dsldoc/render_utils.py:164-189 | reading the node back from its tagged tree gives the node, less what the tree does not record (attribute names, an optional's separator, the subtree under a repetition over a class). So literals, patterns, tags, separators and the number and order of children are kept |
| `SequenceDoc.Doc` | textx_dsldoc/render_utils.py:264-267 | an empty tuple cannot be unpacked into `type_, *data` and raises ValueError; a tuple of two or more is dispatched on its head |
| `SequenceDoc.Dispatch` | textx_dsldoc/render_utils.py:267-340 | a head that is no tag, not `str` and not a tuple raises ValueError; a `str` head succeeds exactly on a pair with a string, which it gives back as the one line |
| `SequenceDoc.ThenLines` | textx_dsldoc/render_utils.py:280-283 | at most one line per further line, each starting with `, then ` |
| `SequenceDoc.OrLinks` | textx_dsldoc/render_utils.py:307-308 | one link per name, in order; fails exactly when a name has no modelled `str()` |
| `SequenceDoc.DocRepetitionLine` | textx_dsldoc/render_utils.py:285-294 | a `0..*`/`1..*` entry is one "zero or any number of"/"at least one" line linking the lower-cased anchor, with the separator read through CHARS_AS_READABLE and a quoted fallback |
| `SequenceDoc.DocUnknownTag` | textx_dsldoc/render_utils.py:339-340 | a head that is no known tag, not `str` and not a tuple raises ValueError |
| `SequenceDoc.DocOfRenderedLiteral` | textx_dsldoc/render_utils.py:327-329 | a rendered literal is described by the literal |
| `SequenceDoc.DocOfRenderedClassRepetition` | textx_dsldoc/render_utils.py:285-302 | a rendered repetition over a class is one line linking the class's anchor, with the separator text for `0..*`/`1..*` |
| `SequenceDoc.DocOfLiteralRun` | textx_dsldoc/render_utils.py:330-332 | a run of two or more rendered literals gives every literal but the last in backquotes and the last bare |
| `SequenceDoc.DocOfRenderedLiteralSequence` | textx_dsldoc/render_utils.py:330-332 | the same for the rendering of a sequence of literals |
| `SequenceDoc.DocOfRenderedLiteralChoice` | textx_dsldoc/render_utils.py:324-326 | a choice of two or more literals is one "any one of the following:" line listing them; a single alternative raises TypeError |
| `StructureInfo.WithName` | textx_dsldoc/render_utils.py:198 | `'names in parent'` gains the name only when it is truthy; nothing else changes |
| `StructureInfo.SubNames` | textx_dsldoc/render_utils.py:213-216 | the subclasses' names, in order; a KeyError exactly when one is an attribute object |
| `StructureInfo.KindOf` | textx_dsldoc/render_utils.py:203-223 | an entry's kind refers only to metamodel objects; a regex entry holds the pattern that `as_regex` finds; an attribute object gives a `'select'` entry |
| `StructureInfo.SearchIn` | textx_dsldoc/render_utils.py:192-251 | a revisit only adds the name to the stored entry and returns it. A first visit records the name and stores the entry that KindOf gives, and fails where KindOf fails. The table only grows and stays closed under references. A successful walk leaves none of the entries it added pending |
| `StructureInfo.Expand` | textx_dsldoc/render_utils.py:200-250 | the branch taken on a first visit fills only the new entry; for an attribute object, a failure below its target makes the walk fail. A successful walk leaves none of the entries it added pending |
| `StructureInfo.ExpandClass` | textx_dsldoc/render_utils.py:207-250 | for a class with attributes that is not a regex rule, the stored entry is the kind the classification gives, and a classification that fails makes the walk fail; only the new entry changes. A successful walk leaves none of the entries it added pending |
| `StructureInfo.ExpandChoice` | textx_dsldoc/render_utils.py:207-216 | a raw choice stores its subclasses, their names (the `or` pair) and its docstring, as the classification gives them, and fails when the classification fails (a subclass that is an attribute object has no name). A successful walk leaves none of the entries it added pending |
| `StructureInfo.ExpandRule` | textx_dsldoc/render_utils.py:219-250 | a regular rule stores its tagged tree, docstring and children as the classification gives them. A successful walk leaves none of the entries it added pending |
| `StructureInfo.WalkAll` | textx_dsldoc/render_utils.py:209-212 | every subclass of a raw choice gets an entry; the table only grows. A successful walk leaves none of the entries it added pending |
| `StructureInfo.WalkAttrs` | textx_dsldoc/render_utils.py:221-250 | the entry's children are its attributes, by name, in order, with its tagged tree and docstring. A successful walk leaves none of the entries it added pending |
| `StructureInfo.StructureTable.constructor` | textx_dsldoc/render_utils.py:192 | the shared table starts empty |
| `StructureInfo.StructureTable.Search` | textx_dsldoc/render_utils.py:192-251 | one call on the shared `treated_classes` table: the memoisation contract of SearchIn, including that a successful call leaves no entry it added pending |
| `GenDoc.OrStr` | textx_dsldoc/render_utils.py:213-216 | a choice's `'str'` is `('or', names)` with the names in order |
| `GenDoc.DocLines` | textx_dsldoc/render_utils.py:362 | the docstring is written only when it is present and not empty |
| `GenDoc.Targets` | textx_dsldoc/render_utils.py:364-370 | an entry written as a regex has no child. A choice's children are its subclasses, in order. A rule has one child per attribute. Each child is an entry of the table or a TypeError |
| `GenDoc.Selected` | textx_dsldoc/render_utils.py:367-370 | an attribute entry is replaced by the entry it selects; one without `'select'` stays a pair, which raises TypeError |
| `GenDoc.GenDocIn` | textx_dsldoc/render_utils.py:344-371 | a name already done gives nothing and changes nothing. Otherwise the name is added and written first, as `'# ' + name` then the entry's own lines. Every name documented is new and documented once |
| `GenDoc.Document` | textx_dsldoc/render_utils.py:354-371 | the same for a name not yet done: the name becomes done, only names of the table are added, and any output starts with `'# ' + name` |
| `GenDoc.GenTargets` | textx_dsldoc/render_utils.py:365-371 | the children are documented in order; the names they document are new and distinct. A successful run met no child that stays an attribute pair (documenting a pair raises TypeError) and wrote at least the break line for each child; no children give no lines |
| `GenDoc.DocGenerator.Generate` | textx_dsldoc/render_utils.py:344-355 | with the shared `done_classes` set: nothing for a name already done; otherwise the name is added and the output starts with `'# ' + name` and the entry's lines |
| `GenDoc.EntryHead` | textx_dsldoc/render_utils.py:356-362 | an entry that is no regex, no special name and no rule raises KeyError; a rule's or choice's entry ends with its docstring lines |
| `GenDoc.RegexEntryHead` | textx_dsldoc/render_utils.py:356-357 | a regex entry is its linked pattern and its examples, one per line |
| `GenDoc.SpecialEntryHead` | textx_dsldoc/render_utils.py:358-359 | an entry named after a SPECIAL_REGEXES key is described by that key's regex: the examples in bold, then the linked regex |
| `SequenceDoc.DocSpecialRegex` | textx_dsldoc/render_utils.py:316-323 | a `special regex` tag whose upper-cased name is a SPECIAL_REGEXES key is described in two lines: the examples in bold, then the linked regex |
| `GenDoc.UnlistedBaseTypeFails` | textx_dsldoc/render_utils.py:218 | a base type missing from SPECIAL_REGEXES has neither `'regex'` nor `'str'`: KeyError |
| `GenDoc.NumberIsUnlisted` | textx_dsldoc/render_utils.py:218 | NUMBER is such a base type |
| `GenDoc.OrLinksOfNames` | textx_dsldoc/render_utils.py:303-308 | `('or', names)` gives one anchor link per name, in order |
| `GenDoc.ChoiceEntryHead` | textx_dsldoc/render_utils.py:361-362 | a raw choice gives "one of:", a blank line, one link per subclass, then its docstring when not empty |
| `RenderArpeggio.RepeatToStr` | textx_dsldoc/render_arpeggio.py:8-12 | each repeat suffix is one character: `?` exactly for Optional, `*` exactly for ZeroOrMore, `+` exactly for OneOrMore, so the suffix tells the kind |
| `RenderArpeggio.SepSuffix` | textx_dsldoc/render_arpeggio.py:26 | `[sep]` exactly when the separator is truthy, nothing otherwise |
| `RenderArpeggio.RenderAsStr` | textx_dsldoc/render_arpeggio.py:15-47 | exactly one string per node of `peg_rule.nodes`, in order; it fails, with ValueError, exactly when one node does |
| `RenderArpeggio.Tokens` | textx_dsldoc/render_arpeggio.py:19 | the same from a given node on |
| `RenderArpeggio.ItemStr` | textx_dsldoc/render_arpeggio.py:20-47 | a literal yields itself; only an unknown kind fails, with ValueError |
| `RenderArpeggio.SpecialRegexToken` | textx_dsldoc/render_arpeggio.py:34-37 | a SPECIAL_REGEXES pattern is a link to its base type's lower-cased anchor |
| `RenderArpeggio.RenderConcat` | textx_dsldoc/render_arpeggio.py:19 | the strings of `a + b` are those of a, then those of b |
| `RenderArpeggio.ChoiceOfLiteralsToken` | textx_dsldoc/render_arpeggio.py:40-41 | a choice of literals is `(a\|b\|...)` |
| `RenderArpeggio.RepetitionOfLiteralsToken` | textx_dsldoc/render_arpeggio.py:31-33 | a repetition over literals is the attribute name, the suffix, `=`, the literals joined by spaces, and `[sep]` for a truthy separator |
| `RenderArpeggio.KnownKindsRenderAsStr` | textx_dsldoc/render_arpeggio.py:15-47 | a rule of known node kinds renders |
| `RenderArpeggio.KnownKindsItem` | textx_dsldoc/render_arpeggio.py:20-44 | a node of known kinds renders |
| `RenderArpeggio.UnknownNodeFails` | textx_dsldoc/render_arpeggio.py:45-47 | a node of unknown kind among the rule's nodes raises ValueError |
| `RenderMetamodel.ReprParts` | textx_dsldoc/render_metamodel.py:64-65 | each alternative's lines, in order; it fails exactly when an alternative fails or has no line |
| `RenderMetamodel.ReprPartsFirstFailure` | textx_dsldoc/render_metamodel.py:64-65 | the first alternative that cannot be unpacked decides the error |
| `RenderMetamodel.ChoiceLinesAppend` | textx_dsldoc/render_metamodel.py:65-68 | one more alternative adds its first line as it is and its later lines as sub-items |
| `RenderMetamodel.ChoiceBranch` | textx_dsldoc/render_metamodel.py:57-60 | a `('choice', alts)` item goes to the choice branch over its alternatives |
| `RenderMetamodel.ItemReprOf` | textx_dsldoc/render_metamodel.py:34-37 | an empty item gives no line; a string of two or more characters is yielded as it is; a one-character string never leaves the unwrapping loop |
| `RenderMetamodel.ReprUnwrapped` | textx_dsldoc/render_metamodel.py:36-81 | an empty item gives no line; a string of two or more characters is yielded as it is; a triple whose head is unhashable (and so cannot be looked up in `{'0..*', '1..*'}`) raises TypeError |
| `RenderMetamodel.ItemRepr` | textx_dsldoc/render_metamodel.py:33-81 | the unwrapping loop and dispatch of `item_repr` give what ItemReprOf specifies |
| `RenderMetamodel.ChoiceRepr` | textx_dsldoc/render_metamodel.py:57-74 | the loop that collects lines and clears `inline` gives the choice branch's lines |
| `RenderMetamodel.AppendAlternative` | textx_dsldoc/render_metamodel.py:65-69 | later lines are prefixed `'    - '`, and any later line clears `inline` |
| `RenderMetamodel.ChoiceOfAllOk` | textx_dsldoc/render_metamodel.py:70-74 | when every alternative has lines, the branch is the single `either` line or `one of the following:` and the lines |
| `RenderMetamodel.ItemReprUnwraps` | textx_dsldoc/render_metamodel.py:35-37 | singleton tuples are transparent; an empty item yields no line |
| `RenderMetamodel.ItemReprRepetitionLine` | textx_dsldoc/render_metamodel.py:42-48 | a `0..*`/`1..*` item gives the "zero or any number of"/"at least one" line, with the separator read through CHARS_AS_READABLE |
| `RenderMetamodel.OptionalPrefixesFirstLine` | textx_dsldoc/render_metamodel.py:49-54 | `'optionally '` goes before the first sub-line only; later sub-lines pass unchanged; an optional over nothing raises ValueError |
| `RenderMetamodel.ChoiceLinesLength` | textx_dsldoc/render_metamodel.py:64-68 | with one line per alternative, the lines are the alternatives' lines in order |
| `RenderMetamodel.ChoiceInlineIff` | textx_dsldoc/render_metamodel.py:57-74 | a choice is one line exactly when it has fewer than four alternatives, each of one line, and then that line is `either` with those lines joined by `or`. Otherwise the first line is `one of the following:` |
| `RenderMetamodel.ParsingSequenceOf` | textx_dsldoc/render_metamodel.py:14-16 | the tagged tree reads back to the rule; one token per node; a rule of known kinds always builds |
| `RenderMetamodel.SubLines` | textx_dsldoc/render_metamodel.py:29-31 | a sub-line starting with a space gets four spaces, any other `'    - '` |
| `RenderMetamodel.ItemLines` | textx_dsldoc/render_metamodel.py:25-31 | an item has a `'- Type '` line exactly when its first line is not empty, followed by its sub-lines indented. An item with no line fails |
| `RenderMetamodel.ItemTypeLine` | textx_dsldoc/render_metamodel.py:26-28 | the item's lines start with `'- Type '` exactly when its first line is not empty |
| `RenderMetamodel.ItemsLines` | textx_dsldoc/render_metamodel.py:24-31 | every line produced is a `- Type` line or an indented line |
| `RenderMetamodel.SequenceMarkdown` | textx_dsldoc/render_metamodel.py:18-31 | a blank line, the tokens joined by spaces in an indented paragraph, a blank line, then only item lines |
| `RenderMetamodel.NewSection` | textx_dsldoc/render_metamodel.py:92-96 | the name and kind are kept; a missing docstring becomes empty; a section has a sequence exactly when a rule is given |
| `RenderMetamodel.Heading` | textx_dsldoc/render_metamodel.py:98-101 | `'# ' + name`, then the docstring only when it is not empty |
| `RenderMetamodel.BaseMarkdown` | textx_dsldoc/render_metamodel.py:98-104 | the heading, then a blank line and the sequence's lines when there is a sequence |
| `RenderMetamodel.ChoiceBullets` | textx_dsldoc/render_metamodel.py:144-145 | one `'- '` bullet per choice, in order |
| `RenderMetamodel.KindLines` | textx_dsldoc/render_metamodel.py:141-177 | a choice section adds a blank line and one bullet per choice. A selection adds a blank line and the sentence for `0..1`, `1..*` or `0..*`, and only the blank line for any other multiplicity. A regex section adds its paragraph of examples |
| `RenderMetamodel.RegexLines` | textx_dsldoc/render_metamodel.py:169-177 | a regex section's paragraph: a first line made of the title-cased name and the link to the regex, a blank line, one `<pre>` bullet per example that `matchExamples(regex, 4)` returns, and a closing blank line |
| `RenderMetamodel.SectionMarkdown` | textx_dsldoc/render_metamodel.py:141-142 | every section's lines start with DocSection's lines, followed by the subclass's own |
| `RenderMetamodel.FromTextxClass` | textx_dsldoc/render_metamodel.py:109-133 | None without `_tx_attrs`. A single non-empty regex gives a regex section. A special-regex name gives the bare name. A raw choice raises TypeError. Any other rule gives a plain section over its peg rule |
| `RenderMetamodel.RegexRuleSection` | textx_dsldoc/render_metamodel.py:169-177 | textX's one-attribute regex rule gives a regex section: the heading, then the regex paragraph |
| `Poc.PocDocFromClass` | poc.py:70-80 | None exactly for a missing docstring or one with a marker line; otherwise the docstring |
| `Poc.PackagedDocFilterRefinesPoc` | poc.py:70-80 | the packaged filter keeps only what this one keeps, and differs only on textX's default docstring |
| `Poc.PocMarkerLineDropsDoc` | poc.py:77-78 | a marker line drops the docstring |
| `Poc.PocTableIsRev` | poc.py:157-163 | the local pattern table is SPECIAL_REGEXES_REV |
| `Poc.PocListsThePatterns` | poc.py:157-163 | its keys are the SPECIAL_REGEXES patterns |
| `Poc.PocNamesThePatterns` | poc.py:157-163 | each pattern names the same base type as in SPECIAL_REGEXES |
| `Poc.SepText` | poc.py:178 | `seq.sep or ""` |
| `Poc.RepetitionText` | poc.py:177-182 | `[c_1sep …sep c_n]`, `c_1[sep …sep c_n]`, `[c]` |
| `Poc.PocRender` | poc.py:154-188 | a literal gives itself, a special pattern its type name, any other pattern `/pattern/`; it fails exactly where the tagged-tree renderer fails |
| `Poc.PocRenderAll` | poc.py:188 | one text per child, in order |
| `Poc.PocRenderFailsWithRender` | poc.py:187 | both renderers fail on the same trees |
| `Poc.PocSpecialAgrees` | poc.py:183-186 | a pattern gets a type name here exactly when the packaged renderer tags it `'special regex'`, with the same name lower-cased there |
| `Poc.PocLiteralSequence` | poc.py:188 | a sequence of literals is the literals joined by spaces |
| `Poc.PocLiteralChoice` | poc.py:167 | a choice of literals is `'(' + ') OR ('.join(...) + ')'` |
| `Poc.PocClassRepetition` | poc.py:175-182 | a repetition over a class shows the class name, with a missing separator as nothing |
| `PocSearch.FirstName` | poc.py:196 | `'name in parent'` is set only for a truthy name |
| `PocSearch.PocKindOf` | poc.py:198-212 | a rule's `'str'` is the one-line rendering of its peg rule; a regex entry holds `as_regex`'s pattern |
| `PocSearch.Forget` | poc.py:200-209 | the early walk's entry kinds are the packaged ones less the names and docstring |
| `PocSearch.PocKindOfAgrees` | poc.py:198-212 | the poc walk fails only where the packaged walk fails. Where the packaged walk succeeds, the poc walk gives the same kind: a regex, an attribute reference, a base type or a choice, or for a rule a rule with the same children. The converse of the first clause does not hold: a raw choice over an attribute object is a KeyError only in the packaged walk (`PocKindOfNotConverse`) |
| `PocSearch.PocKindOfNotConverse` | textx_dsldoc/render_utils.py:213-216 | on a well-formed metamodel whose raw choice has an attribute object as its subclass, the packaged walk raises KeyError (the subclass has no `name`) while the poc walk succeeds |
| `PocSearch.PocSearchIn` | poc.py:191-242 | a revisit returns the stored entry and changes nothing. A first visit stores the name (when truthy) and the entry that PocKindOf gives, and fails where PocKindOf fails. Stored entries are kept. A successful walk leaves none of the entries it added pending |
| `PocSearch.PocExpand` | poc.py:195-242 | a first visit fills only the new entry; for an attribute object, an error from the walk of its target is returned. A successful walk leaves none of the entries it added pending |
| `PocSearch.PocExpandClass` | poc.py:201-242 | for a class with attributes that is not a regex rule, the stored entry is the kind the classification gives; a failing classification makes the walk fail; only the new entry changes. A successful walk leaves none of the entries it added pending |
| `PocSearch.PocWalkAll` | poc.py:204-207 | every subclass gets an entry; stored entries are kept. A successful walk leaves none of the entries it added pending |
| `PocSearch.PocWalkAttrs` | poc.py:211-241 | the children are the attributes, by name, in order. A successful walk leaves none of the entries it added pending |
| `PocSearch.PocStructureTable.Search` | poc.py:191-242 | one call on the shared table: the contract of PocSearchIn, including that a successful call leaves no entry it added pending |
| `LaumioDsl.SpatialPositionIsBijection` | examples/example.py:15-22 | the three names and positions 0..2 map to each other both ways |
| `LaumioDsl.EnumerationWordsCountFromTop` | examples/example.py:105-116 | the words are lower-case; `1`/`top`/`first` are 2, `2`/`middle`/`second` are 1, `3`/`last`/`third`/`bottom` are 0 |
| `LaumioDsl.NameOf` | examples/example.py:130-134 | a numeric string goes through SPATIAL_POSITION and is a KeyError above 2; any other string is a name |
| `LaumioDsl.NameOfPosition` | examples/example.py:130-133 | the name found for a position maps back to that position |
| `LaumioDsl.FirstNamedFrom` | examples/example.py:135-138 | the first device with the name, or None when none has it |
| `LaumioDsl.Resolve` | examples/example.py:128-138 | the first device whose name is the converted name, or None when none has it; a KeyError for an unlisted position |
| `LaumioDsl.ResolveFrom` | examples/example.py:167 | one resolution per name, in order; it fails exactly when one does |
| `LaumioDsl.Present` | examples/example.py:173 | exactly the devices found |
| `LaumioDsl.PresentConcat` | examples/example.py:173 | filtering keeps the order |
| `LaumioDsl.Read` | examples/example.py:229-234 | the condition is the pressed status XOR the negation flag; it costs one read; there is an IndexError without devices |
| `LaumioDsl.CollectOne` | examples/example.py:179-184 | a group name gives the group's devices, any other name one resolved device |
| `LaumioDsl.CollectFromAcc` | examples/example.py:177-184 | what was collected before stays first |
| `LaumioDsl.CollectConcat` | examples/example.py:177-184 | the devices for targets `a + b` are those for a, then those for b: target order is kept |
| `LaumioDsl.CollectSingle` | examples/example.py:180-184 | a single target's expansion, or a KeyError |
| `LaumioDsl.ApplyAllPresent` | examples/example.py:194-196 | when every device is found, each gets its call, in order |
| `LaumioDsl.ApplyConcat` | examples/example.py:188-196 | the calls for `a + b` are those for a, then those for b |
| `LaumioDsl.ApplyStopsAtMissing` | examples/example.py:188-196 | a device that was not found stops the calls there with AttributeError |
| `LaumioDsl.ApplyExtends` | examples/example.py:188-196 | device calls are only appended |
| `LaumioDsl.ExecExtends` | examples/example.py:161-213 | no command removes or reorders a callback or a device call |
| `LaumioDsl.ExecAllExtends` | examples/example.py:209-213 | the same for a list of commands |
| `LaumioDsl.CallbacksFromExtends` | examples/example.py:291-296 | the same for running the callbacks |
| `LaumioDsl.GroupStores` | examples/example.py:167-173 | under the group name, exactly the resolved devices that exist, in order; no other group changes |
| `LaumioDsl.GroupMembers` | examples/example.py:167-173 | a device is stored exactly when one of the names resolves to it |
| `LaumioDsl.GroupTwiceFails` | examples/example.py:168 | a second run of the same Group command raises AttributeError |
| `LaumioDsl.ColorFillsAll` | examples/example.py:194-196 | with no target, every collected device is filled, in target order |
| `LaumioDsl.ColorColumn` | examples/example.py:190-193 | the column specifier goes through ENUMERATION_WORDS, an unknown word is kept, and every collected device gets that column |
| `LaumioDsl.ColorOtherTarget` | examples/example.py:197-198 | any other target raises DSLSyntaxError before any device call |
| `LaumioDsl.ExecColorAsWritten` | examples/example.py:186-193 | as written, a ring or column command raises AttributeError once its targets are collected |
| `LaumioDsl.ColumnSpecifierObjectFails` | examples/example.py:190-193 | `color LaumioA top column in red` fails as written and sets column 2 when the word is read |
| `LaumioDsl.CollectFrom` | examples/example.py:177-184 | the only error is KeyError, from a position with no name; what came before stays first (`CollectFromAcc`) |
| `LaumioDsl.Collect` | examples/example.py:176-184 | the only error is KeyError; target order is kept (`CollectConcat`) and one target gives its group or one device (`CollectSingle`) |
| `LaumioDsl.Apply` | examples/example.py:188-196 | the only error is AttributeError, from a device that was not found; with every device found each gets its call in order (`ApplyAllPresent`), and calls are only appended (`ApplyExtends`) |
| `LaumioDsl.ExecGroup` | examples/example.py:166-173 | an error (a KeyError from a name, or the AttributeError of a second run, `GroupTwiceFails`) changes nothing; success needs a first run, records that the name was replaced by its text, stores the group under that name (`GroupStores`) and keeps every other group; only `groups` and that record change |
| `LaumioDsl.ExecColor` | examples/example.py:176-198 | only the device calls and the stored specifier change, and no other command's specifier; an unknown target raises DSLSyntaxError and changes nothing; `ColorFillsAll`, `ColorColumn`, `ColorOtherTarget`, `RingRerun` and `ColumnRerun` state the branches |
| `LaumioDsl.Exec` | examples/example.py:161-213 | device calls and callbacks are only extended, a single command never diverges, only a condition reads buttons, and only a condition or a callback touches the callbacks |
| `LaumioDsl.ExecAll` | examples/example.py:209-213 | the same for a list of commands; one command is exactly Exec |
| `LaumioDsl.CallbacksFrom` | examples/example.py:291-296 | device calls and callbacks are only extended; running out of fuel needs more callbacks than were visited |
| `LaumioDsl.RunFrom` | examples/example.py:302-305 | device calls and callbacks are only extended |
| `LaumioDsl.LogAllPresent` | examples/example.py:194-196 | when every collected device is found, the calls are one per device, in order, and succeed |
| `LaumioDsl.RingRerun` | examples/example.py:187-189 | once a ring command has succeeded, running it again reads the stored word and repeats exactly the calls of the first run |
| `LaumioDsl.ColumnRerun` | examples/example.py:190-193 | once a column command has succeeded, running it again repeats its calls for an unlisted word and raises AttributeError, changing nothing, for a word ENUMERATION_WORDS lists |
| `LaumioDsl.ConditionRunsOneBranch` | examples/example.py:206-213 | exactly the if-commands when the condition holds, exactly the else-commands otherwise |
| `LaumioDsl.ConditionWithoutDevices` | examples/example.py:208 | without devices a condition raises IndexError and runs nothing |
| `LaumioDsl.CallbackAppendsOne` | examples/example.py:202-204 | exactly one `(condition, subcommands)` pair is appended, last; nothing else changes |
| `LaumioDsl.ExecAllConcat` | examples/example.py:209-213 | commands run in order, up to the first error |
| `LaumioDsl.CallbackStep` | examples/example.py:293-296 | an unsatisfied callback costs one read; a satisfied one runs its commands before the next callback |
| `LaumioDsl.Interpreter.constructor` | examples/example.py:286-290 | a fresh context has no group, no callback, no device call |
| `LaumioDsl.Interpreter.GetLaumio` | examples/example.py:128-138 | the loop over the devices returns what Resolve specifies |
| `LaumioDsl.Interpreter.Evaluate` | examples/example.py:229-234 | one button read, as Read specifies |
| `LaumioDsl.Interpreter.ExecuteGroup` | examples/example.py:165-173 | `Group.execute` updates `groups` as Exec specifies |
| `LaumioDsl.Interpreter.Collected` | examples/example.py:177-184 | the target loop that extends the list of devices |
| `LaumioDsl.Interpreter.ApplyTo` | examples/example.py:188-196 | the loop of device calls; nothing else changes |
| `LaumioDsl.Interpreter.ExecuteColor` | examples/example.py:175-198 | `Color.execute` as Exec specifies, in the corrected reading of the specifier (its text: `.id` on the first run, the stored value afterwards; see "## Findings") |
| `LaumioDsl.Interpreter.Execute` | examples/example.py:303 | `command.execute(context, callbacks)` as Exec specifies; a `Color` command runs in the corrected reading of its specifier |
| `LaumioDsl.Interpreter.ExecuteCondition` | examples/example.py:206-213 | `Condition.execute` as Exec specifies |
| `LaumioDsl.Interpreter.ExecuteAll` | examples/example.py:209-210 | the command loop, up to the first error |
| `LaumioDsl.Interpreter.CallCallbacks` | examples/example.py:291-296 | `call_callbacks`, including callbacks registered during the loop |
| `LaumioDsl.Interpreter.Interpret` | examples/example.py:302-305 | each command, then the callbacks |

## Left out

- `get_match_examples` (both versions) depends on Python's regex engine, random choice, a regex generator and similarity ratios. It is the function `matchExamples` of `RenderUtils.Env`, and its results are left unconstrained.
- `urllib.parse.quote` inside `render_regex`, `markdown.markdown` (in `ParsingSequence.as_markdown` and `DocSection.as_html`) and the `str()` of a textX class are the functions `quote`, `markdown` and `classStr` of `Env`.
- `DocSection.as_html`, textx_dsldoc/converters.py and textx_dsldoc/textx_integration.py are not part of this model. They are glue around the markdown library, the command line, and file reading and writing.
- The `repr` text of a tuple or list, which `str()` and f-strings produce, is not modelled. Reaching it gives the error `Unmodelled`.
- `lower`, `upper`, `title` and `isnumeric` are modelled on ASCII only.
- Python's lazy generators are collected into lists. The lines yielded before an exception are not kept.
- A separator is modelled by its text. Arpeggio stores a separator node, but the CHARS_AS_READABLE lookup and the `[sep]` text presume text.
- LaumioDsl.CallbacksFrom: `call_callbacks` iterates over a list that may grow while it runs. The model visits at most `fuel` callbacks and reports a longer run as `Diverges`.
- In examples/example.py, these are left out:
  - the grammar and parser (METAMODEL, model_from_str);
  - `error_message_from_err`, which depends on textX's message text;
  - `Runfile`, which re-enters the parser;
  - `Wait`, which uses float durations, sleeping and an endless loop;
  - `SensorComparison`, which reads float sensor attributes that do not exist;
  - the `Laumio` hardware mocks, whose calls are recorded in `log`.
- The random button status is the world's function `pressed` of the read's ordinal number and the button.
- `print`, `print_obj`, the `__main__` blocks, and poc.py's module-level script, `search_for_regexes` and `contained_classes` do nothing the documentation depends on.
- LaumioDsl.Exec: its `Color` case runs the corrected `ExecColor`, which reads the specifier's text: the identifier's `.id` on the first run, the stored value afterwards. The program as written raises AttributeError on every ring or column command instead (`ExecColorAsWritten`, see "## Findings"). So do ExecAll, CallbacksFrom and RunFrom, which are built on Exec.
- LaumioDsl.ExecColor: a literal `self.specifier.id` in place of `self.specifier` would raise AttributeError whenever the same command runs again (a callback's commands, say), because by then the specifier is a string or a number, which has no `.id`. The model reads the stored value on a re-run instead: a ring command then repeats its calls (`RingRerun`), a column command repeats them for an unlisted word and raises AttributeError for a listed one, whose stored value is a number (`ColumnRerun`).
- LaumioDsl.Interpreter.ExecuteColor: runs the corrected `ExecColor` rather than the program's AttributeError for ring and column targets.
- LaumioDsl.Interpreter.Execute: its `Color` case is the corrected `ExecColor`. So are ExecuteAll, ExecuteCondition, CallCallbacks and Interpret, which are built on it.
- `str_sequence_doc`'s `'sequence'` branch is modelled, but `render_arpeggio_sequence` never emits that tag, so no property is stated about it.

## Findings

| source | as written | input that shows it | evidently intended | confidence | as-written member | corrected member |
|---|---|---|---|---|---|---|
| examples/example.py:187-191 | `self.specifier.lower()` is called on the `Identifier` object that the grammar assigns to `specifier`, and that object has no `lower`. Every ring or column command raises AttributeError | `color LaumioA top column in red` | lower-case the specifier's text, as the code does for the targets and the colour: the identifier's `.id` on the first run, and afterwards the string or number that run stored in `self.specifier` | medium; not executed | `LaumioDsl.ExecColorAsWritten`, `LaumioDsl.ColumnSpecifierObjectFails` | `LaumioDsl.ExecColor`, with `LaumioDsl.ColorColumn` proved of it; `LaumioDsl.Exec`, `LaumioDsl.Interpreter.ExecuteColor` and `LaumioDsl.Interpreter.Execute` run it |
